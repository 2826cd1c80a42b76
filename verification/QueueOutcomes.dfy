/** What each queue call answers, and what it makes of the order on display. */
module QueueOutcomes {
  import opened Prelude
  import opened Shuffle
  import opened QueueModel
  import opened QueueInvariants
  import opened QueueRows
  import opened QueuePlay

  // ------------------------------------------------------------ repeat-one

  /** Repeat-one answers exactly a track end and a seek past the end with a restart, and nothing else does. */
  lemma RestartsIff(q: State, reason: Reason, rng: Rng)
    requires Safe(q)
    ensures var o := Advance(q, reason, rng);
            && (o.change.playback == Restart <==>
                  q.repeat == One && (reason == TrackEnd || reason == SeekPastEnd) && q.current.Some?)
            && (o.change.playback == Restart ==>
                  && o.queue == q.(history := LastEntries(q.history + [q.current.value.uid]))
                  && !o.change.orderChanged && !o.change.cursorChanged)
  {
    hide Shuffled, FindIndex, Rewound, DropShuffled;
    if NextContextUid(q).None? && q.repeat == All && q.context != [] {
      RewoundNames(q, rng);
    }
  }

  function Repeated(uid: Uid, n: nat): (r: seq<Uid>)
    ensures |r| == n && forall i :: 0 <= i < n ==> r[i] == uid
  {
    seq(n, i => uid)
  }

  /** Under repeat-one any number of track ends replays the current row and moves nothing; only the history grows. */
  lemma {:induction false} RepeatOneStays(q: State, reason: Reason, rngs: seq<Rng>)
    requires Safe(q) && q.repeat == One && q.current.Some? && (reason == TrackEnd || reason == SeekPastEnd)
    ensures var (q', reports) := PlayRun(q, reason, rngs);
            && (forall i :: 0 <= i < |reports| ==> reports[i] == Restart)
            && q' == q.(history := LastEntries(q.history + Repeated(q.current.value.uid, |rngs|)))
    decreases |rngs|
  {
    hide Advance, LastEntries, Safe, PushHistory;
    var uid := q.current.value.uid;
    ShortHistory(q);
    if rngs == [] {
      assert q.history + Repeated(uid, 0) == q.history + [];
    } else {
      var o := Advance(q, reason, rngs[0]);
      RestartsIff(q, reason, rngs[0]);
      AdvanceSafe(q, reason, rngs[0]);
      RepeatOneStays(o.queue, reason, rngs[1..]);
      LastEntriesTwice(q.history + [uid], Repeated(uid, |rngs| - 1));
      assert (q.history + [uid]) + Repeated(uid, |rngs| - 1) == q.history + Repeated(uid, |rngs|);
    }
  }

  lemma LastEntriesTwice(a: seq<Uid>, b: seq<Uid>)
    ensures LastEntries(LastEntries(a) + b) == LastEntries(a + b)
  {
    if |a| > HISTORY_LIMIT {
      assert LastEntries(a) + b == (a + b)[|a| - HISTORY_LIMIT..];
    }
  }

  // ------------------------------------------------- what a call reports

  /**
   * The flags tell what moved: the order changes exactly when a play-next row is used up, and the cursor exactly when a
   * row becomes current, a context row is passed over, or the queue ends.
   */
  lemma AdvanceFlags(q: State, reason: Reason, rng: Rng)
    requires Safe(q)
    ensures var o := Advance(q, reason, rng);
            && (o.change.orderChanged <==> o.queue.playNext != q.playNext)
            && (o.queue.playNext != q.playNext ==> q.playNext != [] && o.queue.playNext == q.playNext[1..])
            && (o.change.cursorChanged <==>
                  || o.change.playback.MoveTo? || o.change.playback == EndOfQueue
                  || (o.change.playback.Skipped? && q.playNext == []))
            && (!o.change.cursorChanged ==> o.queue.current == q.current && o.queue.contextPos == q.contextPos)
            && o.queue.repeat == q.repeat && o.queue.mode == q.mode && o.queue.nextUid == q.nextUid
            && o.queue.context == q.context
  {
    hide Shuffled, FindIndex, DropShuffled, PushHistory;
    if NextContextUid(q).None? && q.repeat == All && q.context != [] {
      RewoundNames(q, rng);
    }
  }

  /**
   * A step back restarts the track past three seconds, or when there is no earlier row left in the context; the current
   * row, and one that is not there any more, are taken off the history for it, and nothing else.
   */
  lemma SkipBackRestartsIff(q: State, positionMs: nat)
    requires |q.history| <= 100
    ensures var o := SkipBack(q, positionMs);
            var before := if q.history != [] && IsCurrent(q, q.history[|q.history| - 1])
                          then q.history[..|q.history| - 1] else q.history;
            var gone := before == [] || before[|before| - 1] !in Ids(q.context);
            && (o.change.playback == Restart <==> positionMs > 3_000 || gone)
            && (positionMs > 3_000 ==> o.queue == q)
            && (positionMs <= 3_000 && gone ==>
                  o.queue == q.(history := if before == [] then [] else before[..|before| - 1]))
            && (positionMs <= 3_000 && !gone ==>
                  var uid := before[|before| - 1];
                  var i := FindIndex(q.context, uid).value;
                  && o.change == Change(false, true, MoveTo(uid))
                  && o.queue == q.(history := before, current := Some(q.context[i]), contextPos := Some(i)))
  {
    hide FindIndex, Ids;
    var before := if q.history != [] && IsCurrent(q, q.history[|q.history| - 1])
                  then q.history[..|q.history| - 1] else q.history;
    if before != [] {
      assert before[..|before| - 1] + [before[|before| - 1]] == before;
    }
  }

  // --------------------------------------------------------- a new context

  /** The rows on display from `i` on after `tracks` has been loaded: freshly numbered, in order. */
  ghost predicate Displays(q: State, tracks: seq<TrackId>, i: nat, from: Uid)
    requires i < |tracks|
  {
    var rows := EffectiveOrder(q);
    && |rows| == |tracks| - i
    && forall k :: 0 <= k < |rows| ==> rows[k] == Item(from + i + k, tracks[i + k], Context, false)
  }

  /** Loading tracks shows them from the chosen one on, makes that one current, and leaves no trace of the old context. */
  lemma ReplacedOrder(q: State, tracks: seq<TrackId>, cursor: nat)
    requires Safe(q) && tracks != []
    ensures var (o, i) := (ReplaceContextAt(q, tracks, cursor), Min(cursor, |tracks| - 1));
            && o.change == Change(true, true, Restart)
            && Displays(o.queue, tracks, i, q.nextUid) && o.queue.current.Some?
            && o.queue.history == LastEntries(q.history + [q.nextUid + i])
            && Tracks(o.queue.context) == tracks && o.queue.repeat == q.repeat && o.queue.shuffleOrder.None?
    ensures ReplaceContext(q, tracks) == ReplaceContextAt(q, tracks, 0)
  {
    var rows, i := NewRows(tracks, q.nextUid, Context), Min(cursor, |tracks| - 1);
    hide LastEntries, Displays;
    ReplacedWith(q, tracks, cursor);
    assert Tracks(rows) == tracks;
    NewRowsDisplayed(ReplaceContextAt(q, tracks, cursor).queue, tracks, i, q.nextUid);
  }

  /** The queue that plays row `i` of freshly loaded rows. */
  function LoadedAt(q: State, rows: seq<Item>, i: nat): State
    requires i < |rows|
  {
    State(rows, [], Some(rows[i]), Some(i), None, q.repeat, LastEntries(q.history + [rows[i].uid]), HostDriven,
          q.nextUid + |rows|)
  }

  lemma ReplacedWith(q: State, tracks: seq<TrackId>, cursor: nat)
    requires Safe(q) && tracks != []
    ensures var (rows, i) := (NewRows(tracks, q.nextUid, Context), Min(cursor, |tracks| - 1));
            ReplaceContextAt(q, tracks, cursor) == Outcome(LoadedAt(q, rows, i), Change(true, true, Restart))
    ensures ReplaceContext(q, tracks) == ReplaceContextAt(q, tracks, 0)
  {
    var rows, i := NewRows(tracks, q.nextUid, Context), Min(cursor, |tracks| - 1);
    hide PushHistory, LastEntries, Safe;
    ReplacedFirst(q, tracks);
    ReplacedHistory(q, rows[0].uid, rows[i].uid);
    hide ReplaceContext, NewRows;
    assert i != 0 ==> ReplaceContextAt(q, tracks, cursor).queue == LoadedAt(q, rows, i);
  }

  lemma ReplacedFirst(q: State, tracks: seq<TrackId>)
    requires tracks != []
    ensures var rows := NewRows(tracks, q.nextUid, Context);
            ReplaceContext(q, tracks) == Outcome(LoadedAt(q, rows, 0), Change(true, true, Restart))
  {
    PushedIsLast(q.history, q.nextUid);
    hide PushHistory, LastEntries;
  }

  lemma ReplacedHistory(q: State, first: Uid, uid: Uid)
    requires Safe(q)
    ensures var h := LastEntries(q.history + [first]);
            h != [] && PushHistory(h[..|h| - 1], uid) == LastEntries(q.history + [uid])
  {
    PushThenDrop(q.history, first);
    PushedIsLast(q.history, first);
  }

  lemma PushedIsLast(h: seq<Uid>, u: Uid)
    ensures PushHistory(h, u) == LastEntries(h + [u])
  {}

  lemma NewRowsDisplayed(q: State, tracks: seq<TrackId>, i: nat, from: Uid)
    requires i < |tracks| && q.context == NewRows(tracks, from, Context) && q.current == Some(q.context[i])
    requires q.contextPos == Some(i) && q.playNext == [] && q.shuffleOrder.None?
    ensures Displays(q, tracks, i, from)
  {
    ShowsFrom(q, i);
    hide EffectiveOrder;
  }

  lemma ShowsFrom(q: State, i: nat)
    requires i < |q.context| && q.current == Some(q.context[i])
    requires q.contextPos == Some(i) && q.playNext == [] && q.shuffleOrder.None?
    ensures EffectiveOrder(q) == q.context[i..]
  {
    var all := q.context;
    assert EffectiveOrder(q) == [all[i]] + ([] + all[i + 1..]);
  }

  /** Loading nothing leaves nothing on display. */
  lemma ReplacedByNothing(q: State, cursor: nat)
    ensures var o := ReplaceContextAt(q, [], cursor);
            EffectiveOrder(o.queue) == [] && o.change == Change(true, true, Empty) && o.queue.history == q.history
  {}

  lemma PushThenDrop(h: seq<Uid>, u: Uid)
    requires |h| <= HISTORY_LIMIT
    ensures forall v :: var pushed := PushHistory(h, u); PushHistory(pushed[..|pushed| - 1], v) == LastEntries(h + [v])
  {
    if |h| == HISTORY_LIMIT {
      var pushed := PushHistory(h, u);
      assert pushed[..|pushed| - 1] == h[1..];
    } else {
      assert (h + [u])[..|h|] == h;
    }
  }

  /**
   * With a current row, added tracks show up at the end of the order, in order, unless the cursor is stranded in an empty
   * context: then natural order passes over the first of them.
   */
  lemma AddedOrder(q: State, tracks: seq<TrackId>)
    requires WellFormed(q) && q.current.Some? && tracks != []
    ensures var q' := AddContext(q, tracks).queue;
            && q'.current == q.current && q'.contextPos == q.contextPos && q'.playNext == q.playNext
            && (Ids(Tail(q')) == Ids(Tail(q)) + Ids(NewRows(tracks, q.nextUid, Context)) <==>
                  !(StrandedCursor(q) && q.shuffleOrder.None?))
            && q'.context == q.context + NewRows(tracks, q.nextUid, Context)
  {
    var rows := NewRows(tracks, q.nextUid, Context);
    AddContextSafe(q, tracks);
    AppendedOrder(q, AddContext(q, tracks).queue, rows);
  }

  lemma AppendedOrder(q: State, q': State, rows: seq<Item>)
    requires Safe(q) && Safe(q') && rows != []
    requires q'.context == q.context + rows && q'.playNext == q.playNext && q'.contextPos == q.contextPos
    requires q'.shuffleOrder == ExtendShuffled(q.shuffleOrder, Ids(rows))
    ensures Ids(Tail(q')) == Ids(Tail(q)) + Ids(rows) <==> !(StrandedCursor(q) && q.shuffleOrder.None?)
  {
    hide Tail, Safe, UpcomingIds, StrandedCursor, Ids;
    TailIds(q);
    TailIds(q');
    AppendedUpcoming(q, q', rows);
    SamePrefix(Ids(q.playNext), UpcomingIds(q), Ids(rows), UpcomingIds(q'));
  }

  lemma SamePrefix(p: seq<Uid>, u: seq<Uid>, more: seq<Uid>, u': seq<Uid>)
    ensures p + u' == p + u + more <==> u' == u + more
  {
    assert p + u + more == p + (u + more);
    assert (p + u')[|p|..] == u' && (p + (u + more))[|p|..] == u + more;
  }

  lemma AppendedUpcoming(q: State, q': State, rows: seq<Item>)
    requires Safe(q) && Safe(q') && rows != []
    requires q'.context == q.context + rows && q'.playNext == q.playNext && q'.contextPos == q.contextPos
    requires q'.shuffleOrder == ExtendShuffled(q.shuffleOrder, Ids(rows))
    ensures UpcomingIds(q') == UpcomingIds(q) + Ids(rows) <==> !(StrandedCursor(q) && q.shuffleOrder.None?)
  {
    TailIds(q);
    TailIds(q');
    IdsAppend(q.context, rows);
    if Start(q) > |q.context| {
      StartPastEnd(q);
    }
    hide Safe, UpcomingIds, Tail;
    var (ids, more) := (Ids(q.context), Ids(rows));
    if q.shuffleOrder.None? && Start(q) <= |q.context| {
      assert (ids + more)[Start(q)..] == ids[Start(q)..] + more;
    }
  }

  lemma StartPastEnd(q: State)
    requires Safe(q) && Start(q) > |q.context|
    ensures StrandedCursor(q)
  {}

  /** With nothing current, the first of the added tracks starts. */
  lemma AddedStarts(q: State, tracks: seq<TrackId>)
    requires WellFormed(q) && q.current.None? && tracks != []
    ensures var o := AddContext(q, tracks);
            && o.change == Change(true, true, Restart)
            && o.queue.current == Some(Item(q.nextUid, tracks[0], Context, false))
            && o.queue.contextPos == Some(|q.context|) && o.queue.context[|q.context|] == o.queue.current.value
            && o.queue.history == LastEntries(q.history + [q.nextUid])
  {}

  /** A track the source reveals shows up at the end; a context it hands over shows just that. */
  lemma RevealedOrder(q: State, track: TrackId)
    requires WellFormed(q)
    ensures var row := Item(q.nextUid, track, Revealed, false);
            && Reveal(q, track).current == q.current && Reveal(q, track).context == q.context + [row]
            && (Ids(Tail(Reveal(q, track))) == Ids(Tail(q)) + [q.nextUid] <==>
                  !(StrandedCursor(q) && q.shuffleOrder.None?))
            && EffectiveOrder(AdoptTransferContext(q, track).queue) == [row]
            && AdoptTransferContext(q, track).queue.mode == SourceDriven
            && AdoptTransferContext(q, track).change == Change(true, true, MoveTo(q.nextUid))
  {
    var row := Item(q.nextUid, track, Revealed, false);
    assert Ids([row]) == [q.nextUid];
    RevealSafe(q, track);
    AppendedOrder(q, Reveal(q, track), [row]);
  }

  // ------------------------------------------------------- the play-next block

  /** A new play-next track goes behind the block and before the context; an idle queue takes the head of it all. */
  lemma PlayNextTrackOrder(q: State, track: TrackId)
    requires WellFormed(q)
    ensures var row := Item(q.nextUid, track, PlayNext, false);
            var order := q.playNext + [row] + UpcomingContext(q);
            var o := PlayNextTrack(q, track);
            if q.current.Some? then Tail(o.queue) == order && o.queue.current == q.current && o.change == REORDERED
            else
              && Tail(o.queue) == order[1..] && o.change.playback == Announced(order[0])
              && o.queue.current == (if order[0].unavailable then None else Some(order[0]))
  {
    var row := Item(q.nextUid, track, PlayNext, false);
    FreshRows(q, [row]);
    var q' := q.(playNext := q.playNext + [row], nextUid := q.nextUid + 1);
    FromDistinct(q');
    assert UpcomingContext(q') == UpcomingContext(q);
    if q.current.None? {
      AdvanceTakesHead(q', Skip, SeedOne());
    }
  }

  lemma FromDistinct(q: State)
    requires Safe(q) && Distinct(Ids(q.context) + Ids(q.playNext))
    requires q.shuffleOrder.Some? ==> Distinct(q.shuffleOrder.value)
    ensures WellFormed(q)
  {}

  /** A row of the block moves to its end; a row of the context goes there with its track, as a play-next row. */
  lemma PlayNextRow(q: State, uid: Uid)
    requires WellFormed(q)
    ensures var q' := PlayNextUid(q, uid).queue;
            && q'.current == q.current && q'.history == q.history
            && (uid in Ids(q.playNext) ==>
                  && Ids(q'.playNext) == Without(Ids(q.playNext), uid) + [uid]
                  && UpcomingContext(q') == UpcomingContext(q) && q'.context == q.context)
            && (uid !in Ids(q.playNext) && uid in Ids(q.context) ==>
                  var row := q.context[FindIndex(q.context, uid).value];
                  && q'.playNext == q.playNext + [Item(uid, row.track, PlayNext, row.unavailable)]
                  && Ids(q'.context) == Without(Ids(q.context), uid))
            && (uid !in Ids(q.playNext) && uid !in Ids(q.context) ==> PlayNextUid(q, uid) == Outcome(q, NO_CHANGE))
            && (uid in Ids(q.playNext) || uid in Ids(q.context) ==> PlayNextUid(q, uid).change == REORDERED)
  {
    DistinctAppend(Ids(q.context), Ids(q.playNext));
    if uid in Ids(q.playNext) {
      var i := FindIndex(q.playNext, uid).value;
      IdsRemoveAt(q.playNext, i);
      IdsAppend(RemoveAt(q.playNext, i), [q.playNext[i]]);
      assert Ids([q.playNext[i]]) == [uid];
      WithoutAt(Ids(q.playNext), i);
    } else if uid in Ids(q.context) {
      var i := FindIndex(q.context, uid).value;
      IdsRemoveAt(q.context, i);
      WithoutAt(Ids(q.context), i);
    }
  }

  /** Removing the current row moves on; a row of the block, or of the context, just goes. */
  lemma RemovedRowGoes(q: State, uid: Uid)
    requires WellFormed(q)
    ensures IsCurrent(q, uid) && Tail(q) != [] ==>
              TakesHead(q, Remove(q, uid)) && Remove(q, uid).change.playback == Announced(Tail(q)[0])
    ensures IsCurrent(q, uid) && Tail(q) == [] && q.repeat != All ==>
              Remove(q, uid) == Outcome(q.(current := None), Change(false, true, EndOfQueue))
    ensures !IsCurrent(q, uid) ==>
              var q' := Remove(q, uid).queue;
              && q'.current == q.current
              && (uid in Ids(q.playNext) ==>
                    Ids(Tail(q')) == Without(Ids(q.playNext), uid) + UpcomingIds(q) && q'.context == q.context)
              && (uid !in Ids(q.playNext) && uid in Ids(q.context) ==>
                    Ids(q'.context) == Without(Ids(q.context), uid) && q'.playNext == q.playNext)
              && (uid !in Ids(q.playNext) && uid !in Ids(q.context) <==> Remove(q, uid) == Outcome(q, NO_CHANGE))
  {
    DistinctAppend(Ids(q.context), Ids(q.playNext));
    if IsCurrent(q, uid) {
      if Tail(q) != [] {
        AdvanceTakesHead(q, Removed, SeedOne());
      } else if q.repeat != All {
        EndsAfterTail(q, Removed, SeedOne());
        AdvanceFlags(q, Removed, SeedOne());
      }
    } else if uid in Ids(q.playNext) {
      RemovedFromBlock(q, uid);
    } else if uid in Ids(q.context) {
      var i := FindIndex(q.context, uid).value;
      IdsRemoveAt(q.context, i);
      WithoutAt(Ids(q.context), i);
    }
  }

  lemma RemovedFromBlock(q: State, uid: Uid)
    requires WellFormed(q) && uid in Ids(q.playNext) && !IsCurrent(q, uid)
    ensures var q' := Remove(q, uid).queue;
            && q'.current == q.current && q'.context == q.context
            && Ids(Tail(q')) == Without(Ids(q.playNext), uid) + UpcomingIds(q)
            && Remove(q, uid).change == REORDERED
  {
    DistinctAppend(Ids(q.context), Ids(q.playNext));
    var i := FindIndex(q.playNext, uid).value;
    var q' := Remove(q, uid).queue;
    assert UpcomingContext(q') == UpcomingContext(q);
    hide Advance, Safe, Distinct, FindIndex, UpcomingContext;
    IdsRemoveAt(q.playNext, i);
    WithoutAt(Ids(q.playNext), i);
    IdsAppend(q'.playNext, UpcomingContext(q'));
  }

  // ------------------------------------------------------- moving the cursor

  /** A context row that is asked for becomes current, and in natural order the rows behind it are what is left. */
  lemma MovedCurrent(q: State, uid: Uid)
    requires WellFormed(q)
    ensures uid !in Ids(q.context) ==> MoveCurrentTo(q, uid) == Outcome(q, NO_CHANGE)
    ensures uid in Ids(q.context) ==>
              var (o, i) := (MoveCurrentTo(q, uid), FindIndex(q.context, uid).value);
              && o.queue.current == Some(q.context[i]) && o.queue.contextPos == Some(i)
              && o.queue.history == LastEntries(q.history + [uid])
              && o.change == Change(false, true, MoveTo(uid))
              && (q.shuffleOrder.None? ==> Tail(o.queue) == q.playNext + q.context[i + 1..])
              && (q.shuffleOrder.Some? ==> Ids(Tail(o.queue)) == Ids(q.playNext) + Without(q.shuffleOrder.value, uid))
  {
    hide MoveCurrentTo, LastEntries, Without, Safe, Distinct, Tail;
    MovedCurrentState(q, uid);
    if uid in Ids(q.context) && q.shuffleOrder.Some? {
      MovedCurrentShuffled(q, uid);
    } else if uid in Ids(q.context) {
      NaturalTail(MoveCurrentTo(q, uid).queue, FindIndex(q.context, uid).value);
    }
  }

  lemma MovedCurrentState(q: State, uid: Uid)
    ensures uid !in Ids(q.context) ==> MoveCurrentTo(q, uid) == Outcome(q, NO_CHANGE)
    ensures uid in Ids(q.context) ==>
              var i := FindIndex(q.context, uid).value;
              MoveCurrentTo(q, uid) == Outcome(
                q.(contextPos := Some(i), current := Some(q.context[i]), history := LastEntries(q.history + [uid]),
                   shuffleOrder := DropShuffled(q.shuffleOrder, uid)),
                Change(false, true, MoveTo(uid)))
  {
    hide PushHistory, LastEntries, Without;
    PushedIsLast(q.history, uid);
  }

  lemma NaturalTail(q: State, i: nat)
    requires i < |q.context| && q.contextPos == Some(i) && q.shuffleOrder.None?
    ensures Tail(q) == q.playNext + q.context[i + 1..]
  {}

  lemma MovedCurrentShuffled(q: State, uid: Uid)
    requires WellFormed(q) && uid in Ids(q.context) && q.shuffleOrder.Some?
    ensures Ids(Tail(MoveCurrentTo(q, uid).queue)) == Ids(q.playNext) + Without(q.shuffleOrder.value, uid)
  {
    MoveCurrentToSafe(q, uid);
    TailIds(MoveCurrentTo(q, uid).queue);
    hide Tail, Safe, Ids, PushHistory, FindIndex, UpcomingIds;
  }

  /** Where a row goes when it is asked up, down, or to a place on display; `n` rows are behind the current one. */
  function Wanted(t: Target, from: nat, n: nat): nat
    requires from < n
  {
    match t
    case Up => if from == 0 then 0 else from - 1
    case Down => Min(from + 1, n - 1)
    case To(i) => Min(Max(i, 1), n) - 1
  }

  /** A row behind the current one ends up where it was asked to be, also when it was there already. */
  lemma RowGoesWhereAsked(q: State, uid: Uid, t: Target, from: nat)
    requires WellFormed(q) && !IsCurrent(q, uid) && from < |Tail(q)| && Tail(q)[from].uid == uid
    ensures var ids := Ids(Tail(ReorderTail(q, uid, t).queue));
            var to := Wanted(t, from, |Tail(q)|);
            && |ids| == |Tail(q)| && ids[to] == uid
            && ids[..to] + ids[to + 1..] == Ids(Tail(q))[..from] + Ids(Tail(q))[from + 1..]
            && (ReorderTail(q, uid, t).change == REORDERED <==> to != from)
  {
    hide ReorderTail, Tail, Movement, WellFormed, Safe, FindIndex, MoveItem;
    WellFormedIsSafe(q);
    TailDistinct(q);
    FoundFirst(Tail(q), from);
    var to := Wanted(t, from, |Tail(q)|);
    MovementIs(q, uid, t, from);
    if to != from {
      ReorderMovesOneRow(q, uid, t);
      MoveItemRest(Ids(Tail(q)), from, to);
    }
  }

  lemma MoveItemRest(s: seq<Uid>, from: nat, to: nat)
    requires from < |s| && to < |s|
    ensures var moved := MoveItem(s, from, to);
            moved[to] == s[from] && moved[..to] + moved[to + 1..] == s[..from] + s[from + 1..]
  {
    var rest, moved := RemoveAt(s, from), MoveItem(s, from, to);
    assert moved[..to] == rest[..to] && moved[to + 1..] == rest[to..];
  }

  lemma MovementIs(q: State, uid: Uid, t: Target, from: nat)
    requires !IsCurrent(q, uid) && from < |Tail(q)| && FindIndex(Tail(q), uid) == Some(from)
    ensures var to := Wanted(t, from, |Tail(q)|);
            && Movement(q, uid, t) == (if to == from then None else Some((from, to)))
            && ReorderTail(q, uid, t).change == (if to == from then NO_CHANGE else REORDERED)
            && (to == from ==> ReorderTail(q, uid, t).queue == q)
  {
    hide Tail, FindIndex, ApplyTail, MoveItem;
  }

  lemma WellFormedIsSafe(q: State)
    requires WellFormed(q)
    ensures Safe(q)
  {}

  lemma TailDistinct(q: State)
    requires WellFormed(q)
    ensures Distinct(Ids(Tail(q)))
  {
    TailIds(q);
    DistinctAppend(Ids(q.context), Ids(q.playNext));
    UpcomingAvoidsPlayNext(q);
    DistinctAppend(Ids(q.playNext), UpcomingIds(q));
  }

  // ---------------------------------------------------- shuffle and repeat

  /** Shuffle redraws only the context rows after the cursor, each of them once; off and on again loses nothing. */
  lemma ShuffleOrder(q: State, rng: Rng, rng': Rng)
    requires WellFormed(q) && q.shuffleOrder.None? && Start(q) <= |q.context|
    ensures var q' := SetShuffle(q, true, rng).queue;
            && q'.shuffleOrder.Some? && q'.current == q.current && q'.contextPos == q.contextPos
            && q'.playNext == q.playNext && q'.context == q.context
            && multiset(UpcomingIds(q')) == multiset(UpcomingIds(q))
            && SetShuffle(q, true, rng).change == REORDERED
            && SetShuffle(q', false, rng') == Outcome(q, REORDERED)
            && SetShuffle(q', true, rng') == Outcome(q', NO_CHANGE)
  {
    var q' := SetShuffle(q, true, rng).queue;
    ShuffleSafe(q, true, rng);
    TailIds(q);
    TailIds(q');
    IdsSlice(q.context, Start(q));
    ShuffledPermutes(Ids(q.context[Start(q)..]), rng);
  }

  /** Which order shuffle draws is up to the generator alone: every order of the rows after the cursor is drawn by some. */
  lemma ShuffleDrawsAnyOrder(q: State, order: seq<Uid>) returns (rng: Rng)
    requires WellFormed(q) && q.shuffleOrder.None? && Start(q) <= |q.context|
    requires multiset(order) == multiset(UpcomingIds(q))
    ensures UpcomingIds(SetShuffle(q, true, rng).queue) == order
  {
    var ids := Ids(q.context[Start(q)..]);
    TailIds(q);
    IdsSlice(q.context, Start(q));
    ShuffleReachesEveryOrder(ids, order);
    rng :| Shuffled(ids, rng) == order;
    ShuffleSafe(q, true, rng);
    TailIds(SetShuffle(q, true, rng).queue);
  }

  /** So is the order of a new cycle. */
  lemma CycleDrawsAnyOrder(q: State, order: seq<Uid>) returns (rng: Rng)
    requires WellFormed(q) && q.playNext == [] && q.shuffleOrder.Some? && multiset(order) == multiset(Ids(q.context))
    ensures UpcomingIds(Rewound(q, rng)) == order
  {
    assert q.context[0..] == q.context;
    ShuffleReachesEveryOrder(Ids(q.context), order);
    rng :| Shuffled(Ids(q.context), rng) == order;
    RewoundSafe(q, rng);
    TailIds(Rewound(q, rng));
  }

  /** And the one previewed. */
  lemma PreviewDrawsAnyOrder(q: State, any: Rng, order: seq<TrackId>) returns (rng: Rng)
    requires WrapPreview(q, any).Some? && q.shuffleOrder.Some?
    requires multiset(order) == multiset(Tracks(ItemsExcept(q.context, q.current.value.uid)))
    ensures WrapPreview(q, rng) == Some([q.current.value.track] + order)
  {
    ShuffleReachesEveryOrder(Tracks(ItemsExcept(q.context, q.current.value.uid)), order);
    rng :| Shuffled(Tracks(ItemsExcept(q.context, q.current.value.uid)), rng) == order;
  }

  /** Only the mode changes, and only then is anything reported. */
  lemma RepeatChanges(q: State, mode: Repeat)
    ensures SetRepeat(q, mode).queue == q.(repeat := mode)
    ensures SetRepeat(q, mode).change.orderChanged <==> q.repeat != mode
    ensures !SetRepeat(q, mode).change.cursorChanged && SetRepeat(q, mode).change.playback == NoPlayback
  {}

  /** There is a preview exactly at the end of a cycle; shuffled or not it shows the current row and all the others. */
  lemma WrapPreviewRows(q: State, rng: Rng)
    requires WellFormed(q)
    ensures WrapPreview(q, rng).Some? <==>
              q.repeat == All && |q.context| >= 2 && Tail(q) == [] && q.current.Some?
    ensures WrapPreview(q, rng).Some? ==>
              var tracks := WrapPreview(q, rng).value;
              && tracks != [] && tracks[0] == q.current.value.track
              && multiset(tracks[1..]) == multiset(Tracks(ItemsExcept(q.context, q.current.value.uid)))
  {
    if WrapPreview(q, rng).Some? {
      var rest := Tracks(ItemsExcept(q.context, q.current.value.uid));
      ShuffledPermutes(rest, rng);
      assert WrapPreview(q, rng).value[1..] == if q.shuffleOrder.Some? then Shuffled(rest, rng) else rest;
    }
  }

  // ------------------------------------------------------ unavailable tracks

  /** Every row of the track is marked. */
  ghost predicate AllMarked(q: State, track: TrackId) {
    forall item :: item in q.context || item in q.playNext ==> item.track == track ==> item.unavailable
  }

  /** Marking a track marks exactly its rows, and moves on if it is the current one. */
  lemma MarksTheTrack(q: State, track: TrackId, rng: Rng)
    requires Safe(q)
    ensures var o := MarkUnavailable(q, track, rng);
            && AllMarked(o.queue, track) && Safe(o.queue)
            && |o.queue.context| == |q.context|
            && (forall i :: 0 <= i < |q.context| && q.context[i].track != track ==>
                  o.queue.context[i] == q.context[i])
            && (forall i :: 0 <= i < |q.context| ==> o.queue.context[i].track == q.context[i].track)
            && (!(q.current.Some? && q.current.value.track == track) ==>
                  o.queue.current == q.current && o.change == NO_CHANGE)
            && (q.current.Some? && q.current.value.track == track && HasTrack(q.context + q.playNext, track) ==>
                  o.change.playback.MoveTo? || o.change.playback.Skipped? || o.change.playback == EndOfQueue)
  {
    MarkSafe(q, track, rng);
    var all := q.context + q.playNext;
    if HasTrack(all, track) {
      var q' := q.(context := Marked(q.context, track), playNext := Marked(q.playNext, track));
      MarkedRowsSafe(q, track);
      hide Advance;
      if q.current.Some? && q.current.value.track == track {
        AdvanceFlags(q', Removed, rng);
        AdvanceKeepsMarks(q', track, Removed, rng);
        RemovedReports(q', rng);
      }
    } else {
      forall item | item in q.context || item in q.playNext ensures item.track != track {
        assert item in all;
        var i :| 0 <= i < |all| && all[i] == item;
      }
    }
  }

  lemma RemovedReports(q: State, rng: Rng)
    requires Safe(q) && q.current.Some?
    ensures var p := Advance(q, Removed, rng).change.playback; p.MoveTo? || p.Skipped? || p == EndOfQueue
  {
    hide Shuffled, FindIndex, DropShuffled, PushHistory;
    if NextContextUid(q).None? && q.repeat == All && q.context != [] {
      RewoundNames(q, rng);
    }
  }

  lemma AdvanceKeepsMarks(q: State, track: TrackId, reason: Reason, rng: Rng)
    requires Safe(q) && AllMarked(q, track)
    ensures AllMarked(Advance(q, reason, rng).queue, track)
    ensures Advance(q, reason, rng).change.playback.MoveTo? ==>
              var current := Advance(q, reason, rng).queue.current; current.Some? && current.value.track != track
  {
    AdvanceFlags(q, reason, rng);
    AdvanceTakesListed(q, reason, rng);
    hide Advance;
    if q.playNext != [] {
      assert forall item :: item in q.playNext[1..] ==> item in q.playNext;
    }
  }

  /** A row that is moved to was listed in the context or the block, and was available. */
  lemma AdvanceTakesListed(q: State, reason: Reason, rng: Rng)
    requires Safe(q)
    ensures var o := Advance(q, reason, rng);
            o.change.playback.MoveTo? ==>
              && o.queue.current.Some? && !o.queue.current.value.unavailable
              && (o.queue.current.value in q.context || o.queue.current.value in q.playNext)
  {
    hide Shuffled, FindIndex, DropShuffled, PushHistory;
    if NextContextUid(q).None? && q.repeat == All && q.context != [] {
      RewoundNames(q, rng);
    }
  }

  /** The rows a run of calls makes current, one per call that moves. */
  ghost function Played(q: State, reason: Reason, rngs: seq<Rng>): seq<Option<Item>>
    requires Safe(q)
    decreases |rngs|
  {
    if rngs == [] then []
    else
      var o := Advance(q, reason, rngs[0]);
      AdvanceSafe(q, reason, rngs[0]);
      (if o.change.playback.MoveTo? then [o.queue.current] else []) + Played(o.queue, reason, rngs[1..])
  }

  /** Once marked, a track is never moved to again, for any reason, generator, cycle or shuffle. */
  lemma {:induction false} MarkedIsNeverPlayed(q: State, track: TrackId, reason: Reason, rngs: seq<Rng>)
    requires Safe(q) && AllMarked(q, track)
    ensures forall row :: row in Played(q, reason, rngs) ==> row.Some? && row.value.track != track
    decreases |rngs|
  {
    hide Advance, Safe, AllMarked;
    if rngs != [] {
      AdvanceSafe(q, reason, rngs[0]);
      AdvanceKeepsMarks(q, track, reason, rngs[0]);
      MarkedIsNeverPlayed(Advance(q, reason, rngs[0]).queue, track, reason, rngs[1..]);
    }
  }
}
