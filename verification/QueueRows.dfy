/** Which calls keep every row listed once, and what reordering, removing and queueing do to the order. */
module QueueRows {
  import opened Prelude
  import opened Shuffle
  import opened QueueModel
  import opened QueueInvariants

  // ------------------------------------------------------------ reordering

  /** How much of the context a reordering call leaves in place. */
  function Kept(q: State): (n: nat)
    ensures n <= |q.context|
  {
    Min(Start(q), |q.context|)
  }

  lemma MoveItemIds(s: seq<Item>, from: nat, to: nat)
    requires from < |s| && to < |s|
    ensures Ids(MoveItem(s, from, to)) == MoveItem(Ids(s), from, to)
  {}

  /** The two parts a new tail is split into: the play-next block and the rest. */
  lemma ApplyTailShape(q: State, tail: seq<Item>)
    requires Safe(q) && |q.playNext| <= |tail|
    requires StrandedCursor(q) ==> |tail| == |q.playNext|
    ensures var (q', n) := (ApplyTail(q, tail), |q.playNext|);
            && q'.playNext == WithOrigin(tail[..n], PlayNext)
            && q'.context == q.context[..Kept(q)] + AsContext(tail[n..])
            && UpcomingContext(q') == AsContext(tail[n..])
  {
    var back := AsContext(tail[|q.playNext|..]);
    assert (q.context[..Kept(q)] + back)[Kept(q)..] == back;
  }

  lemma SplitIds(tail: seq<Item>, n: nat)
    requires n <= |tail|
    ensures Ids(WithOrigin(tail[..n], PlayNext)) + Ids(AsContext(tail[n..])) == Ids(tail)
  {}

  lemma ApplyTailIds(q: State, tail: seq<Item>)
    requires Safe(q) && |q.playNext| <= |tail|
    requires StrandedCursor(q) ==> |tail| == |q.playNext|
    ensures var q' := ApplyTail(q, tail);
            && Ids(Tail(q')) == Ids(tail)
            && |q'.playNext| == |q.playNext|
            && q'.context[..Kept(q)] == q.context[..Kept(q)]
            && Rows(q') == multiset(Ids(q.context[..Kept(q)])) + multiset(Ids(tail))
  {
    var q' := ApplyTail(q, tail);
    var n := |q.playNext|;
    ApplyTailShape(q, tail);
    SplitIds(tail, n);
    var kept, front, back := q.context[..Kept(q)], q'.playNext, AsContext(tail[n..]);
    IdsAppend(front, back);
    IdsAppend(kept, back);
    assert multiset(Ids(tail)) == multiset(Ids(front)) + multiset(Ids(back));
    assert Rows(q') == multiset(Ids(kept)) + multiset(Ids(back)) + multiset(Ids(front));
    CancelSides(multiset(Ids(kept)), multiset(Ids(front)), multiset(Ids(back)), multiset(Ids(back)));
  }

  lemma TailLengths(q: State)
    requires Safe(q)
    ensures |Tail(q)| == |q.playNext| + |UpcomingIds(q)|
    ensures StrandedCursor(q) ==> |Tail(q)| == |q.playNext|
  {
    if StrandedCursor(q) && q.shuffleOrder.Some? {
      var ids := q.shuffleOrder.value;
      assert ids != [] ==> ids[0] in ids;
      assert |Ids(q.context)| == 0;
    }
  }

  /**
   * A reordering call moves exactly one row of the effective order, by position, whether or not shuffle is on. The
   * current row, the size of the play-next block, the cursor and every row up to the cursor stay.
   */
  lemma ReorderMovesOneRow(q: State, uid: Uid, t: Target)
    requires Safe(q) && Movement(q, uid, t).Some?
    ensures var (from, to) := Movement(q, uid, t).value;
            var q' := ReorderTail(q, uid, t).queue;
            && Ids(Tail(q')) == MoveItem(Ids(Tail(q)), from, to)
            && Ids(Tail(q))[from] == uid == Ids(Tail(q'))[to]
            && q'.current == q.current && q'.contextPos == q.contextPos && q'.history == q.history
            && |q'.playNext| == |q.playNext|
            && q'.context[..Kept(q)] == q.context[..Kept(q)]
            && Rows(q') == multiset(Ids(q.context[..Kept(q)])) + multiset(Ids(Tail(q)))
  {
    var (from, to) := Movement(q, uid, t).value;
    var moved := MoveItem(Tail(q), from, to);
    TailLengths(q);
    ApplyTailIds(q, moved);
    MoveItemIds(Tail(q), from, to);
    MoveItemMembers(Ids(Tail(q)), from, to);
  }

  lemma RowsBySides(q: State)
    requires Safe(q)
    ensures Rows(q) ==
            multiset(Ids(q.context[..Kept(q)])) + multiset(Ids(q.context[Kept(q)..])) + multiset(Ids(q.playNext))
    ensures multiset(Ids(Tail(q))) == multiset(Ids(q.playNext)) + multiset(UpcomingIds(q))
  {
    IdsSlice(q.context, Kept(q));
    TailIds(q);
  }

  /** Rows are conserved by a move exactly when the upcoming rows are the context rows after the cursor. */
  lemma ReorderConservesRows(q: State, uid: Uid, t: Target)
    requires Safe(q) && Movement(q, uid, t).Some?
    ensures Rows(ReorderTail(q, uid, t).queue) == Rows(q) <==>
            multiset(UpcomingIds(q)) == multiset(Ids(q.context[Kept(q)..]))
    ensures q.shuffleOrder.None? ==> Rows(ReorderTail(q, uid, t).queue) == Rows(q)
  {
    ReorderMovesOneRow(q, uid, t);
    RowsBySides(q);
    TailIds(q);
    var a, b, c := multiset(Ids(q.context[..Kept(q)])), multiset(Ids(q.playNext)), multiset(UpcomingIds(q));
    var d := multiset(Ids(q.context[Kept(q)..]));
    CancelSides(a, b, c, d);
    if q.shuffleOrder.None? && Start(q) <= |q.context| {
      IdsSlice(q.context, Start(q));
    }
  }

  lemma CancelSides(a: multiset<Uid>, b: multiset<Uid>, c: multiset<Uid>, d: multiset<Uid>)
    ensures a + (b + c) == a + d + b <==> c == d
  {
    assert c == (a + (b + c)) - a - b;
    assert d == (a + d + b) - a - b;
    assert a + (b + d) == a + d + b;
  }

  /** A shuffled row that is still to come although its place in the context is at or before the cursor. */
  ghost predicate ShuffledBehindCursor(q: State) {
    q.shuffleOrder.Some? && exists u :: u in q.shuffleOrder.value && u in Ids(q.context[..Kept(q)])
  }

  lemma KeptAndUpcoming(q: State)
    requires WellFormed(q)
    ensures Distinct(Ids(q.context[..Kept(q)])) && Distinct(Ids(Tail(q)))
    ensures (exists u :: u in Ids(q.context[..Kept(q)]) && u in Ids(Tail(q))) <==> ShuffledBehindCursor(q)
  {
    var kept, rest := Ids(q.context[..Kept(q)]), Ids(q.context[Kept(q)..]);
    TailIds(q);
    IdsSlice(q.context, Kept(q));
    assert Ids(q.context) == kept + rest;
    DistinctAppend(Ids(q.context), Ids(q.playNext));
    DistinctAppend(kept, rest);
    UpcomingAvoidsPlayNext(q);
    DistinctAppend(Ids(q.playNext), UpcomingIds(q));
    if q.shuffleOrder.None? {
      assert forall u :: u in UpcomingIds(q) ==> u in rest;
    }
  }

  /** A move keeps every row listed once exactly when no shuffled row to come sits behind the cursor. */
  lemma ReorderKeepsRowsDistinct(q: State, uid: Uid, t: Target)
    requires WellFormed(q) && Movement(q, uid, t).Some?
    ensures WellFormed(ReorderTail(q, uid, t).queue) <==> !ShuffledBehindCursor(q)
  {
    var q' := ReorderTail(q, uid, t).queue;
    ReorderSafe(q, uid, t);
    ReorderMovesOneRow(q, uid, t);
    WellFormedCounts(q');
    KeptAndUpcoming(q);
    var kept, tail := Ids(q.context[..Kept(q)]), Ids(Tail(q));
    assert multiset(kept + tail) == Rows(q');
    DistinctCounts(kept + tail);
    DistinctAppend(kept, tail);
  }

  lemma UpcomingAvoidsPlayNext(q: State)
    requires WellFormed(q)
    ensures Distinct(UpcomingIds(q))
    ensures forall u :: u in UpcomingIds(q) ==> u in Ids(q.context) && u !in Ids(q.playNext)
  {
    TailIds(q);
    DistinctAppend(Ids(q.context), Ids(q.playNext));
    if q.shuffleOrder.None? && Start(q) <= |q.context| {
      IdsSlice(q.context, Start(q));
    }
  }

  /** Moving a row up and back down restores the order, also across the play-next boundary. */
  lemma MoveUpThenDownRestoresOrder(q: State, uid: Uid)
    requires Safe(q) && Movement(q, uid, Up).Some?
    ensures var q' := ReorderTail(q, uid, Up).queue;
            var q'' := ReorderTail(q', uid, Down).queue;
            && Movement(q', uid, Down).Some?
            && Ids(Tail(q'')) == Ids(Tail(q))
            && q''.current == q.current && |q''.playNext| == |q.playNext|
  {
    hide Safe, MoveItem, Ids, FindIndex, ApplyTail, Tail;
    var (from, to) := Movement(q, uid, Up).value;
    var q' := ReorderTail(q, uid, Up).queue;
    ReorderSafe(q, uid, Up);
    ReorderMovesOneRow(q, uid, Up);
    MovedDownAgain(q, q', uid, from);
    ReorderMovesOneRow(q', uid, Down);
    MoveItemBack(Ids(Tail(q)), from);
  }

  lemma MoveItemBack(s: seq<Uid>, from: nat)
    requires 0 < from < |s|
    ensures MoveItem(s, from, from - 1) == s[from - 1 := s[from]][from := s[from - 1]]
    ensures MoveItem(MoveItem(s, from, from - 1), from - 1, from) == s
  {
    var m := MoveItem(s, from, from - 1);
    assert m == s[from - 1 := s[from]][from := s[from - 1]];
    assert RemoveAt(m, from - 1) == RemoveAt(s, from);
    assert RemoveAt(s, from)[..from] + [s[from]] + RemoveAt(s, from)[from..] == s;
  }

  lemma MovesUpFrom(q: State, uid: Uid)
    requires Movement(q, uid, Up).Some?
    ensures var (from, to) := Movement(q, uid, Up).value;
            !IsCurrent(q, uid) && to == from - 1 && FindIndex(Tail(q), uid) == Some(from)
  {}

  lemma MovesDownFrom(q: State, uid: Uid, i: nat)
    requires !IsCurrent(q, uid) && i + 1 < |Tail(q)| && FindIndex(Tail(q), uid) == Some(i)
    ensures Movement(q, uid, Down) == Some((i, i + 1))
  {
    hide FindIndex, Tail, IsCurrent;
    assert TargetIndex(Down, i) == Some(i + 1);
  }

  lemma MovedDownAgain(q: State, q': State, uid: Uid, from: nat)
    requires Movement(q, uid, Up) == Some((from, from - 1)) && q'.current == q.current
    requires Ids(Tail(q')) == MoveItem(Ids(Tail(q)), from, from - 1)
    ensures Movement(q', uid, Down) == Some((from - 1, from))
  {
    hide FindIndex, Tail;
    MovesUpFrom(q, uid);
    var before, after := Ids(Tail(q)), Ids(Tail(q'));
    MoveItemBack(before, from);
    forall i | 0 <= i < from - 1 ensures after[i] != uid {
      assert after[i] == before[i] == Tail(q)[i].uid;
    }
    assert Tail(q')[from - 1].uid == after[from - 1] == before[from] == uid;
    FoundAt(Tail(q'), uid, from - 1);
    MovesDownFrom(q', uid, from - 1);
  }

  lemma FoundAt(items: seq<Item>, uid: Uid, i: nat)
    requires i < |items| && items[i].uid == uid
    requires forall j :: 0 <= j < i ==> Ids(items)[j] != uid
    ensures FindIndex(items, uid) == Some(i)
  {
    hide FindIndex;
    assert Ids(items)[i] == uid;
    var f := FindIndex(items, uid).value;
    assert Ids(items)[f] == uid;
  }

  // --------------------------------------------- queueing and removing a row

  /** The cursor cannot step back from index 0, so taking the first context row away there hides the next one. */
  predicate HidesNext(q: State, index: nat) {
    q.shuffleOrder.None? && q.contextPos == Some(0) && index == 0 && |q.context| > 1
  }

  /** Queueing a context row as play-next drops just that row from the upcoming ones, unless `HidesNext`. */
  lemma PlayNextUpcoming(q: State, uid: Uid)
    requires WellFormed(q) && FindIndex(q.playNext, uid).None? && FindIndex(q.context, uid).Some?
    ensures UpcomingIds(PlayNextUid(q, uid).queue) == Without(UpcomingIds(q), uid) <==>
            !HidesNext(q, FindIndex(q.context, uid).value)
    ensures Ids(PlayNextUid(q, uid).queue.playNext) == Ids(q.playNext) + [uid]
  {
    hide FindIndex, Without;
    var i := FindIndex(q.context, uid).value;
    var row := q.context[i].(origin := PlayNext);
    IdsAppend(q.playNext, [row]);
    assert Ids([row]) == [uid];
    PlayNextSafe(q, uid);
    UpcomingAfterTaking(q, PlayNextUid(q, uid).queue, i);
  }

  /** The same for removing a context row. */
  lemma RemoveUpcoming(q: State, uid: Uid)
    requires WellFormed(q) && !IsCurrent(q, uid)
    requires FindIndex(q.playNext, uid).None? && FindIndex(q.context, uid).Some?
    ensures UpcomingIds(Remove(q, uid).queue) == Without(UpcomingIds(q), uid) <==>
            !HidesNext(q, FindIndex(q.context, uid).value)
    ensures Remove(q, uid).queue.playNext == q.playNext
  {
    hide FindIndex, Without, Ids;
    RemoveSafe(q, uid);
    UpcomingAfterTaking(q, Remove(q, uid).queue, FindIndex(q.context, uid).value);
  }

  /** Where the cursor ends up when context row `i` is taken out. */
  function CursorWithout(pos: Option<nat>, i: nat): Option<nat> {
    match pos
    case Some(p) => if i <= p then Some(if p == 0 then 0 else p - 1) else Some(p)
    case None => None
  }

  lemma UpcomingAfterTaking(q: State, q': State, i: nat)
    requires WellFormed(q) && Safe(q') && i < |q.context|
    requires q'.context == RemoveAt(q.context, i)
    requires q'.shuffleOrder == DropShuffled(q.shuffleOrder, q.context[i].uid)
    requires q'.contextPos == CursorWithout(q.contextPos, i)
    ensures UpcomingIds(q') == Without(UpcomingIds(q), q.context[i].uid) <==> !HidesNext(q, i)
  {
    hide FindIndex, Without, UpcomingIds, UpcomingContext, Ids;
    TailIds(q);
    TailIds(q');
    if q.shuffleOrder.None? {
      var ids := Ids(q.context);
      DistinctAppend(ids, Ids(q.playNext));
      IdsRemoveAt(q.context, i);
      assert Ids(q'.context) == RemoveAt(ids, i);
      assert Start(q) <= |ids|;
      if i < Start(q) {
        TakenBefore(ids, Start(q), i);
      } else {
        TakenAfter(ids, Start(q), i);
      }
    }
  }

  lemma TakenBefore(ids: seq<Uid>, start: nat, i: nat)
    requires Distinct(ids) && i < start <= |ids|
    ensures Without(ids[start..], ids[i]) == ids[start..] == RemoveAt(ids, i)[start - 1..]
    ensures start < |ids| ==> RemoveAt(ids, i)[start..] == ids[start + 1..] != ids[start..]
  {
    assert ids[i] !in ids[start..];
    WithoutAbsent(ids[start..], ids[i]);
    assert |ids[start..]| == |ids| - start;
  }

  lemma TakenAfter(ids: seq<Uid>, start: nat, i: nat)
    requires Distinct(ids) && start <= i < |ids|
    ensures Without(ids[start..], ids[i]) == RemoveAt(ids, i)[start..]
  {
    WithoutAt(ids[start..], i - start);
    assert RemoveAt(ids, i)[start..] == RemoveAt(ids[start..], i - start);
  }

  lemma WithoutAt(s: seq<Uid>, i: nat)
    requires i < |s| && Distinct(s)
    ensures Without(s, s[i]) == RemoveAt(s, i)
  {
    assert s == s[..i] + s[i..];
    WithoutAppend(s[..i], s[i..], s[i]);
    WithoutAbsent(s[..i], s[i]);
    assert Distinct(s[i..]);
    WithoutHead(s[i..]);
  }

  /** A queue started by `add_context` lists its current row a second time exactly when shuffle is on. */
  lemma AutoStartRepeatsCurrent(q: State, tracks: seq<TrackId>)
    requires WellFormed(q) && q.current.None? && tracks != []
    ensures var q' := AddContext(q, tracks).queue;
            && IsCurrent(q', q.nextUid)
            && (q.nextUid in Ids(Tail(q')) <==> q.shuffleOrder.Some?)
  {
    var q' := AddContext(q, tracks).queue;
    var rows := NewRows(tracks, q.nextUid, Context);
    AddContextSafe(q, tracks);
    TailIds(q');
    assert Ids(rows)[0] == q.nextUid;
    assert forall i :: 0 <= i < |q.playNext| ==> Ids(q'.playNext)[i] != q.nextUid;
    if q.shuffleOrder.Some? {
      assert UpcomingIds(q') == q.shuffleOrder.value + Ids(rows);
    } else {
      assert Ids(q'.context)[Start(q')..] == Ids(rows)[1..];
    }
  }

  // ---------------------------------------------------- well-formed runs

  lemma FromCounts(q': State)
    requires Safe(q') && (q'.shuffleOrder.Some? ==> Distinct(q'.shuffleOrder.value))
    requires forall u :: Rows(q')[u] <= 1
    ensures WellFormed(q')
  {
    WellFormedCounts(q');
  }

  lemma ShuffleDistinctKept(q: State, uid: Uid)
    requires q.shuffleOrder.Some? ==> Distinct(q.shuffleOrder.value)
    ensures DropShuffled(q.shuffleOrder, uid).Some? ==> Distinct(DropShuffled(q.shuffleOrder, uid).value)
  {
    if q.shuffleOrder.Some? {
      WithoutKeepsDistinct(q.shuffleOrder.value, uid);
    }
  }

  lemma TakeContextWellFormed(q: State, index: nat)
    requires WellFormed(q) && index < |q.context|
    ensures WellFormed(TakeContext(q, index).queue)
  {
    ShuffleDistinctKept(q, q.context[index].uid);
    TakeContextSafe(q, index);
  }

  lemma RewoundWellFormed(q: State, rng: Rng)
    requires WellFormed(q)
    ensures WellFormed(Rewound(q, rng))
  {
    RewoundSafe(q, rng);
    if q.shuffleOrder.Some? {
      DistinctAppend(Ids(q.context), Ids(q.playNext));
      assert q.context[0..] == q.context;
      ShuffledPermutes(Ids(q.context), rng);
      DistinctPermutation(Ids(q.context), Shuffled(Ids(q.context), rng));
    }
  }

  lemma DropFirstPlayNext(q: State)
    requires WellFormed(q) && q.playNext != []
    ensures Distinct(Ids(q.context) + Ids(q.playNext[1..]))
  {
    assert Ids(q.playNext) == [q.playNext[0].uid] + Ids(q.playNext[1..]);
    DistinctAppend(Ids(q.context), Ids(q.playNext));
    DistinctAppend(Ids(q.context), Ids(q.playNext[1..]));
    DistinctAppend([q.playNext[0].uid], Ids(q.playNext[1..]));
  }

  lemma AdvanceWellFormed(q: State, reason: Reason, rng: Rng)
    requires WellFormed(q)
    ensures WellFormed(Advance(q, reason, rng).queue)
  {
    AdvanceSafe(q, reason, rng);
    if RestartsInPlace(q, reason) {
    } else if q.playNext != [] {
      DropFirstPlayNext(q);
    } else if NextContextUid(q).Some? {
      TakeContextWellFormed(q, FindIndex(q.context, NextContextUid(q).value).value);
    } else if q.repeat == All && q.context != [] {
      var w := Rewound(q, rng);
      RewoundWellFormed(q, rng);
      RewoundNames(q, rng);
      TakeContextWellFormed(w, FindIndex(w.context, NextContextUid(w).value).value);
    }
  }

  lemma FreshRows(q: State, rows: seq<Item>)
    requires WellFormed(q) && forall i :: 0 <= i < |rows| ==> rows[i].uid == q.nextUid + i
    ensures Distinct(Ids(q.context + rows) + Ids(q.playNext))
    ensures Distinct(Ids(q.context) + Ids(q.playNext + rows))
    ensures q.shuffleOrder.Some? ==> Distinct(q.shuffleOrder.value + Ids(rows))
    ensures Distinct(Ids(rows) + [])
  {
    var c, p, r := Ids(q.context), Ids(q.playNext), Ids(rows);
    IdsAppend(q.context, rows);
    IdsAppend(q.playNext, rows);
    DistinctAppend(c, p);
    DistinctAppend(c, r);
    DistinctAppend(c + r, p);
    DistinctAppend(p, r);
    DistinctAppend(c, p + r);
    assert r + [] == r;
    forall i, j | 0 <= i < |c| && 0 <= j < |r| ensures c[i] != r[j] {}
    forall i, j | 0 <= i < |p| && 0 <= j < |r| ensures p[i] != r[j] {}
    if q.shuffleOrder.Some? {
      DistinctAppend(q.shuffleOrder.value, r);
      forall u | u in q.shuffleOrder.value ensures u !in r {
        assert u in c;
      }
    }
  }

  lemma AddingWellFormed(q: State, tracks: seq<TrackId>, track: TrackId, cursor: nat)
    requires WellFormed(q)
    ensures WellFormed(ReplaceContext(q, tracks).queue)
    ensures WellFormed(ReplaceContextAt(q, tracks, cursor).queue)
    ensures WellFormed(AddContext(q, tracks).queue)
    ensures WellFormed(Reveal(q, track))
  {
    ReplaceSafe(q, tracks);
    ReplaceAtSafe(q, tracks, cursor);
    AddContextSafe(q, tracks);
    RevealSafe(q, track);
    FreshRows(q, NewRows(tracks, q.nextUid, Context));
    assert Ids([]) == [];
    var row := [Item(q.nextUid, track, Revealed, false)];
    assert Ids(row) == [q.nextUid];
    FreshRows(q, row);
  }

  lemma PlayNextTrackWellFormed(q: State, track: TrackId)
    requires WellFormed(q)
    ensures WellFormed(PlayNextTrack(q, track).queue)
  {
    var row := [Item(q.nextUid, track, PlayNext, false)];
    var q' := q.(playNext := q.playNext + row, nextUid := q.nextUid + 1);
    FreshRows(q, row);
    assert WellFormed(q');
    AdvanceWellFormed(q', Skip, SeedOne());
  }

  lemma PlayNextWellFormed(q: State, uid: Uid)
    requires WellFormed(q)
    ensures WellFormed(PlayNextUid(q, uid).queue)
  {
    hide FindIndex, Safe;
    var q' := PlayNextUid(q, uid).queue;
    PlayNextSafe(q, uid);
    ShuffleDistinctKept(q, uid);
    WellFormedCounts(q);
    if FindIndex(q.playNext, uid).Some? {
      var i := FindIndex(q.playNext, uid).value;
      IdsRemoveAt(q.playNext, i);
      IdsAppend(RemoveAt(q.playNext, i), [q.playNext[i]]);
      assert Ids([q.playNext[i]]) == [uid];
      assert Rows(q') == Rows(q);
      FromCounts(q');
    } else if FindIndex(q.context, uid).Some? {
      var i := FindIndex(q.context, uid).value;
      var row := q.context[i].(origin := PlayNext);
      IdsRemoveAt(q.context, i);
      IdsAppend(q.playNext, [row]);
      assert Ids([row]) == [uid];
      assert Rows(q') == Rows(q);
      FromCounts(q');
    }
  }

  lemma RemoveWellFormed(q: State, uid: Uid)
    requires WellFormed(q)
    ensures WellFormed(Remove(q, uid).queue)
  {
    hide FindIndex, Advance, Safe;
    var q' := Remove(q, uid).queue;
    RemoveSafe(q, uid);
    ShuffleDistinctKept(q, uid);
    WellFormedCounts(q);
    if IsCurrent(q, uid) {
      AdvanceWellFormed(q, Removed, SeedOne());
    } else if FindIndex(q.playNext, uid).Some? {
      IdsRemoveAt(q.playNext, FindIndex(q.playNext, uid).value);
      assert Rows(q) == Rows(q') + multiset{uid};
      assert forall u :: Rows(q')[u] <= Rows(q)[u];
      FromCounts(q');
    } else if FindIndex(q.context, uid).Some? {
      IdsRemoveAt(q.context, FindIndex(q.context, uid).value);
      assert Rows(q) == Rows(q') + multiset{uid};
      assert forall u :: Rows(q')[u] <= Rows(q)[u];
      FromCounts(q');
    }
  }

  lemma ShuffleWellFormed(q: State, on: bool, rng: Rng)
    requires WellFormed(q) && !SetShufflePanics(q, on)
    ensures WellFormed(SetShuffle(q, on, rng).queue)
  {
    ShuffleSafe(q, on, rng);
    if on && q.shuffleOrder.None? {
      var ids := Ids(q.context[Start(q)..]);
      DistinctAppend(Ids(q.context), Ids(q.playNext));
      IdsSlice(q.context, Start(q));
      ShuffledPermutes(ids, rng);
      DistinctPermutation(ids, Shuffled(ids, rng));
    }
  }

  lemma MarkWellFormed(q: State, track: TrackId, rng: Rng)
    requires WellFormed(q)
    ensures WellFormed(MarkUnavailable(q, track, rng).queue)
  {
    var q' := q.(context := Marked(q.context, track), playNext := Marked(q.playNext, track));
    assert Ids(q'.context) == Ids(q.context) && Ids(q'.playNext) == Ids(q.playNext);
    AdvanceWellFormed(q', Removed, rng);
  }

  /** A reordering call that would list a row twice. */
  ghost predicate DuplicatesRow(q: State, op: Op) {
    op.OpReorder? && Movement(q, op.uid, op.target).Some? && ShuffledBehindCursor(q)
  }

  lemma MovingWellFormed(q: State, uid: Uid, positionMs: nat)
    requires WellFormed(q)
    ensures WellFormed(MoveCurrentTo(q, uid).queue)
    ensures WellFormed(SkipBack(q, positionMs).queue)
  {
    MoveCurrentToSafe(q, uid);
    SkipBackSafe(q, positionMs);
    ShuffleDistinctKept(q, uid);
  }

  lemma ReorderStep(q: State, uid: Uid, t: Target)
    requires WellFormed(q)
    ensures WellFormed(ReorderTail(q, uid, t).queue) <==> !(Movement(q, uid, t).Some? && ShuffledBehindCursor(q))
  {
    hide Safe, Tail, ApplyTail, MoveItem;
    if Movement(q, uid, t).Some? {
      ReorderKeepsRowsDistinct(q, uid, t);
    }
  }

  /** Every call keeps every row listed once, except exactly the reorderings that `DuplicatesRow` describes. */
  lemma StepKeepsWellFormed(q: State, op: Op)
    requires WellFormed(q) && !Panics(q, op)
    ensures WellFormed(Step(q, op)) <==> !DuplicatesRow(q, op)
  {
    hide ReplaceContext, ReplaceContextAt, AddContext, Reveal, MoveCurrentTo, PlayNextUid, PlayNextTrack,
         ReorderTail, Remove, SetShuffle, Advance, SkipBack, MarkUnavailable, Ids, Tail;
    match op
    case OpReplace(tracks) => AddingWellFormed(q, tracks, "", 0);
    case OpReplaceAt(tracks, cursor) => AddingWellFormed(q, tracks, "", cursor);
    case OpAddContext(tracks) => AddingWellFormed(q, tracks, "", 0);
    case OpAdoptTransfer(track) => StepSafe(q, op);
    case OpReveal(track) => AddingWellFormed(q, [], track, 0);
    case OpMoveCurrentTo(uid) => MovingWellFormed(q, uid, 0);
    case OpPlayNext(uid) => PlayNextWellFormed(q, uid);
    case OpPlayNextTrack(track) => PlayNextTrackWellFormed(q, track);
    case OpReorder(uid, target) => ReorderStep(q, uid, target);
    case OpRemove(uid) => RemoveWellFormed(q, uid);
    case OpSetShuffle(on, rng) => ShuffleWellFormed(q, on, rng);
    case OpSetRepeat(mode) =>
    case OpAdvance(reason, rng) => AdvanceWellFormed(q, reason, rng);
    case OpSkipBack(positionMs) => MovingWellFormed(q, 0, positionMs);
    case OpMarkUnavailable(track, rng) => MarkWellFormed(q, track, rng);
    case OpEnsureHostDriven =>
  }

  /** A run in which no reordering is made while shuffle is on. */
  ghost predicate ReordersUnshuffled(q: State, ops: seq<Op>)
    requires Safe(q)
    decreases |ops|
  {
    ops == [] || Panics(q, ops[0]) || (
      && (ops[0].OpReorder? ==> q.shuffleOrder.None?)
      && (StepSafe(q, ops[0]); ReordersUnshuffled(Step(q, ops[0]), ops[1..])))
  }

  lemma {:induction false} RunKeepsWellFormed(q: State, ops: seq<Op>)
    requires WellFormed(q) && ReordersUnshuffled(q, ops)
    ensures Run(q, ops).Some? ==> WellFormed(Run(q, ops).value)
    decreases |ops|
  {
    hide Step, Safe;
    if ops != [] && !Panics(q, ops[0]) {
      StepSafe(q, ops[0]);
      StepKeepsWellFormed(q, ops[0]);
      RunKeepsWellFormed(Step(q, ops[0]), ops[1..]);
    }
  }
}
