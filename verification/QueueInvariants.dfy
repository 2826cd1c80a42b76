/** What every queue call keeps, and exactly when a call breaks it. */
module QueueInvariants {
  import opened Prelude
  import opened Shuffle
  import opened QueueModel

  // -------------------------------------------------------- row identities

  /** Every row the queue still holds, once per place it is listed. */
  ghost function Rows(q: State): multiset<Uid> { multiset(Ids(q.context)) + multiset(Ids(q.playNext)) }

  lemma IdsAppend(a: seq<Item>, b: seq<Item>)
    ensures Ids(a + b) == Ids(a) + Ids(b)
  {}

  lemma IdsSlice(a: seq<Item>, i: nat)
    requires i <= |a|
    ensures Ids(a[..i]) == Ids(a)[..i] && Ids(a[i..]) == Ids(a)[i..]
    ensures multiset(Ids(a)) == multiset(Ids(a[..i])) + multiset(Ids(a[i..]))
  {
    assert Ids(a) == Ids(a)[..i] + Ids(a)[i..];
  }

  lemma RemovedRow(s: seq<Uid>, i: nat)
    requires i < |s|
    ensures multiset(RemoveAt(s, i)) == multiset(s) - multiset{s[i]}
    ensures multiset(s) == multiset(RemoveAt(s, i)) + multiset{s[i]}
  {
    assert s == s[..i] + [s[i]] + s[i + 1..];
    assert multiset(s) == multiset(s[..i]) + multiset([s[i]]) + multiset(s[i + 1..]);
    assert multiset(RemoveAt(s, i)) == multiset(s[..i]) + multiset(s[i + 1..]);
  }

  lemma IdsRemoveAt(a: seq<Item>, i: nat)
    requires i < |a|
    ensures Ids(RemoveAt(a, i)) == RemoveAt(Ids(a), i)
    ensures multiset(Ids(a)) == multiset(Ids(RemoveAt(a, i))) + multiset{a[i].uid}
    ensures forall u :: u in Ids(a) && u != a[i].uid ==> u in Ids(RemoveAt(a, i))
  {
    RemovedRow(Ids(a), i);
    assert Ids(RemoveAt(a, i)) == RemoveAt(Ids(a), i);
    forall u | u in Ids(a) && u != a[i].uid ensures u in Ids(RemoveAt(a, i)) {
      assert u in multiset(Ids(a));
      assert u in multiset(Ids(RemoveAt(a, i)));
    }
  }

  lemma WellFormedCounts(q: State)
    ensures Distinct(Ids(q.context) + Ids(q.playNext)) <==> forall u :: Rows(q)[u] <= 1
  {
    var all := Ids(q.context) + Ids(q.playNext);
    assert multiset(all) == Rows(q);
    DistinctCounts(all);
  }

  lemma {:induction false} ResolveIds(context: seq<Item>, ids: seq<Uid>)
    requires forall u :: u in ids ==> u in Ids(context)
    ensures Ids(Resolve(context, ids)) == ids
  {
    if ids != [] {
      assert ids[0] in ids;
      assert forall u :: u in ids[1..] ==> u in ids;
      ResolveIds(context, ids[1..]);
      var i := FindIndex(context, ids[0]).value;
      IdsAppend([context[i]], Resolve(context, ids[1..]));
      assert Ids([context[i]]) == [ids[0]];
    }
  }

  /** The uids still to come, in order. */
  function UpcomingIds(q: State): seq<Uid> { Ids(UpcomingContext(q)) }

  lemma TailIds(q: State)
    requires Safe(q)
    ensures Ids(Tail(q)) == Ids(q.playNext) + UpcomingIds(q)
    ensures q.shuffleOrder.Some? ==> UpcomingIds(q) == q.shuffleOrder.value
    ensures q.shuffleOrder.None? && Start(q) <= |q.context| ==> UpcomingIds(q) == Ids(q.context)[Start(q)..]
    ensures q.shuffleOrder.None? && Start(q) > |q.context| ==> UpcomingIds(q) == []
  {
    IdsAppend(q.playNext, UpcomingContext(q));
    if q.shuffleOrder.Some? {
      ResolveIds(q.context, q.shuffleOrder.value);
    } else if Start(q) <= |q.context| {
      IdsSlice(q.context, Start(q));
    }
  }

  // ------------------------------------------------- the reachable-state invariant

  lemma TakeContextSafe(q: State, index: nat)
    requires Safe(q) && index < |q.context|
    ensures Safe(TakeContext(q, index).queue)
  {}

  lemma TakePlayNextSafe(q: State)
    requires Safe(q) && q.playNext != []
    ensures Safe(TakePlayNext(q).queue)
  {}

  lemma RewoundSafe(q: State, rng: Rng)
    requires Safe(q)
    ensures Safe(Rewound(q, rng))
  {
    if q.shuffleOrder.Some? {
      assert q.context[0..] == q.context;
      ShuffledPermutes(Ids(q.context), rng);
      SameMembers(Ids(q.context), Shuffled(Ids(q.context), rng));
    }
  }

  lemma AdvanceSafe(q: State, reason: Reason, rng: Rng)
    requires Safe(q)
    ensures Safe(Advance(q, reason, rng).queue)
  {
    if RestartsInPlace(q, reason) {
    } else if q.playNext != [] {
      TakePlayNextSafe(q);
    } else if NextContextUid(q).Some? {
      TakeContextSafe(q, FindIndex(q.context, NextContextUid(q).value).value);
    } else if q.repeat == All && q.context != [] {
      var w := Rewound(q, rng);
      RewoundSafe(q, rng);
      RewoundNames(q, rng);
      TakeContextSafe(w, FindIndex(w.context, NextContextUid(w).value).value);
    }
  }

  lemma ReplaceSafe(q: State, tracks: seq<TrackId>)
    requires Safe(q)
    ensures Safe(ReplaceContext(q, tracks).queue)
  {}

  lemma ReplaceAtSafe(q: State, tracks: seq<TrackId>, cursor: nat)
    requires Safe(q)
    ensures Safe(ReplaceContextAt(q, tracks, cursor).queue)
  {
    ReplaceSafe(q, tracks);
  }

  lemma ContextGrows(q: State, rows: seq<Item>)
    requires ShuffleKnown(q.shuffleOrder, q.context)
    ensures ShuffleKnown(ExtendShuffled(q.shuffleOrder, Ids(rows)), q.context + rows)
  {
    IdsAppend(q.context, rows);
  }

  lemma AddContextSafe(q: State, tracks: seq<TrackId>)
    requires Safe(q)
    ensures Safe(AddContext(q, tracks).queue)
  {
    ContextGrows(q, NewRows(tracks, q.nextUid, Context));
  }

  lemma RevealSafe(q: State, track: TrackId)
    requires Safe(q)
    ensures Safe(Reveal(q, track))
  {
    var row := [Item(q.nextUid, track, Revealed, false)];
    assert Ids(row) == [q.nextUid];
    ContextGrows(q, row);
  }

  lemma SkipBackSafe(q: State, positionMs: nat)
    requires Safe(q)
    ensures Safe(SkipBack(q, positionMs).queue)
  {}

  lemma MoveCurrentToSafe(q: State, uid: Uid)
    requires Safe(q)
    ensures Safe(MoveCurrentTo(q, uid).queue)
  {}

  lemma ContextShrinks(q: State, i: nat)
    requires ShuffleKnown(q.shuffleOrder, q.context) && i < |q.context|
    ensures ShuffleKnown(DropShuffled(q.shuffleOrder, q.context[i].uid), RemoveAt(q.context, i))
  {
    IdsRemoveAt(q.context, i);
  }

  lemma PlayNextSafe(q: State, uid: Uid)
    requires Safe(q)
    ensures Safe(PlayNextUid(q, uid).queue)
  {
    hide FindIndex, Without;
    if FindIndex(q.playNext, uid).None? && FindIndex(q.context, uid).Some? {
      ContextShrinks(q, FindIndex(q.context, uid).value);
    }
  }

  lemma PlayNextTrackSafe(q: State, track: TrackId)
    requires Safe(q)
    ensures Safe(PlayNextTrack(q, track).queue)
  {
    AdvanceSafe(q.(playNext := q.playNext + [Item(q.nextUid, track, PlayNext, false)], nextUid := q.nextUid + 1),
                Skip, SeedOne());
  }

  lemma RemoveSafe(q: State, uid: Uid)
    requires Safe(q)
    ensures Safe(Remove(q, uid).queue)
  {
    hide Advance, FindIndex, Without;
    if IsCurrent(q, uid) {
      AdvanceSafe(q, Removed, SeedOne());
    } else if FindIndex(q.playNext, uid).None? && FindIndex(q.context, uid).Some? {
      ContextShrinks(q, FindIndex(q.context, uid).value);
    }
  }

  lemma ShuffleSafe(q: State, on: bool, rng: Rng)
    requires Safe(q) && !SetShufflePanics(q, on)
    ensures Safe(SetShuffle(q, on, rng).queue)
  {
    if on && q.shuffleOrder.None? {
      var ids := Ids(q.context[Start(q)..]);
      ShuffledPermutes(ids, rng);
      SameMembers(ids, Shuffled(ids, rng));
      IdsSlice(q.context, Start(q));
    }
  }

  lemma TailUids(q: State)
    requires Safe(q)
    ensures forall i :: 0 <= i < |Tail(q)| ==> Tail(q)[i].uid < q.nextUid
  {
    forall i | 0 <= i < |Tail(q)| ensures Tail(q)[i].uid < q.nextUid {
      if i >= |q.playNext| {
        assert Tail(q)[i] == UpcomingContext(q)[i - |q.playNext|];
        assert Tail(q)[i] in q.context;
      }
    }
  }

  lemma MoveItemMembers<T>(s: seq<T>, from: nat, to: nat)
    requires from < |s| && to < |s|
    ensures multiset(MoveItem(s, from, to)) == multiset(s)
  {
    var rest := RemoveAt(s, from);
    assert rest == rest[..to] + rest[to..];
    assert multiset(rest) == multiset(rest[..to]) + multiset(rest[to..]);
    assert multiset(rest) == multiset(s[..from]) + multiset(s[from + 1..]);
    assert s == s[..from] + [s[from]] + s[from + 1..];
    assert multiset(s) == multiset(s[..from]) + multiset{s[from]} + multiset(s[from + 1..]);
    assert multiset(MoveItem(s, from, to)) == multiset(rest[..to]) + multiset{s[from]} + multiset(rest[to..]);
    assert multiset(MoveItem(s, from, to)) == multiset(rest) + multiset{s[from]};
    assert multiset(s) == multiset(rest) + multiset{s[from]};
  }

  lemma ApplyTailSafe(q: State, tail: seq<Item>)
    requires Safe(q) && Issued(tail, q.nextUid)
    ensures Safe(ApplyTail(q, tail))
  {}

  lemma ReorderSafe(q: State, uid: Uid, t: Target)
    requires Safe(q)
    ensures Safe(ReorderTail(q, uid, t).queue)
  {
    if Movement(q, uid, t).Some? {
      var (from, to) := Movement(q, uid, t).value;
      var moved := MoveItem(Tail(q), from, to);
      MoveItemMembers(Tail(q), from, to);
      TailUids(q);
      forall i | 0 <= i < |moved| ensures moved[i].uid < q.nextUid {
        assert moved[i] in multiset(Tail(q));
      }
      ApplyTailSafe(q, moved);
    }
  }

  lemma MarkedRowsSafe(q: State, track: TrackId)
    requires Safe(q)
    ensures Safe(q.(context := Marked(q.context, track), playNext := Marked(q.playNext, track)))
  {
    assert Ids(Marked(q.context, track)) == Ids(q.context);
  }

  lemma MarkSafe(q: State, track: TrackId, rng: Rng)
    requires Safe(q)
    ensures Safe(MarkUnavailable(q, track, rng).queue)
  {
    hide Advance;
    MarkedRowsSafe(q, track);
    AdvanceSafe(q.(context := Marked(q.context, track), playNext := Marked(q.playNext, track)), Removed, rng);
  }

  // ------------------------------------------------------------------ runs

  /** One call on the queue. */
  datatype Op =
    | OpReplace(tracks: seq<TrackId>)
    | OpReplaceAt(tracks: seq<TrackId>, cursor: nat)
    | OpAddContext(tracks: seq<TrackId>)
    | OpAdoptTransfer(track: TrackId)
    | OpReveal(track: TrackId)
    | OpMoveCurrentTo(uid: Uid)
    | OpPlayNext(uid: Uid)
    | OpPlayNextTrack(track: TrackId)
    | OpReorder(uid: Uid, target: Target)
    | OpRemove(uid: Uid)
    | OpSetShuffle(on: bool, rng: Rng)
    | OpSetRepeat(mode: Repeat)
    | OpAdvance(reason: Reason, rng: Rng)
    | OpSkipBack(positionMs: nat)
    | OpMarkUnavailable(track: TrackId, rng: Rng)
    | OpEnsureHostDriven

  ghost predicate Panics(q: State, op: Op) { op.OpSetShuffle? && SetShufflePanics(q, op.on) }

  ghost function Step(q: State, op: Op): State
    requires Safe(q) && !Panics(q, op)
  {
    match op
    case OpReplace(tracks) => ReplaceContext(q, tracks).queue
    case OpReplaceAt(tracks, cursor) => ReplaceContextAt(q, tracks, cursor).queue
    case OpAddContext(tracks) => AddContext(q, tracks).queue
    case OpAdoptTransfer(track) => AdoptTransferContext(q, track).queue
    case OpReveal(track) => Reveal(q, track)
    case OpMoveCurrentTo(uid) => MoveCurrentTo(q, uid).queue
    case OpPlayNext(uid) => PlayNextUid(q, uid).queue
    case OpPlayNextTrack(track) => PlayNextTrack(q, track).queue
    case OpReorder(uid, target) => ReorderTail(q, uid, target).queue
    case OpRemove(uid) => Remove(q, uid).queue
    case OpSetShuffle(on, rng) => SetShuffle(q, on, rng).queue
    case OpSetRepeat(mode) => SetRepeat(q, mode).queue
    case OpAdvance(reason, rng) => Advance(q, reason, rng).queue
    case OpSkipBack(positionMs) => SkipBack(q, positionMs).queue
    case OpMarkUnavailable(track, rng) => MarkUnavailable(q, track, rng).queue
    case OpEnsureHostDriven => q.(mode := HostDriven)
  }

  lemma StepSafe(q: State, op: Op)
    requires Safe(q) && !Panics(q, op)
    ensures Safe(Step(q, op))
  {
    hide ReplaceContext, ReplaceContextAt, AddContext, Reveal, MoveCurrentTo, PlayNextUid, PlayNextTrack,
         ReorderTail, Remove, SetShuffle, Advance, SkipBack, MarkUnavailable, Ids;
    match op
    case OpReplace(tracks) => ReplaceSafe(q, tracks);
    case OpReplaceAt(tracks, cursor) => ReplaceAtSafe(q, tracks, cursor);
    case OpAddContext(tracks) => AddContextSafe(q, tracks);
    case OpAdoptTransfer(track) =>
    case OpReveal(track) => RevealSafe(q, track);
    case OpMoveCurrentTo(uid) => MoveCurrentToSafe(q, uid);
    case OpPlayNext(uid) => PlayNextSafe(q, uid);
    case OpPlayNextTrack(track) => PlayNextTrackSafe(q, track);
    case OpReorder(uid, target) => ReorderSafe(q, uid, target);
    case OpRemove(uid) => RemoveSafe(q, uid);
    case OpSetShuffle(on, rng) => ShuffleSafe(q, on, rng);
    case OpSetRepeat(mode) =>
    case OpAdvance(reason, rng) => AdvanceSafe(q, reason, rng);
    case OpSkipBack(positionMs) => SkipBackSafe(q, positionMs);
    case OpMarkUnavailable(track, rng) => MarkSafe(q, track, rng);
    case OpEnsureHostDriven =>
  }

  /** The queue after `ops`, unless one of them panics on the way. */
  ghost function Run(q: State, ops: seq<Op>): Option<State>
    requires Safe(q)
    decreases |ops|
  {
    if ops == [] then Some(q)
    else if Panics(q, ops[0]) then None
    else
      StepSafe(q, ops[0]);
      Run(Step(q, ops[0]), ops[1..])
  }

  /** Every run from a new queue keeps the invariant, the history bound and contiguous play-next rows with it. */
  lemma {:induction false} RunSafe(q: State, ops: seq<Op>)
    requires Safe(q)
    ensures Run(q, ops).Some? ==> Safe(Run(q, ops).value)
    decreases |ops|
  {
    hide Step, Safe;
    if ops != [] && !Panics(q, ops[0]) {
      StepSafe(q, ops[0]);
      RunSafe(Step(q, ops[0]), ops[1..]);
    }
  }

  lemma NewQueueIsWellFormed()
    ensures WellFormed(NEW)
  {}

  /** The one call that can panic does so exactly on a cursor stranded at 0 in an empty context. */
  lemma PanicsExactlyWhenStranded(q: State, op: Op)
    requires Safe(q)
    ensures Panics(q, op) <==> op.OpSetShuffle? && op.on && q.shuffleOrder.None? && StrandedCursor(q)
  {}

  /** And that state is reachable: queue one track as play-next and its context is gone under the cursor. */
  lemma StrandedCursorIsReachable(track: TrackId, rng: Rng)
    ensures Run(NEW, [OpReplace([track]), OpPlayNext(0), OpSetShuffle(true, rng)]).None?
  {
    var ops := [OpReplace([track]), OpPlayNext(0), OpSetShuffle(true, rng)];
    var a := Step(NEW, ops[0]);
    StepSafe(NEW, ops[0]);
    assert a.context == [Item(0, track, Context, false)];
    assert Ids(a.context) == [0];
    assert FindIndex(a.context, 0) == Some(0);
    var b := Step(a, ops[1]);
    StepSafe(a, ops[1]);
    assert StrandedCursor(b);
    assert ops[1..] == [ops[1], ops[2]] && ops[1..][1..] == [ops[2]];
    assert Run(b, [ops[2]]).None?;
  }
}
