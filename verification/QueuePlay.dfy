/** What a run of `advance` calls plays, and what `skip_back` undoes. */
module QueuePlay {
  import opened Prelude
  import opened Shuffle
  import opened QueueModel
  import opened QueueInvariants
  import opened QueueRows

  // --------------------------------------------------------- advance runs

  /** The reasons under which repeat-one does not hold the cursor in place. */
  predicate Moves(q: State, reason: Reason) { q.repeat == One ==> reason in {Skip, Removed} }

  /** How a call that takes `item` reports it. */
  function Announced(item: Item): Playback {
    if item.unavailable then Skipped(item.uid) else MoveTo(item.uid)
  }

  function AnnouncedAll(items: seq<Item>): (r: seq<Playback>)
    ensures |r| == |items| && forall i :: 0 <= i < |r| ==> r[i] == Announced(items[i])
  {
    seq(|items|, i requires 0 <= i < |items| => Announced(items[i]))
  }

  /** The queue and the reports after one `advance` per generator in `rngs`. */
  ghost function PlayRun(q: State, reason: Reason, rngs: seq<Rng>): (r: (State, seq<Playback>))
    requires Safe(q)
    ensures |r.1| == |rngs|
    decreases |rngs|
  {
    if rngs == [] then (q, [])
    else
      var o := Advance(q, reason, rngs[0]);
      AdvanceSafe(q, reason, rngs[0]);
      var rest := PlayRun(o.queue, reason, rngs[1..]);
      (rest.0, [o.change.playback] + rest.1)
  }

  /** What one call does when it takes the first row of the displayed tail and nothing else. */
  ghost predicate TakesHead(q: State, o: Outcome) {
    && Tail(q) != []
    && o.change.playback == Announced(Tail(q)[0])
    && Tail(o.queue) == Tail(q)[1..]
    && o.queue.context == q.context && o.queue.repeat == q.repeat
    && o.queue.shuffleOrder.Some? == q.shuffleOrder.Some?
    && o.queue.current == (if Tail(q)[0].unavailable then q.current else Some(Tail(q)[0]))
  }

  lemma TakesPlayNextHead(q: State)
    requires q.playNext != []
    ensures TakesHead(q, TakePlayNext(q))
  {
    var o := TakePlayNext(q);
    assert UpcomingContext(o.queue) == UpcomingContext(q);
  }

  lemma TakesShuffledHead(q: State)
    requires WellFormed(q) && q.playNext == [] && q.shuffleOrder.Some? && q.shuffleOrder.value != []
    ensures var ids := q.shuffleOrder.value;
            ids[0] in Ids(q.context) && TakesHead(q, TakeContext(q, FindIndex(q.context, ids[0]).value))
  {
    hide WellFormed, Safe, FindIndex, Resolve, PushHistory, Without, Distinct, Ids;
    var ids := q.shuffleOrder.value;
    ShuffledHeadKnown(q);
    ResolvedHead(q.context, ids);
    WithoutHead(ids);
  }

  lemma ResolvedHead(context: seq<Item>, ids: seq<Uid>)
    requires ids != [] && ids[0] in Ids(context)
    ensures Resolve(context, ids) == [context[FindIndex(context, ids[0]).value]] + Resolve(context, ids[1..])
  {}

  lemma ShuffledHeadKnown(q: State)
    requires WellFormed(q) && q.shuffleOrder.Some? && q.shuffleOrder.value != []
    ensures q.shuffleOrder.value[0] in Ids(q.context) && Distinct(q.shuffleOrder.value)
  {
    assert q.shuffleOrder.value[0] in q.shuffleOrder.value;
  }

  lemma TakesNaturalHead(q: State)
    requires WellFormed(q) && q.playNext == [] && q.shuffleOrder.None? && Start(q) < |q.context|
    ensures TakesHead(q, TakeContext(q, Start(q)))
  {
    assert Tail(q) == q.context[Start(q)..];
  }

  /** One `advance` takes the first row of the displayed tail. */
  lemma AdvanceTakesHead(q: State, reason: Reason, rng: Rng)
    requires WellFormed(q) && Tail(q) != [] && Moves(q, reason)
    ensures TakesHead(q, Advance(q, reason, rng))
  {
    NothingUpcoming(q);
    if q.playNext != [] {
      TakesPlayNextHead(q);
    } else if q.shuffleOrder.Some? {
      TakesShuffledHead(q);
    } else {
      TakesNaturalHead(q);
      DistinctAppend(Ids(q.context), Ids(q.playNext));
      FoundFirst(q.context, Start(q));
    }
  }

  lemma FoundFirst(items: seq<Item>, i: nat)
    requires Distinct(Ids(items)) && i < |items|
    ensures FindIndex(items, items[i].uid) == Some(i)
  {
    hide FindIndex;
    forall j | 0 <= j < i ensures Ids(items)[j] != items[i].uid {
      assert Ids(items)[j] != Ids(items)[i];
    }
    FoundAt(items, items[i].uid, i);
  }

  /** Up to as many calls as there are rows left, `advance` plays the displayed order row by row. */
  lemma {:induction false} PlaysDisplayedOrder(q: State, reason: Reason, rngs: seq<Rng>)
    requires WellFormed(q) && Moves(q, reason) && |rngs| <= |Tail(q)|
    ensures var (q', reports) := PlayRun(q, reason, rngs);
            && reports == AnnouncedAll(Tail(q)[..|rngs|])
            && WellFormed(q') && Tail(q') == Tail(q)[|rngs|..]
            && q'.context == q.context && q'.repeat == q.repeat
            && q'.shuffleOrder.Some? == q.shuffleOrder.Some?
    decreases |rngs|
  {
    hide Advance, Tail, Safe, Announced;
    if rngs != [] {
      var o := Advance(q, reason, rngs[0]);
      AdvanceTakesHead(q, reason, rngs[0]);
      AdvanceWellFormed(q, reason, rngs[0]);
      PlaysDisplayedOrder(o.queue, reason, rngs[1..]);
      var n := |rngs|;
      assert Tail(q)[..n] == [Tail(q)[0]] + Tail(q)[1..][..n - 1];
      assert Tail(q)[1..][n - 1..] == Tail(q)[n..];
    }
  }

  /** With nothing left and no wrap, the next call ends the queue. */
  lemma EndsAfterTail(q: State, reason: Reason, rng: Rng)
    requires WellFormed(q) && Moves(q, reason) && Tail(q) == [] && !(q.repeat == All && q.context != [])
    ensures var o := Advance(q, reason, rng);
            && o.change.playback == (if q.current.Some? then EndOfQueue else Empty)
            && o.queue == q.(current := None)
  {
    NothingUpcoming(q);
  }

  lemma NothingUpcoming(q: State)
    requires WellFormed(q)
    ensures Tail(q) == [] <==> q.playNext == [] && NextContextUid(q).None?
  {
    TailIds(q);
    if q.shuffleOrder.Some? && q.shuffleOrder.value != [] {
      assert q.shuffleOrder.value[0] in q.shuffleOrder.value;
    }
  }

  /**
   * Playing to the end under repeat-off: the reports name exactly the displayed tail, in order, and then the queue
   * ends. (Repeat-one behaves the same under a skip.)
   */
  lemma PlaysToTheEnd(q: State, reason: Reason, rngs: seq<Rng>, last: Rng)
    requires WellFormed(q) && Moves(q, reason) && q.repeat != All && |rngs| == |Tail(q)|
    ensures var (q', reports) := PlayRun(q, reason, rngs);
            && reports == AnnouncedAll(Tail(q))
            && Safe(q')
            && Advance(q', reason, last).change.playback in {EndOfQueue, Empty}
            && Advance(q', reason, last).queue.current.None?
  {
    hide Advance, PlayRun, Tail;
    PlaysDisplayedOrder(q, reason, rngs);
    assert Tail(q)[..|rngs|] == Tail(q);
    EndsAfterTail(PlayRun(q, reason, rngs).0, reason, last);
  }

  // ------------------------------------------------------ repeat-all cycles

  /** A new cycle lists every context row once: in context order, or shuffled for whatever numbers the generator gives. */
  lemma RewoundTail(q: State, rng: Rng)
    requires WellFormed(q) && q.playNext == []
    ensures var w := Rewound(q, rng);
            && WellFormed(w) && |Tail(w)| == |q.context|
            && multiset(Ids(Tail(w))) == multiset(Ids(q.context))
            && (q.shuffleOrder.None? ==> Tail(w) == q.context)
  {
    var w := Rewound(q, rng);
    RewoundWellFormed(q, rng);
    TailIds(w);
    if q.shuffleOrder.Some? {
      assert q.context[0..] == q.context;
      ShuffledPermutes(Ids(q.context), rng);
      assert Ids(Tail(w)) == Shuffled(Ids(q.context), rng);
    } else {
      assert Tail(w) == q.context;
    }
  }

  lemma WrapIsRewind(q: State, reason: Reason, rng: Rng)
    requires WellFormed(q) && Moves(q, reason) && Tail(q) == [] && q.repeat == All && q.context != []
    ensures Safe(Rewound(q, rng)) && Moves(Rewound(q, rng), reason)
    ensures Advance(q, reason, rng) == Advance(Rewound(q, rng), reason, rng)
  {
    NothingUpcoming(q);
    RewoundSafe(q, rng);
    RewoundNames(q, rng);
  }

  /** No call of the run ended the queue. */
  predicate KeepsPlaying(reports: seq<Playback>) {
    forall i :: 0 <= i < |reports| ==> reports[i].MoveTo? || reports[i].Skipped?
  }

  /** Which rows a list of reports names. */
  function NamedIds(reports: seq<Playback>): (r: seq<Uid>)
    requires KeepsPlaying(reports)
    ensures |r| == |reports|
  {
    seq(|reports|, i requires 0 <= i < |reports| => reports[i].uid)
  }

  lemma NamedIdsAnnounced(items: seq<Item>)
    ensures KeepsPlaying(AnnouncedAll(items)) && NamedIds(AnnouncedAll(items)) == Ids(items)
  {}

  lemma WholeTail(tail: seq<Item>, n: nat)
    requires n == |tail|
    ensures tail[..n] == tail && tail[n..] == []
  {}

  /** The queue at the start of the new cycle, from which the run goes on as if it had started there. */
  lemma CycleStart(q: State, reason: Reason, rngs: seq<Rng>)
    requires WellFormed(q) && Moves(q, reason) && Tail(q) == [] && q.repeat == All && q.context != [] && rngs != []
    ensures var w := Rewound(q, rngs[0]);
            && WellFormed(w) && Moves(w, reason) && |Tail(w)| == |q.context|
            && multiset(Ids(Tail(w))) == multiset(Ids(q.context))
            && (q.shuffleOrder.None? ==> Tail(w) == q.context)
            && w.context == q.context && w.repeat == q.repeat && w.shuffleOrder.Some? == q.shuffleOrder.Some?
            && PlayRun(q, reason, rngs) == PlayRun(w, reason, rngs)
  {
    hide WellFormed, Tail, PlayRun, Ids, Moves;
    PlayNextDone(q);
    RewoundTail(q, rngs[0]);
    WrappedRun(q, reason, rngs);
  }

  lemma PlayNextDone(q: State)
    requires Tail(q) == []
    ensures q.playNext == []
  {}

  /** Under repeat-all with nothing left, the next |context| calls name every context row exactly once. */
  lemma CyclePlaysEveryRow(q: State, reason: Reason, rngs: seq<Rng>)
    requires WellFormed(q) && Moves(q, reason) && Tail(q) == [] && q.repeat == All
    requires q.context != [] && |rngs| == |q.context|
    ensures var (q', reports) := PlayRun(q, reason, rngs);
            && WellFormed(q') && Tail(q') == [] && q'.repeat == All && q'.context == q.context
            && q'.shuffleOrder.Some? == q.shuffleOrder.Some?
            && KeepsPlaying(reports) && multiset(NamedIds(reports)) == multiset(Ids(q.context))
            && (q.shuffleOrder.None? ==> reports == AnnouncedAll(q.context))
  {
    hide Advance, Tail, PlayRun, Ids, Safe, WellFormed, Rewound, Shuffled, NamedIds, AnnouncedAll, KeepsPlaying, Moves;
    var w := Rewound(q, rngs[0]);
    CycleStart(q, reason, rngs);
    PlaysDisplayedOrder(w, reason, rngs);
    WholeTail(Tail(w), |rngs|);
    NamedIdsAnnounced(Tail(w));
  }

  lemma WrappedRun(q: State, reason: Reason, rngs: seq<Rng>)
    requires WellFormed(q) && Moves(q, reason) && Tail(q) == [] && q.repeat == All && q.context != [] && rngs != []
    ensures Safe(Rewound(q, rngs[0])) && Moves(Rewound(q, rngs[0]), reason)
    ensures PlayRun(q, reason, rngs) == PlayRun(Rewound(q, rngs[0]), reason, rngs)
  {
    WrapIsRewind(q, reason, rngs[0]);
    hide Advance, Rewound;
  }

  lemma {:induction false} PlayRunSplits(q: State, reason: Reason, a: seq<Rng>, b: seq<Rng>)
    requires Safe(q)
    ensures Safe(PlayRun(q, reason, a).0)
    ensures PlayRun(q, reason, a + b).0 == PlayRun(PlayRun(q, reason, a).0, reason, b).0
    ensures PlayRun(q, reason, a + b).1 == PlayRun(q, reason, a).1 + PlayRun(PlayRun(q, reason, a).0, reason, b).1
    decreases |a|
  {
    hide Advance, Safe;
    if a == [] {
      assert a + b == b;
    } else {
      AdvanceSafe(q, reason, a[0]);
      assert (a + b)[0] == a[0] && (a + b)[1..] == a[1..] + b;
      PlayRunSplits(Advance(q, reason, a[0]).queue, reason, a[1..], b);
    }
  }

  /** The reports of one cycle: every row once, in natural order unless shuffled. */
  ghost predicate IsCycle(context: seq<Item>, shuffled: bool, reports: seq<Playback>) {
    && KeepsPlaying(reports) && multiset(NamedIds(reports)) == multiset(Ids(context))
    && (!shuffled ==> reports == AnnouncedAll(context))
  }

  /** Any number of cycles: block after block of |context| calls is a cycle, each with its own shuffle. */
  lemma {:induction false} EveryCyclePlaysEveryRow(q: State, reason: Reason, cycles: seq<seq<Rng>>)
    requires WellFormed(q) && Moves(q, reason) && Tail(q) == [] && q.repeat == All && q.context != []
    requires forall b :: 0 <= b < |cycles| ==> |cycles[b]| == |q.context|
    ensures |CycleReports(q, reason, cycles)| == |cycles|
    ensures forall b :: 0 <= b < |cycles| ==>
              IsCycle(q.context, q.shuffleOrder.Some?, CycleReports(q, reason, cycles)[b])
    decreases |cycles|
  {
    hide Advance, PlayRun, Tail, Ids, NamedIds, AnnouncedAll;
    if cycles != [] {
      CyclePlaysEveryRow(q, reason, cycles[0]);
      EveryCyclePlaysEveryRow(PlayRun(q, reason, cycles[0]).0, reason, cycles[1..]);
    }
  }

  /**
   * From any well-formed queue repeating all: first the displayed tail, in order, then cycle after cycle, for as many
   * calls as wanted.
   */
  lemma TailThenCycles(q: State, reason: Reason, rngs: seq<Rng>, cycles: seq<seq<Rng>>)
    requires WellFormed(q) && q.repeat == All && q.context != [] && |rngs| == |Tail(q)|
    requires forall b :: 0 <= b < |cycles| ==> |cycles[b]| == |q.context|
    ensures var (q', reports) := PlayRun(q, reason, rngs);
            && reports == AnnouncedAll(Tail(q))
            && Safe(q') && |CycleReports(q', reason, cycles)| == |cycles|
            && forall b :: 0 <= b < |cycles| ==>
                 IsCycle(q.context, q.shuffleOrder.Some?, CycleReports(q', reason, cycles)[b])
  {
    hide Advance, PlayRun, IsCycle;
    PlaysDisplayedOrder(q, reason, rngs);
    assert Tail(q)[..|rngs|] == Tail(q) && Tail(q)[|rngs|..] == [];
    EveryCyclePlaysEveryRow(PlayRun(q, reason, rngs).0, reason, cycles);
  }

  /** The reports of consecutive blocks of calls. */
  ghost function CycleReports(q: State, reason: Reason, cycles: seq<seq<Rng>>): seq<seq<Playback>>
    requires Safe(q)
    decreases |cycles|
  {
    if cycles == [] then []
    else
      PlayRunSplits(q, reason, cycles[0], []);
      [PlayRun(q, reason, cycles[0]).1] + CycleReports(PlayRun(q, reason, cycles[0]).0, reason, cycles[1..])
  }

  /** `advance` never lands on a row still marked unavailable, and makes current exactly the row it names. */
  lemma MoveToLandsOnAvailableRow(q: State, reason: Reason, rng: Rng)
    requires Safe(q) && Advance(q, reason, rng).change.playback.MoveTo?
    ensures var o := Advance(q, reason, rng);
            && IsCurrent(o.queue, o.change.playback.uid) && !o.queue.current.value.unavailable
            && o.queue.history != [] && o.queue.history[|o.queue.history| - 1] == o.change.playback.uid
  {
    hide Shuffled, FindIndex, Ids, PushHistory;
    if NextContextUid(q).None? && q.playNext == [] && q.context != [] {
      RewoundNames(q, rng);
    }
  }

  // ---------------------------------------------- previews of what is next

  lemma PrefetchIsHead(q: State)
    requires WellFormed(q)
    ensures Tail(q) != [] ==> PrefetchTarget(q) == Some(Tail(q)[0].track) && Tail(q)[0] in q.playNext + q.context
    ensures Tail(q) == [] ==>
              PrefetchTarget(q) == if q.repeat == All && q.context != [] then Some(q.context[0].track) else None
  {
    NothingUpcoming(q);
    if q.playNext != [] {
    } else if q.shuffleOrder.Some? && q.shuffleOrder.value != [] {
      TakesShuffledHead(q);
    } else if q.shuffleOrder.None? && Start(q) < |q.context| {
      DistinctAppend(Ids(q.context), Ids(q.playNext));
      FoundFirst(q.context, Start(q));
    }
  }

  /** The prefetch target is what the next call names, except for a shuffle still to be drawn. */
  lemma PrefetchAgreesWithAdvance(q: State, reason: Reason, rng: Rng)
    requires WellFormed(q) && Moves(q, reason)
    ensures PrefetchTarget(q).None? <==> Advance(q, reason, rng).change.playback in {EndOfQueue, Empty}
    ensures PrefetchTarget(q).Some? && (Tail(q) != [] || q.shuffleOrder.None?) ==>
              exists item :: item in q.playNext + q.context && item.track == PrefetchTarget(q).value
                             && Advance(q, reason, rng).change.playback == Announced(item)
  {
    NothingUpcoming(q);
    PrefetchIsHead(q);
    hide Advance, PrefetchTarget, NextContextUid, Rewound;
    if Tail(q) != [] {
      AdvanceTakesHead(q, reason, rng);
    } else if q.repeat == All && q.context != [] {
      WrapIsRewind(q, reason, rng);
      RewoundTail(q, rng);
      AdvanceTakesHead(Rewound(q, rng), reason, rng);
      if q.shuffleOrder.None? {
        var item := q.context[0];
        assert item in q.playNext + q.context;
      }
    } else {
      EndsAfterTail(q, reason, rng);
    }
  }

  lemma {:induction false} ItemsExceptAbsent(items: seq<Item>, uid: Uid)
    requires uid !in Ids(items)
    ensures ItemsExcept(items, uid) == items
  {
    if items != [] {
      assert Ids(items) == [items[0].uid] + Ids(items[1..]);
      ItemsExceptAbsent(items[1..], uid);
    }
  }

  lemma {:induction false} ItemsExceptAt(items: seq<Item>, i: nat)
    requires Distinct(Ids(items)) && i < |items|
    ensures ItemsExcept(items, items[i].uid) == RemoveAt(items, i)
  {
    var (ids, rest) := (Ids(items), items[1..]);
    assert Ids(rest) == ids[1..];
    if i == 0 {
      assert forall j :: 0 < j < |ids| ==> ids[0] != ids[j];
      ItemsExceptAbsent(rest, items[0].uid);
    } else {
      assert ids[0] != ids[i];
      hide Ids;
      ItemsExceptAt(rest, i - 1);
      assert RemoveAt(items, i) == [items[0]] + RemoveAt(rest, i - 1);
    }
  }

  /**
   * With shuffle off, the rows previewed after the current one are what the following calls name, one by one, exactly
   * when the current row is not an earlier row of the context.
   */
  lemma WrapPreviewMatchesNextCycle(q: State, reason: Reason, rng: Rng, rngs: seq<Rng>)
    requires WellFormed(q) && q.shuffleOrder.None? && WrapPreview(q, rng).Some? && |rngs| == |q.context|
    ensures var uid := q.current.value.uid;
            var rest := ItemsExcept(q.context, uid);
            && WrapPreview(q, rng).value == [q.current.value.track] + Tracks(rest)
            && |rest| <= |rngs|
            && (PlayRun(q, reason, rngs).1[..|rest|] == AnnouncedAll(rest) <==> uid !in Ids(q.context[..|q.context| - 1]))
  {
    hide WellFormed, Advance, PlayRun, WrapPreview, ItemsExcept, Tail, AnnouncedAll, Ids, Moves;
    PreviewShape(q, rng);
    CycleReportsNatural(q, reason, rngs);
    ContextDistinct(q);
    AnnouncedRest(q.context, q.current.value.uid);
  }

  lemma AnnouncedRest(items: seq<Item>, uid: Uid)
    requires Distinct(Ids(items)) && items != []
    ensures var rest := ItemsExcept(items, uid);
            && |rest| <= |items|
            && (AnnouncedAll(items)[..|rest|] == AnnouncedAll(rest) <==> uid !in Ids(items[..|items| - 1]))
  {
    hide ItemsExcept, AnnouncedAll, Ids;
    var rest := ItemsExcept(items, uid);
    IdsSlice(items, |items| - 1);
    PreviewedRest(items, uid);
    IdsSlice(items, |rest|);
    AnnouncedPrefix(items, |rest|);
    SameAnnouncements(items[..|rest|], rest);
  }

  lemma PreviewShape(q: State, rng: Rng)
    requires q.shuffleOrder.None? && WrapPreview(q, rng).Some?
    ensures q.repeat == All && |q.context| >= 2 && Tail(q) == [] && q.current.Some?
    ensures WrapPreview(q, rng).value == [q.current.value.track] + Tracks(ItemsExcept(q.context, q.current.value.uid))
  {}

  lemma CycleReportsNatural(q: State, reason: Reason, rngs: seq<Rng>)
    requires WellFormed(q) && Tail(q) == [] && q.repeat == All && q.shuffleOrder.None?
    requires q.context != [] && |rngs| == |q.context|
    ensures PlayRun(q, reason, rngs).1 == AnnouncedAll(q.context)
  {
    hide WellFormed, Advance, PlayRun, Tail, AnnouncedAll, Ids;
    CyclePlaysEveryRow(q, reason, rngs);
  }

  lemma AnnouncedPrefix(items: seq<Item>, n: nat)
    requires n <= |items|
    ensures AnnouncedAll(items)[..n] == AnnouncedAll(items[..n])
  {}

  lemma ContextDistinct(q: State)
    requires WellFormed(q)
    ensures Distinct(Ids(q.context))
  {
    DistinctAppend(Ids(q.context), Ids(q.playNext));
  }

  lemma SameAnnouncements(a: seq<Item>, b: seq<Item>)
    ensures a == b ==> AnnouncedAll(a) == AnnouncedAll(b)
    ensures AnnouncedAll(a) == AnnouncedAll(b) ==> Ids(a) == Ids(b)
  {
    if AnnouncedAll(a) == AnnouncedAll(b) {
      forall i | 0 <= i < |a| ensures Ids(a)[i] == Ids(b)[i] {
        assert AnnouncedAll(a)[i] == AnnouncedAll(b)[i];
      }
    }
  }

  lemma PreviewedRest(items: seq<Item>, uid: Uid)
    requires Distinct(Ids(items)) && items != []
    ensures var rest := ItemsExcept(items, uid);
            && |rest| <= |items|
            && (uid !in Ids(items)[..|items| - 1] ==> rest == items[..|rest|])
            && (uid in Ids(items)[..|items| - 1] ==> Ids(rest) != Ids(items)[..|rest|])
  {
    var ids, n := Ids(items), |items|;
    if uid in ids {
      var i :| 0 <= i < n && ids[i] == uid;
      ItemsExceptAt(items, i);
      var rest := RemoveAt(items, i);
      if i < n - 1 {
        assert rest[i] == items[i + 1] && ids[i] != ids[i + 1];
        assert Ids(rest)[i] != ids[..n - 1][i];
        assert ids[..n - 1][i] == uid;
      } else {
        assert forall j :: 0 <= j < n - 1 ==> ids[j] != ids[n - 1];
      }
    } else {
      ItemsExceptAbsent(items, uid);
    }
  }

  // -------------------------------------------------------- skipping back

  /** The rows a list of reports moved to, in order. */
  function MovedTo(reports: seq<Playback>): seq<Uid> {
    if reports == [] then []
    else (if reports[0].MoveTo? then [reports[0].uid] else []) + MovedTo(reports[1..])
  }

  function LastEntries(s: seq<Uid>): seq<Uid> {
    if |s| > 100 then s[|s| - 100..] else s
  }

  ghost function SkipBackRun(q: State, positions: seq<nat>): State
    decreases |positions|
  {
    if positions == [] then q else SkipBackRun(SkipBack(q, positions[0]).queue, positions[1..])
  }

  /** Nothing is left and nothing wraps: a further call can only end the queue. */
  predicate AtTheEnd(q: State) { NextContextUid(q).None? && q.playNext == [] && !(q.repeat == All && q.context != []) }

  lemma AdvanceFromContext(q: State, rng: Rng)
    requires Safe(q) && q.playNext == []
    ensures var o := Advance(q, Skip, rng);
            && o.queue.context == q.context && o.queue.playNext == []
            && (o.change.playback.MoveTo? ==>
                  && o.queue.history == PushHistory(q.history, o.change.playback.uid)
                  && IsCurrent(o.queue, o.change.playback.uid)
                  && o.change.playback.uid in Ids(q.context))
            && (o.change.playback.Skipped? ==> o.queue.history == q.history && o.queue.current == q.current)
            && (o.change.playback.MoveTo? || o.change.playback.Skipped? <==> !AtTheEnd(q))
            && (AtTheEnd(q) ==> o.queue == q.(current := None))
  {
    hide Shuffled, FindIndex, Ids, PushHistory;
    if NextContextUid(q).None? && q.repeat == All && q.context != [] {
      RewoundNames(q, rng);
    }
  }

  lemma {:induction false} EndedStaysEnded(q: State, rngs: seq<Rng>)
    requires Safe(q) && AtTheEnd(q)
    ensures var (q', reports) := PlayRun(q, Skip, rngs);
            && (rngs != [] ==> q' == q.(current := None) && !KeepsPlaying(reports))
            && MovedTo(reports) == []
    decreases |rngs|
  {
    hide Advance, Safe, AtTheEnd;
    if rngs != [] {
      AtTheEndWithoutCurrent(q);
      AdvanceSafe(q, Skip, rngs[0]);
      AdvanceFromContext(q, rngs[0]);
      EndedStaysEnded(q.(current := None), rngs[1..]);
      var reports := PlayRun(q, Skip, rngs).1;
      assert reports[1..] == PlayRun(q.(current := None), Skip, rngs[1..]).1;
      assert !reports[0].MoveTo? && !reports[0].Skipped?;
    }
  }

  lemma AtTheEndWithoutCurrent(q: State)
    requires AtTheEnd(q)
    ensures AtTheEnd(q.(current := None)) && q.playNext == []
  {}

  lemma HistoryAfterMove(q: State, moved: seq<Uid>, playback: Playback, rest: seq<Playback>)
    requires |q.history| <= HISTORY_LIMIT && moved == MovedTo([playback] + rest)
    ensures playback.MoveTo? ==>
              && moved == [playback.uid] + MovedTo(rest)
              && LastEntries(PushHistory(q.history, playback.uid) + MovedTo(rest)) == LastEntries(q.history + moved)
    ensures !playback.MoveTo? ==> moved == MovedTo(rest)
  {
    assert ([playback] + rest)[1..] == rest;
    if playback.MoveTo? {
      PushThenAppend(q.history, playback.uid, MovedTo(rest));
    } else {
      assert [] + MovedTo(rest) == MovedTo(rest);
    }
  }

  lemma KeepsPlayingHead(playback: Playback, rest: seq<Playback>)
    requires playback.MoveTo? || playback.Skipped?
    ensures KeepsPlaying([playback] + rest) <==> KeepsPlaying(rest)
  {
    var all := [playback] + rest;
    assert forall i :: 0 <= i < |rest| ==> rest[i] == all[i + 1];
    if KeepsPlaying(all) {
      forall i | 0 <= i < |rest| ensures rest[i].MoveTo? || rest[i].Skipped? {
        assert rest[i] == all[i + 1];
      }
    }
  }

  /** Any run of skips: the history is the last entries of the old one and the rows moved to, ended or not. */
  lemma {:induction false} HistoryAfterRun(q: State, rngs: seq<Rng>)
    requires Safe(q) && q.playNext == []
    ensures var (q', reports) := PlayRun(q, Skip, rngs);
            var moved := MovedTo(reports);
            && Safe(q') && q'.context == q.context && q'.playNext == []
            && q'.history == LastEntries(q.history + moved)
            && (forall u :: u in moved ==> u in Ids(q.context))
            && (if !KeepsPlaying(reports) then q'.current == None
                else if moved == [] then q'.current == q.current
                else IsCurrent(q', moved[|moved| - 1]))
    decreases |rngs|
  {
    hide Advance, Safe, LastEntries, PushHistory, Ids, KeepsPlaying, AtTheEnd;
    ShortHistory(q);
    if rngs == [] {
      assert KeepsPlaying([]) by { NothingEnds(); }
    } else {
      var o := Advance(q, Skip, rngs[0]);
      AdvanceSafe(q, Skip, rngs[0]);
      AdvanceFromContext(q, rngs[0]);
      var rest := PlayRun(o.queue, Skip, rngs[1..]).1;
      if AtTheEnd(q) {
        EndedStaysEnded(q, rngs);
        PlayRunSafe(q, rngs);
      } else {
        HistoryAfterRun(o.queue, rngs[1..]);
        HistoryAfterMove(q, MovedTo([o.change.playback] + rest), o.change.playback, rest);
        KeepsPlayingHead(o.change.playback, rest);
      }
    }
  }

  lemma NothingEnds()
    ensures KeepsPlaying([])
  {}

  lemma PlayRunSafe(q: State, rngs: seq<Rng>)
    requires Safe(q)
    ensures Safe(PlayRun(q, Skip, rngs).0)
  {
    PlayRunSplits(q, Skip, rngs, []);
  }

  lemma ShortHistory(q: State)
    requires Safe(q)
    ensures |q.history| <= HISTORY_LIMIT && LastEntries(q.history + []) == q.history
  {
    assert q.history + [] == q.history;
  }

  lemma PushThenAppend(h: seq<Uid>, u: Uid, rest: seq<Uid>)
    requires |h| <= HISTORY_LIMIT
    ensures LastEntries(PushHistory(h, u) + rest) == LastEntries(h + ([u] + rest))
  {
    assert h + ([u] + rest) == (h + [u]) + rest;
    if |h| + 1 > HISTORY_LIMIT {
      assert (h + [u])[1..] + rest == ((h + [u]) + rest)[1..];
    }
  }

  /** A queue whose current row is the newest history entry, with `h` as its history over the rows of `context`. */
  ghost predicate Tracked(q: State, context: seq<Item>, h: seq<Uid>) {
    && q.context == context && q.history == h && h != [] && IsCurrent(q, h[|h| - 1])
  }

  lemma StepBack(q: State, positionMs: nat, h: seq<Uid>)
    requires Safe(q) && Tracked(q, q.context, h) && |h| > 1 && positionMs <= 3000
    requires h[|h| - 2] in Ids(q.context)
    ensures var q' := SkipBack(q, positionMs).queue;
            Tracked(q', q.context, h[..|h| - 1]) && q'.contextPos == FindIndex(q.context, h[|h| - 2])
  {
    var n := |h|;
    assert h[..n - 1][n - 2] == h[n - 2];
    assert h[..n - 1][..n - 2] + [h[n - 2]] == h[..n - 1];
  }

  /** Each step back drops the newest entry and returns to the one before it. */
  lemma {:induction false} UnwindRecent(q: State, positions: seq<nat>, h: seq<Uid>)
    requires Safe(q) && Tracked(q, q.context, h)
    requires forall i :: 0 <= i < |positions| ==> positions[i] <= 3000
    requires |positions| < |h|
    requires forall i :: |h| - 1 - |positions| <= i < |h| - 1 ==> h[i] in Ids(q.context)
    ensures var q' := SkipBackRun(q, positions);
            && Safe(q') && Tracked(q', q.context, h[..|h| - |positions|])
            && (positions != [] ==> q'.contextPos == FindIndex(q.context, h[|h| - |positions| - 1]))
    decreases |positions|
  {
    hide SkipBack, Safe, FindIndex, Ids;
    if positions == [] {
      assert h[..|h|] == h;
    } else {
      var n, k := |h|, |positions|;
      var h', rest := h[..n - 1], positions[1..];
      var q1 := SkipBack(q, positions[0]).queue;
      SkipBackSafe(q, positions[0]);
      StepBack(q, positions[0], h);
      assert forall i :: 0 <= i < n - 1 ==> h'[i] == h[i];
      assert forall i :: 0 <= i < k - 1 ==> rest[i] == positions[i + 1];
      UnwindRecent(q1, rest, h');
      assert h'[..n - k] == h[..n - k];
      assert rest == [] ==> h'[..n - 1] == h';
    }
  }

  /** With one entry left, which is the current row, every further step back restarts it. */
  lemma {:induction false} SkipBacksStayPut(q: State, positions: seq<nat>)
    requires q.history == [] || (|q.history| == 1 && IsCurrent(q, q.history[0]))
    ensures SkipBackRun(q, positions).current == q.current && SkipBackRun(q, positions).contextPos == q.contextPos
    decreases |positions|
  {
    if positions != [] {
      SkipBacksStayPut(SkipBack(q, positions[0]).queue, positions[1..]);
    }
  }

  lemma {:induction false} SkipBackRunSplits(q: State, a: seq<nat>, b: seq<nat>)
    ensures SkipBackRun(q, a + b) == SkipBackRun(SkipBackRun(q, a), b)
    decreases |a|
  {
    if a == [] {
      assert a + b == b;
    } else {
      assert (a + b)[0] == a[0] && (a + b)[1..] == a[1..] + b;
      SkipBackRunSplits(SkipBack(q, a[0]).queue, a[1..], b);
    }
  }

  /** The row that steps back over `moved` arrive at: the starting row while the history still holds it. */
  function ReturnsTo(start: Uid, moved: seq<Uid>): Uid {
    if |moved| < HISTORY_LIMIT then start else moved[|moved| - HISTORY_LIMIT]
  }

  /**
   * Skipping forward with k MoveTo steps (through unavailable rows, wraps and shuffles alike) and then k times back
   * returns to the starting row and cursor for every k below the history limit; beyond it, to the oldest row kept. If
   * the run ended the queue, one step back more is needed: the first one returns to the last row played.
   */
  lemma SkipBackUndoesSkips(q: State, rngs: seq<Rng>, positions: seq<nat>)
    requires WellFormed(q) && q.playNext == []
    requires q.current.Some? && q.contextPos.Some? && q.contextPos.value < |q.context|
    requires q.context[q.contextPos.value].uid == q.current.value.uid
    requires q.history != [] && q.history[|q.history| - 1] == q.current.value.uid
    requires var reports := PlayRun(q, Skip, rngs).1;
             |positions| == |MovedTo(reports)| + (if KeepsPlaying(reports) then 0 else 1) > 0
    requires forall i :: 0 <= i < |positions| ==> positions[i] <= 3000
    ensures var moved := MovedTo(PlayRun(q, Skip, rngs).1);
            var q' := SkipBackRun(PlayRun(q, Skip, rngs).0, positions);
            && IsCurrent(q', ReturnsTo(q.current.value.uid, moved))
            && q'.contextPos == FindIndex(q.context, ReturnsTo(q.current.value.uid, moved))
            && (|moved| < HISTORY_LIMIT ==> q'.contextPos == q.contextPos)
  {
    hide PlayRun, SkipBackRun, MovedTo, LastEntries, Safe, FindIndex, KeepsPlaying;
    var (mid, reports) := PlayRun(q, Skip, rngs);
    var moved := MovedTo(reports);
    WellFormedIsSafe(q);
    HistoryAfterRun(q, rngs);
    CursorRow(q);
    if KeepsPlaying(reports) {
      SkipBackFrom(q, mid, moved, positions);
    } else {
      var mid' := SkipBack(mid, positions[0]).queue;
      var rest := positions[1..];
      BackFromTheEnd(q, mid, moved, positions[0]);
      FirstStepBack(mid, positions);
      if moved == [] {
        assert rest == [];
        NoStepsBack(mid');
      } else {
        assert forall i :: 0 <= i < |rest| ==> rest[i] == positions[i + 1];
        SkipBackFrom(q, mid', moved, rest);
      }
    }
  }

  /** The first step back from an ended queue returns to the newest entry and leaves the history as it is. */
  lemma BackFromTheEnd(q: State, mid: State, moved: seq<Uid>, positionMs: nat)
    requires Safe(mid) && mid.context == q.context && mid.history == LastEntries(q.history + moved) && mid.current == None
    requires forall u :: u in moved ==> u in Ids(q.context)
    requires q.current.Some? && q.current.value.uid in Ids(q.context) && positionMs <= 3000
    requires 0 < |q.history| <= HISTORY_LIMIT && q.history[|q.history| - 1] == q.current.value.uid
    ensures var mid' := SkipBack(mid, positionMs).queue;
            var u := if moved == [] then q.current.value.uid else moved[|moved| - 1];
            && Safe(mid') && mid'.context == q.context && mid'.history == mid.history
            && IsCurrent(mid', u) && mid'.contextPos == FindIndex(q.context, u)
  {
    hide Safe, FindIndex, SkipBack, Ids, LastEntries, PushHistory;
    SkipBackSafe(mid, positionMs);
    LastOfLastEntries(q.history, moved);
    SkipBackWithoutCurrent(mid, positionMs);
  }

  lemma LastOfLastEntries(h: seq<Uid>, moved: seq<Uid>)
    requires h != []
    ensures var kept := LastEntries(h + moved);
            && 0 < |kept| <= HISTORY_LIMIT
            && kept[|kept| - 1] == if moved == [] then h[|h| - 1] else moved[|moved| - 1]
  {}

  /** With nothing current, a step back returns to the newest entry of the history and leaves the history alone. */
  lemma SkipBackWithoutCurrent(q: State, positionMs: nat)
    requires q.current.None? && 0 < |q.history| <= HISTORY_LIMIT && positionMs <= 3000
    requires q.history[|q.history| - 1] in Ids(q.context)
    ensures var (q', u) := (SkipBack(q, positionMs).queue, q.history[|q.history| - 1]);
            && q'.context == q.context && q'.history == q.history
            && IsCurrent(q', u) && q'.contextPos == FindIndex(q.context, u)
  {
    hide FindIndex, Ids;
    var h := q.history;
    assert h[..|h| - 1] + [h[|h| - 1]] == h;
  }

  lemma FirstStepBack(q: State, positions: seq<nat>)
    requires positions != []
    ensures SkipBackRun(q, positions) == SkipBackRun(SkipBack(q, positions[0]).queue, positions[1..])
  {}

  lemma NoStepsBack(q: State)
    ensures SkipBackRun(q, []) == q
  {}

  lemma WellFormedIsSafe(q: State)
    requires WellFormed(q)
    ensures Safe(q) && |q.history| <= HISTORY_LIMIT
  {}

  lemma CursorRow(q: State)
    requires WellFormed(q) && q.contextPos.Some? && q.contextPos.value < |q.context|
    ensures FindIndex(q.context, q.context[q.contextPos.value].uid) == q.contextPos
    ensures q.context[q.contextPos.value].uid in Ids(q.context)
  {
    hide FindIndex;
    DistinctAppend(Ids(q.context), Ids(q.playNext));
    FoundFirst(q.context, q.contextPos.value);
    assert Ids(q.context)[q.contextPos.value] == q.context[q.contextPos.value].uid;
  }

  /** Stepping back from the state `mid` that a run moving over `moved` led to. */
  lemma SkipBackFrom(q: State, mid: State, moved: seq<Uid>, positions: seq<nat>)
    requires Safe(mid) && mid.context == q.context && mid.history == LastEntries(q.history + moved)
    requires moved != [] && IsCurrent(mid, moved[|moved| - 1]) && forall u :: u in moved ==> u in Ids(q.context)
    requires q.current.Some? && q.current.value.uid in Ids(q.context)
    requires 0 < |q.history| <= HISTORY_LIMIT && q.history[|q.history| - 1] == q.current.value.uid
    requires |positions| == |moved| && forall i :: 0 <= i < |positions| ==> positions[i] <= 3000
    ensures var q' := SkipBackRun(mid, positions);
            var u := ReturnsTo(q.current.value.uid, moved);
            IsCurrent(q', u) && q'.contextPos == FindIndex(q.context, u)
  {
    hide SkipBackRun, LastEntries, Safe, FindIndex, Ids, ReturnsTo;
    RecentEntries(q.history, moved);
    var back := Min(|positions|, |mid.history| - 1);
    HistoryReaches(q.history, moved, q.current.value.uid, Ids(q.context), back);
    StepBackThenStay(mid, positions, back);
  }

  lemma RecentEntries(history: seq<Uid>, moved: seq<Uid>)
    requires history != [] && moved != []
    ensures var (all, h) := (history + moved, LastEntries(history + moved));
            1 < |h| <= |all| && (|h| < |all| ==> |h| == HISTORY_LIMIT) && |h| <= HISTORY_LIMIT
  {}

  lemma HistoryReaches(history: seq<Uid>, moved: seq<Uid>, start: Uid, rows: seq<Uid>, back: nat)
    requires 0 < |history| <= HISTORY_LIMIT && history[|history| - 1] == start && start in rows
    requires moved != [] && forall u :: u in moved ==> u in rows
    requires back == Min(|moved|, |LastEntries(history + moved)| - 1)
    ensures var h := LastEntries(history + moved);
            && 0 < back < |h| && h[|h| - 1] == moved[|moved| - 1]
            && (back < |moved| ==> back == |h| - 1)
            && h[|h| - 1 - back] == ReturnsTo(start, moved)
            && (forall i :: |h| - 1 - back <= i < |h| - 1 ==> h[i] in rows)
  {
    var h := LastEntries(history + moved);
    RecentEntries(history, moved);
    EntryFromEnd(history, moved, 0);
    EntryFromEnd(history, moved, back);
    hide LastEntries;
    forall i | |h| - 1 - back <= i < |h| - 1 ensures h[i] in rows {
      EntryFromEnd(history, moved, |h| - 1 - i);
    }
  }

  /** The entry `n` places before the newest: a move, or the row the run started on. */
  lemma EntryFromEnd(history: seq<Uid>, moved: seq<Uid>, n: nat)
    requires history != [] && moved != []
    requires n <= |moved| && n < |LastEntries(history + moved)|
    ensures var h := LastEntries(history + moved);
            h[|h| - 1 - n] == if n < |moved| then moved[|moved| - 1 - n] else history[|history| - 1]
  {
    var all, h := history + moved, LastEntries(history + moved);
    assert h[|h| - 1 - n] == all[|all| - 1 - n];
  }

  lemma StepBackThenStay(q: State, positions: seq<nat>, back: nat)
    requires Safe(q) && Tracked(q, q.context, q.history)
    requires forall i :: 0 <= i < |positions| ==> positions[i] <= 3000
    requires 0 < back <= |positions| && back < |q.history| && (back < |positions| ==> back == |q.history| - 1)
    requires forall i :: |q.history| - 1 - back <= i < |q.history| - 1 ==> q.history[i] in Ids(q.context)
    ensures var q' := SkipBackRun(q, positions);
            var u := q.history[|q.history| - 1 - back];
            IsCurrent(q', u) && q'.contextPos == FindIndex(q.context, u)
  {
    hide SkipBack, Safe, FindIndex, Ids;
    var first, rest := positions[..back], positions[back..];
    assert positions == first + rest;
    UnwindRecent(q, first, q.history);
    SkipBackRunSplits(q, first, rest);
    if back < |positions| {
      SkipBacksStayPut(SkipBackRun(q, first), rest);
    }
  }
}
