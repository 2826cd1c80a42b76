/** The marker ring and the retirement ring between the worker and the real-time thread, step by step. */
module Retirement {
  import opened Prelude

  /** A decoded store, by identity. */
  type Store = nat

  /** A marker either brings a store (track start, reattach) or brings none (reposition, track end). */
  datatype Marker = Bringing(store: Store) | Plain

  /**
   * Ring capacities, and whether the real-time thread's pop of a marker and the retirement that follows it are
   * taken as one step that the worker cannot come between.
   */
  datatype Config = Config(markerCapacity: nat, retiredCapacity: nat, popRetireAtomic: bool)

  const MARKER_CAPACITY := 64
  const RETIRED_CAPACITY := MARKER_CAPACITY + 1

  datatype System = System(
    markers: seq<Marker>,
    slot: Option<Store>,
    hand: Option<Store>,
    retired: seq<Store>,
    parked: Option<Store>,
    inFill: bool,
    // The worker has found the retirement ring empty and may push one marker.
    armed: bool,
    // Stores freed by the worker, and stores the real-time thread had to drop.
    freed: multiset<Store>,
    dropped: multiset<Store>,
    issued: nat,
    sawFull: bool)

  datatype Step =
    | DrainOne
    | DrainDone
    | PushMarker(bringsStore: bool)
    | BeginFill
    | PopMarker
    | Retire
    | EndFill

  predicate WorkerStep(step: Step) { step.DrainOne? || step.DrainDone? || step.PushMarker? }

  predicate Enabled(c: Config, s: System, step: Step) {
    && (WorkerStep(step) && c.popRetireAtomic ==> s.hand.None?)
    && match step
       case DrainOne => s.retired != []
       case DrainDone => s.retired == []
       case PushMarker(_) => s.armed
       case BeginFill => !s.inFill
       case PopMarker => s.inFill && s.hand.None? && s.markers != []
       case Retire => s.hand.Some?
       case EndFill => s.inFill && s.hand.None?
  }

  function Just(x: Option<Store>): multiset<Store> { if x.Some? then multiset{x.value} else multiset{} }

  /** Push a store into the retirement ring, or park it (dropping what was parked) when the ring is full. */
  function Retiring(c: Config, s: System, store: Store): System {
    if |s.retired| < c.retiredCapacity then s.(retired := s.retired + [store])
    else s.(parked := Some(store), dropped := s.dropped + Just(s.parked), sawFull := true)
  }

  /** The worker's push keeps the marker, or frees its store on the spot when the ring is full. */
  function Pushed(c: Config, s: System, marker: Marker): System {
    if |s.markers| < c.markerCapacity then s.(markers := s.markers + [marker])
    else s.(freed := s.freed + Just(if marker.Bringing? then Some(marker.store) else None))
  }

  function Next(c: Config, s: System, step: Step): System
    requires Enabled(c, s, step)
  {
    match step
    case DrainOne => s.(retired := s.retired[1..], freed := s.freed + Just(Some(s.retired[0])), armed := false)
    case DrainDone => s.(armed := true)
    case PushMarker(bringsStore) =>
      if bringsStore then Pushed(c, s.(armed := false, issued := s.issued + 1), Bringing(s.issued))
      else Pushed(c, s.(armed := false), Plain)
    case BeginFill =>
      var s' := s.(inFill := true);
      if s.parked.Some? then Retiring(c, s'.(parked := None), s.parked.value) else s'
    case PopMarker =>
      var s' := s.(markers := s.markers[1..]);
      if s.markers[0].Bringing? then s'.(slot := Some(s.markers[0].store), hand := s.slot) else s'
    case Retire => Retiring(c, s.(hand := None), s.hand.value)
    case EndFill => s.(inFill := false)
  }

  /** A fresh pair of rings, seeded with the playing track's store if there is one. */
  predicate Initial(s: System) {
    && ((s.markers == [] && s.issued == 0) || (s.markers == [Bringing(0)] && s.issued == 1))
    && s.slot.None? && s.hand.None? && s.retired == [] && s.parked.None? && !s.inFill && !s.armed && !s.sawFull
    && s.freed == multiset{} && s.dropped == multiset{}
  }

  ghost predicate Run(c: Config, s: System, steps: seq<Step>, s': System)
    decreases |steps|
  {
    if steps == [] then s' == s
    else Enabled(c, s, steps[0]) && Run(c, Next(c, s, steps[0]), steps[1..], s')
  }

  ghost predicate Reachable(c: Config, s': System) {
    exists s: System, steps :: Initial(s) && Run(c, s, steps, s')
  }

  // -------------------------------------------------------- store ownership

  function Is(x: Option<Store>, store: Store): nat { if x == Some(store) then 1 else 0 }

  /** In how many places a store is held, over every place it can be. */
  function Holdings(s: System, store: Store): nat {
    Times(s.markers, Bringing(store)) + Is(s.slot, store) + Is(s.hand, store) + Times(s.retired, store)
    + Is(s.parked, store) + TimesIn(s.freed, store) + TimesIn(s.dropped, store)
  }

  function Times<T(==)>(q: seq<T>, x: T): nat { multiset(q)[x] }

  function TimesIn(m: multiset<Store>, x: Store): nat { m[x] }

  /** Every store issued so far is in exactly one place. */
  ghost predicate OneOwner(s: System) {
    forall store: Store :: Holdings(s, store) == if store < s.issued then 1 else 0
  }

  lemma HeadCount<T>(q: seq<T>, x: T)
    requires q != []
    ensures Times(q, x) == Times(q[1..], x) + (if q[0] == x then 1 else 0)
  {
    assert q == [q[0]] + q[1..];
  }

  lemma PushCount<T>(q: seq<T>, y: T, x: T)
    ensures Times(q + [y], x) == Times(q, x) + (if x == y then 1 else 0)
  {}

  lemma AddCount(m: multiset<Store>, y: Option<Store>, x: Store)
    ensures TimesIn(m + Just(y), x) == TimesIn(m, x) + Is(y, x)
  {}

  lemma RetiringKeepsHoldings(c: Config, s: System, x: Store, store: Store)
    ensures Holdings(Retiring(c, s, x), store) == Holdings(s, store) + (if x == store then 1 else 0)
  {
    hide Times, TimesIn, Just;
    if |s.retired| < c.retiredCapacity {
      PushCount(s.retired, x, store);
    } else {
      AddCount(s.dropped, s.parked, store);
    }
  }

  lemma DrainHoldings(c: Config, s: System, store: Store)
    requires Enabled(c, s, DrainOne)
    ensures Holdings(Next(c, s, DrainOne), store) == Holdings(s, store)
  {
    hide Times, TimesIn, Just;
    HeadCount(s.retired, store);
    AddCount(s.freed, Some(s.retired[0]), store);
  }

  lemma PushedHoldings(c: Config, s: System, marker: Marker, store: Store)
    ensures Holdings(Pushed(c, s, marker), store) == Holdings(s, store) + (if marker == Bringing(store) then 1 else 0)
  {
    hide Times, TimesIn, Just;
    if |s.markers| < c.markerCapacity {
      PushCount(s.markers, marker, Bringing(store));
    } else {
      AddCount(s.freed, if marker.Bringing? then Some(marker.store) else None, store);
    }
  }

  lemma PopHoldings(c: Config, s: System, store: Store)
    requires Enabled(c, s, PopMarker)
    ensures Holdings(Next(c, s, PopMarker), store) == Holdings(s, store)
  {
    hide Times, TimesIn;
    HeadCount(s.markers, Bringing(store));
  }

  lemma PushHoldings(c: Config, s: System, bringsStore: bool, store: Store)
    requires Enabled(c, s, PushMarker(bringsStore))
    ensures Holdings(Next(c, s, PushMarker(bringsStore)), store) ==
            Holdings(s, store) + (if bringsStore && store == s.issued then 1 else 0)
  {
    hide Times, TimesIn, Pushed;
    if bringsStore {
      PushedHoldings(c, s.(armed := false, issued := s.issued + 1), Bringing(s.issued), store);
    } else {
      PushedHoldings(c, s.(armed := false), Plain, store);
    }
  }

  lemma BeginFillHoldings(c: Config, s: System, store: Store)
    requires Enabled(c, s, BeginFill)
    ensures Holdings(Next(c, s, BeginFill), store) == Holdings(s, store)
  {
    hide Times, TimesIn, Retiring;
    if s.parked.Some? {
      RetiringKeepsHoldings(c, s.(inFill := true, parked := None), s.parked.value, store);
    }
  }

  lemma RetireHoldings(c: Config, s: System, store: Store)
    requires Enabled(c, s, Retire)
    ensures Holdings(Next(c, s, Retire), store) == Holdings(s, store)
  {
    hide Times, TimesIn, Retiring;
    RetiringKeepsHoldings(c, s.(hand := None), s.hand.value, store);
  }

  lemma OtherHoldings(c: Config, s: System, step: Step, store: Store)
    requires Enabled(c, s, step) && (step.DrainDone? || step.EndFill?)
    ensures Holdings(Next(c, s, step), store) == Holdings(s, store)
  {
    hide Times, TimesIn;
  }

  /** A step moves stores from place to place; only a push brings one more. */
  lemma StepHoldings(c: Config, s: System, step: Step, store: Store)
    requires Enabled(c, s, step)
    ensures Holdings(Next(c, s, step), store) ==
            Holdings(s, store) + (if step == PushMarker(true) && store == s.issued then 1 else 0)
  {
    hide Holdings, Next;
    match step
    case DrainOne => DrainHoldings(c, s, store);
    case PushMarker(bringsStore) => PushHoldings(c, s, bringsStore, store);
    case BeginFill => BeginFillHoldings(c, s, store);
    case PopMarker => PopHoldings(c, s, store);
    case Retire => RetireHoldings(c, s, store);
    case _ => OtherHoldings(c, s, step, store);
  }

  lemma StepKeepsOneOwner(c: Config, s: System, step: Step)
    requires Enabled(c, s, step) && OneOwner(s)
    ensures OneOwner(Next(c, s, step))
  {
    hide Holdings;
    forall store: Store ensures Holdings(Next(c, s, step), store) == if store < Next(c, s, step).issued then 1 else 0 {
      StepHoldings(c, s, step, store);
    }
  }

  // ------------------------------------------------------------- the bound

  /** What the worker's push allows beyond the marker capacity: one for the push, one for a store in hand. */
  function Slack(c: Config): nat { if c.popRetireAtomic then 1 else 2 }

  function InFlight(s: System): nat { |s.markers| + |Just(s.hand)| + |s.retired| }

  ghost predicate Bounded(c: Config, s: System) {
    && |s.markers| <= c.markerCapacity && |Just(s.hand)| <= 1
    && InFlight(s) <= c.markerCapacity + (if s.armed then Slack(c) - 1 else Slack(c))
    && s.parked.None? && !s.sawFull && s.dropped == multiset{}
    && OneOwner(s)
  }

  lemma StepBounded(c: Config, s: System, step: Step)
    requires c.retiredCapacity >= c.markerCapacity + Slack(c)
    requires Bounded(c, s) && Enabled(c, s, step)
    ensures Bounded(c, Next(c, s, step))
  {
    StepKeepsOneOwner(c, s, step);
    hide OneOwner, Holdings;
    match step
    case PushMarker(bringsStore) => if bringsStore {} else {}
    case _ =>
  }

  lemma {:induction false} RunBounded(c: Config, s: System, steps: seq<Step>, s': System)
    requires c.retiredCapacity >= c.markerCapacity + Slack(c)
    requires Bounded(c, s) && Run(c, s, steps, s')
    ensures Bounded(c, s')
    decreases |steps|
  {
    if steps != [] {
      StepBounded(c, s, steps[0]);
      RunBounded(c, Next(c, s, steps[0]), steps[1..], s');
    }
  }

  lemma InitialBounded(c: Config, s: System)
    requires Initial(s) && c.markerCapacity > 0
    ensures Bounded(c, s)
  {}

  // ------------------------------------------------------- the bound is met

  lemma {:induction false} RunThen(c: Config, s: System, steps: seq<Step>, mid: System, step: Step)
    requires Run(c, s, steps, mid) && Enabled(c, mid, step)
    ensures Run(c, s, steps + [step], Next(c, mid, step))
    decreases |steps|
  {
    if steps == [] {
      assert [] + [step] == [step];
    } else {
      assert (steps + [step])[1..] == steps[1..] + [step];
      RunThen(c, Next(c, s, steps[0]), steps[1..], mid, step);
    }
  }

  lemma Extend(c: Config, s: System, step: Step)
    requires Reachable(c, s) && Enabled(c, s, step)
    ensures Reachable(c, Next(c, s, step))
  {
    var s0: System, steps :| Initial(s0) && Run(c, s0, steps, s);
    RunThen(c, s0, steps, s, step);
  }

  ghost predicate AllBringing(markers: seq<Marker>) { forall i :: 0 <= i < |markers| ==> markers[i].Bringing? }

  /** In a fill with a store in the slot, nothing but store-bringing markers queued. */
  ghost predicate Loaded(c: Config, s: System) {
    Reachable(c, s) && s.inFill && s.slot.Some? && AllBringing(s.markers)
  }

  /** More markers and retirements than the ring holds: applying them all meets a full ring. */
  lemma {:induction false} ApplyingMeetsFull(c: Config, s: System) returns (s': System)
    requires Loaded(c, s) && InFlight(s) > c.retiredCapacity
    requires |s.retired| <= c.retiredCapacity
    ensures Reachable(c, s') && s'.sawFull
    decreases |s.markers|, |Just(s.hand)|
  {
    if s.hand.Some? {
      Extend(c, s, Retire);
      s' := Next(c, s, Retire);
      if !s'.sawFull {
        s' := ApplyingMeetsFull(c, s');
      }
    } else {
      Extend(c, s, PopMarker);
      s' := ApplyingMeetsFull(c, Next(c, s, PopMarker));
    }
  }

  /** The worker can queue markers until the ring is full, while the real-time thread stands still. */
  lemma {:induction false} QueueMarkers(c: Config, s: System) returns (s': System)
    requires Loaded(c, s) && s.hand.None? && s.retired == [] && |s.markers| <= c.markerCapacity
    ensures Loaded(c, s') && s'.hand.None? && s'.retired == [] && |s'.markers| == c.markerCapacity
    decreases c.markerCapacity - |s.markers|
  {
    s' := s;
    if |s.markers| < c.markerCapacity {
      Extend(c, s, DrainDone);
      var armed := Next(c, s, DrainDone);
      Extend(c, armed, PushMarker(true));
      s' := QueueMarkers(c, Next(c, armed, PushMarker(true)));
    }
  }

  /** The worker passes its check with the ring empty; the push comes later. */
  lemma CheckEmpty(c: Config, s: System) returns (s': System)
    requires Loaded(c, s) && s.retired == [] && (c.popRetireAtomic ==> s.hand.None?)
    ensures Loaded(c, s') && s'.armed && s'.markers == s.markers && s'.hand == s.hand && s'.retired == []
  {
    Extend(c, s, DrainDone);
    s' := Next(c, s, DrainDone);
  }

  lemma PushOne(c: Config, s: System) returns (s': System)
    requires Loaded(c, s) && s.armed && |s.markers| < c.markerCapacity && (c.popRetireAtomic ==> s.hand.None?)
    ensures Loaded(c, s') && |s'.markers| == |s.markers| + 1 && s'.hand == s.hand && s'.retired == s.retired
  {
    Extend(c, s, PushMarker(true));
    s' := Next(c, s, PushMarker(true));
  }

  lemma PopOne(c: Config, s: System) returns (s': System)
    requires Loaded(c, s) && s.hand.None? && s.markers != []
    ensures Loaded(c, s') && |s'.markers| == |s.markers| - 1 && s'.hand.Some? && s'.retired == s.retired
    ensures s'.armed == s.armed
  {
    Extend(c, s, PopMarker);
    s' := Next(c, s, PopMarker);
  }

  /** From a new pair of rings, one store in the real-time thread's slot and a full marker ring. */
  lemma FullMarkerRing(c: Config) returns (s: System)
    requires c.markerCapacity > 0
    ensures Loaded(c, s) && s.hand.None? && s.retired == [] && |s.markers| == c.markerCapacity
  {
    var s0 := System([], None, None, [], None, false, false, multiset{}, multiset{}, 0, false);
    assert Run(c, s0, [], s0);
    assert Reachable(c, s0);
    Extend(c, s0, DrainDone);
    var s1 := Next(c, s0, DrainDone);
    Extend(c, s1, PushMarker(true));
    var s2 := Next(c, s1, PushMarker(true));
    Extend(c, s2, BeginFill);
    var s3 := Next(c, s2, BeginFill);
    Extend(c, s3, PopMarker);
    s := QueueMarkers(c, Next(c, s3, PopMarker));
  }

  /** Retire the store in hand; either that already meets a full ring, or one retirement is outstanding. */
  lemma RetireOne(c: Config, s: System) returns (s': System)
    requires Loaded(c, s) && s.hand.Some? && s.retired == []
    ensures Reachable(c, s')
    ensures s'.sawFull || (Loaded(c, s') && s'.markers == s.markers && s'.hand.None?
                           && |s'.retired| == 1 <= c.retiredCapacity)
    ensures s'.armed == s.armed
  {
    Extend(c, s, Retire);
    s' := Next(c, s, Retire);
  }

  /** With one slot too few, some interleaving meets a full retirement ring. */
  lemma TooSmallMeetsFull(c: Config) returns (s: System)
    requires c.markerCapacity > 0 && c.retiredCapacity < c.markerCapacity + Slack(c)
    ensures Reachable(c, s) && s.sawFull
  {
    s := FullMarkerRing(c);
    if !c.popRetireAtomic {
      // A store in hand hides from the worker's check: it refills the marker ring and checks again.
      s := PopOne(c, s);
      s := CheckEmpty(c, s);
      s := PushOne(c, s);
    }
    s := CheckEmpty(c, s);
    if c.popRetireAtomic {
      s := PopOne(c, s);
    }
    s := RetireOne(c, s);
    if !s.sawFull {
      if !c.popRetireAtomic {
        s := PopOne(c, s);
      }
      s := PushOne(c, s);
      s := ApplyingMeetsFull(c, s);
    }
  }

  /**
   * The retirement ring never refuses a store exactly when it has one slot more than the marker ring, if the
   * real-time thread's pop and retirement are one step, and exactly when it has two more, if they are not.
   */
  lemma NeverFullIff(c: Config)
    requires c.markerCapacity > 0
    ensures (forall s: System :: Reachable(c, s) ==> !s.sawFull) <==> c.retiredCapacity >= c.markerCapacity + Slack(c)
  {
    if c.retiredCapacity >= c.markerCapacity + Slack(c) {
      forall s: System | Reachable(c, s) ensures !s.sawFull {
        ReachableBounded(c, s);
      }
    } else {
      var s := TooSmallMeetsFull(c);
    }
  }

  lemma ReachableBounded(c: Config, s: System)
    requires c.markerCapacity > 0 && c.retiredCapacity >= c.markerCapacity + Slack(c) && Reachable(c, s)
    ensures Bounded(c, s)
  {
    var s0: System, steps :| Initial(s0) && Run(c, s0, steps, s);
    InitialBounded(c, s0);
    RunBounded(c, s0, steps, s);
  }

  /**
   * With the capacities in use, and pop and retirement as one step: in every interleaving at most
   * MARKER_CAPACITY + 1 markers and retirements are outstanding, nothing is ever parked or dropped by the real-time
   * thread, and every store issued so far is in exactly one place.
   */
  lemma EveryStoreHasOneOwner(s: System)
    requires Reachable(Config(MARKER_CAPACITY, RETIRED_CAPACITY, true), s)
    ensures |s.markers| + |s.retired| <= MARKER_CAPACITY + 1
    ensures !s.sawFull && s.parked.None? && s.dropped == multiset{}
    ensures OneOwner(s)
  {
    ReachableBounded(Config(MARKER_CAPACITY, RETIRED_CAPACITY, true), s);
  }

  /** The bound is tight: 65 outstanding is reached. */
  lemma OutstandingBoundIsTight() returns (s: System)
    ensures Reachable(Config(MARKER_CAPACITY, RETIRED_CAPACITY, true), s)
    ensures |s.markers| + |s.retired| == MARKER_CAPACITY + 1
  {
    var c := Config(MARKER_CAPACITY, RETIRED_CAPACITY, true);
    s := FullMarkerRing(c);
    s := CheckEmpty(c, s);
    s := PopOne(c, s);
    s := RetireOne(c, s);
    ReachableBounded(c, s);
    s := PushOne(c, s);
  }

  /**
   * With the same capacities but the two taken separately, as they are in the code, the full ring that the comments
   * call unreachable can be met.
   */
  lemma CapacitiesInUseCanMeetFull() returns (s: System)
    ensures Reachable(Config(MARKER_CAPACITY, RETIRED_CAPACITY, false), s) && s.sawFull
  {
    s := TooSmallMeetsFull(Config(MARKER_CAPACITY, RETIRED_CAPACITY, false));
  }
}
