/** The write-side and read-side frame clocks across the sink, the real-time thread and ring swaps. */
module FrameClock {
  import opened Prelude

  const RING_FRAMES := 8_192

  /**
   * Frames are numbered in the order the sink pushes them. `ring` is the ring the sink writes into; while a
   * re-attached producer is still parked the real-time half reads a fresh, empty ring instead. A marker is stamped
   * when its event arrives and forwarded at any later time; `Forward(false)` is one pushed into a full ring, or into a
   * ring the real-time half has already dropped.
   */
  datatype System = System(
    // The sink: frames pushed, the packet in progress (frames in it, frames of it still to push), its ring.
    pushed: nat,
    packet: Option<nat>,
    left: nat,
    written: nat,
    ring: seq<nat>,
    parked: bool,
    // Markers stamped by the event task and not yet forwarded to the marker ring, as stamps.
    channel: seq<nat>,
    // The real-time half: its marker ring as stamps, the fill in progress with the clock value it read.
    markers: seq<nat>,
    seen: Option<nat>,
    delivered: nat,
    consumed: nat,
    // Frames thrown away by seeks, and frames the store fed while the ring was empty.
    discarded: nat,
    storeFed: nat)

  datatype Step =
    | Attach(reattach: bool)
    | Adopt
    | BeginPacket(frames: nat)
    | PushFrame
    | EndPacket
    | Stamp
    | Forward(kept: bool)
    | BeginFill
    | ApplyMarker
    | RingFrame
    | StoreFrameOnEmpty
    | EndFill
    | SeekDiscard

  /** What the real-time half finds in its sample ring. */
  function Readable(s: System): seq<nat> { if s.parked then [] else s.ring }

  predicate Enabled(s: System, step: Step) {
    match step
    case Attach(_) => s.seen.None?
    case Adopt => s.parked && s.packet.None?
    case BeginPacket(_) => s.packet.None?
    case PushFrame => s.packet.Some? && s.left > 0 && |s.ring| < RING_FRAMES
    case EndPacket => s.packet.Some? && s.left == 0
    case Stamp => true
    case Forward(_) => s.channel != []
    case BeginFill => s.seen.None?
    case ApplyMarker => s.seen.Some? && s.delivered == 0 && s.markers != [] && s.markers[0] <= s.seen.value
    case RingFrame => s.seen.Some? && Readable(s) != []
    case StoreFrameOnEmpty => s.seen.Some? && Readable(s) == []
    case EndFill => s.seen.Some?
    case SeekDiscard => s.seen.None? && Readable(s) != []
  }

  function Next(s: System, step: Step): System
    requires Enabled(s, step)
  {
    match step
    case Attach(reattach) => s.(parked := true, markers := if reattach then [0] else [])
    case Adopt => s.(parked := false, consumed := s.consumed + |s.ring|, ring := [])
    case BeginPacket(n) => s.(packet := Some(n), left := n)
    case PushFrame => s.(ring := s.ring + [s.pushed], pushed := s.pushed + 1, left := s.left - 1)
    case EndPacket => s.(packet := None, written := s.written + s.packet.value)
    case Stamp => s.(channel := s.channel + [s.written])
    case Forward(kept) =>
      s.(markers := if kept then s.markers + [s.channel[0]] else s.markers, channel := s.channel[1..])
    case BeginFill => s.(seen := Some(s.consumed), delivered := 0)
    case ApplyMarker => s.(markers := s.markers[1..])
    case RingFrame => s.(ring := s.ring[1..], delivered := s.delivered + 1)
    case StoreFrameOnEmpty => s.(storeFed := s.storeFed + 1, delivered := s.delivered + 1)
    case EndFill => s.(seen := None, consumed := s.consumed + s.delivered, delivered := 0)
    case SeekDiscard => s.(ring := s.ring[1..], discarded := s.discarded + 1)
  }

  function Initial(): System { System(0, None, 0, 0, [], false, [], [], None, 0, 0, 0, 0) }

  /** The state a run of enabled steps ends in. */
  ghost predicate Reaches(s: System, steps: seq<Step>, s': System)
    decreases |steps|
  {
    if steps == [] then s' == s else Enabled(s, steps[0]) && Reaches(Next(s, steps[0]), steps[1..], s')
  }

  ghost predicate Reachable(s: System) { exists steps :: Reaches(Initial(), steps, s) }

  // ---------------------------------------------------------- the invariant

  /** Frames that have left the rings: popped, discarded, or abandoned with a ring. */
  function Gone(s: System): int { s.pushed - |s.ring| }

  /** The read clock accounts for every frame that left the rings, minus seeks, plus frames the store made up. */
  predicate Conserved(s: System) {
    s.consumed + s.delivered == s.pushed - |s.ring| - s.discarded + s.storeFed
  }

  /** The ring holds the latest frames pushed, in order. */
  ghost predicate RingInOrder(s: System) {
    |s.ring| <= s.pushed && forall i :: 0 <= i < |s.ring| ==> s.ring[i] == Gone(s) + i
  }

  /** The write clock is the pushed count at the last packet boundary. */
  predicate WriteClock(s: System) {
    match s.packet
    case None => s.written == s.pushed
    case Some(n) => s.left <= n && s.written + (n - s.left) == s.pushed
  }

  ghost predicate Inv(s: System) {
    && Conserved(s) && RingInOrder(s) && WriteClock(s)
    && |s.ring| <= RING_FRAMES
    && (s.seen.None? ==> s.delivered == 0)
    && (s.seen.Some? ==> s.seen.value <= s.consumed)
    && StampsInOrder(s.markers, s.channel, s.written)
  }

  predicate Rising(stamps: seq<nat>) { forall i, j :: 0 <= i < j < |stamps| ==> stamps[i] <= stamps[j] }

  /** Stamps never go back, on either side of the forwarding, and never count frames not yet written. */
  predicate StampsInOrder(markers: seq<nat>, channel: seq<nat>, written: nat) {
    && Rising(markers) && Rising(channel)
    && (forall i, j :: 0 <= i < |markers| && 0 <= j < |channel| ==> markers[i] <= channel[j])
    && (forall i :: 0 <= i < |markers| ==> markers[i] <= written)
    && (forall j :: 0 <= j < |channel| ==> channel[j] <= written)
  }

  lemma Forwarded(markers: seq<nat>, channel: seq<nat>, written: nat)
    requires StampsInOrder(markers, channel, written) && channel != []
    ensures StampsInOrder(markers, channel[1..], written) && StampsInOrder(markers + [channel[0]], channel[1..], written)
  {}

  lemma Stamped(markers: seq<nat>, channel: seq<nat>, written: nat)
    requires StampsInOrder(markers, channel, written)
    ensures StampsInOrder(markers, channel + [written], written)
    ensures StampsInOrder([], channel, written) && StampsInOrder([0], channel, written)
    ensures forall later :: written <= later ==> StampsInOrder(markers, channel, later)
  {}

  lemma Applied(markers: seq<nat>, channel: seq<nat>, written: nat)
    requires StampsInOrder(markers, channel, written) && markers != []
    ensures StampsInOrder(markers[1..], channel, written)
  {}

  lemma StampsKept(s: System, step: Step)
    requires StampsInOrder(s.markers, s.channel, s.written) && Enabled(s, step)
    ensures StampsInOrder(Next(s, step).markers, Next(s, step).channel, Next(s, step).written)
  {
    hide StampsInOrder;
    Stamped(s.markers, s.channel, s.written);
    if step.Forward? {
      Forwarded(s.markers, s.channel, s.written);
    } else if step.ApplyMarker? {
      Applied(s.markers, s.channel, s.written);
    }
  }

  lemma StepKeepsInv(s: System, step: Step)
    requires Inv(s) && Enabled(s, step)
    ensures Inv(Next(s, step))
  {
    hide StampsInOrder;
    StampsKept(s, step);
  }

  lemma {:induction false} RunKeepsInv(s: System, steps: seq<Step>, s': System)
    requires Inv(s) && Reaches(s, steps, s')
    ensures Inv(s')
    decreases |steps|
  {
    if steps != [] {
      StepKeepsInv(s, steps[0]);
      RunKeepsInv(Next(s, steps[0]), steps[1..], s');
    }
  }

  /** In every run, across any number of swaps, the read clock conserves frames and the ring holds the latest ones. */
  lemma FramesAreConserved(s: System)
    requires Reachable(s)
    ensures Conserved(s) && RingInOrder(s) && WriteClock(s) && |s.ring| <= RING_FRAMES
  {
    var steps :| Reaches(Initial(), steps, s);
    RunKeepsInv(Initial(), steps, s);
  }

  // ----------------------------------------------------- when markers apply

  /** A marker stamped `w` and first in line is applied by a fill that starts now. */
  predicate DueNow(s: System, w: nat) { w <= s.consumed }

  /** Between fills, a stamp is due exactly when as many frames as it counts, plus discards, minus store frames, left. */
  lemma DueExactly(s: System, w: nat)
    requires Reachable(s) && s.seen.None?
    ensures DueNow(s, w) <==> w + s.discarded <= Gone(s) + s.storeFed
  {
    var steps :| Reaches(Initial(), steps, s);
    RunKeepsInv(Initial(), steps, s);
  }

  /** No frame before `w` is still waiting in a ring, and `w` frames have been pushed. */
  ghost predicate AllGoneBefore(s: System, w: nat) { w <= s.pushed && forall f :: f in s.ring ==> f >= w }

  /**
   * A marker is applied only when every frame written before it has left the rings, give or take what seeks discarded
   * and the store made up; its stamp counts frames really written.
   */
  lemma AppliedOnTime(s: System)
    requires Reachable(s) && Enabled(s, ApplyMarker)
    ensures s.markers[0] <= s.written && forall w :: w in s.markers || w in s.channel ==> s.markers[0] <= w
    ensures s.markers[0] + s.discarded <= Gone(s) + s.storeFed
    ensures s.storeFed <= s.discarded ==> AllGoneBefore(s, s.markers[0])
  {
    var steps :| Reaches(Initial(), steps, s);
    RunKeepsInv(Initial(), steps, s);
  }

  /** Stamps are due exactly when their frames have left the rings, if and only if seeks and the store cancel out. */
  lemma MarkersOnTimeIff(s: System)
    requires Reachable(s) && s.seen.None?
    ensures (forall w: nat :: DueNow(s, w) <==> AllGoneBefore(s, w)) <==> s.discarded == s.storeFed
  {
    FramesAreConserved(s);
    DueExactly(s, 0);
    forall w: nat ensures AllGoneBefore(s, w) <==> w <= Gone(s) {
      GoneBefore(s, w);
    }
    var steps :| Reaches(Initial(), steps, s);
    RunKeepsInv(Initial(), steps, s);
    if s.discarded != s.storeFed {
      assert DueNow(s, s.consumed) && AllGoneBefore(s, Gone(s));
      assert !(DueNow(s, Gone(s)) && AllGoneBefore(s, s.consumed));
    }
  }

  lemma GoneBefore(s: System, w: nat)
    requires RingInOrder(s)
    ensures AllGoneBefore(s, w) <==> w <= Gone(s)
  {
    if s.ring != [] && AllGoneBefore(s, w) {
      assert s.ring[0] in s.ring;
    }
  }

  /** A re-attached real-time half finds its first marker due in the very next fill, whatever the clocks say. */
  lemma ReattachAppliesAtOnce(s: System)
    requires Enabled(s, Attach(true))
    ensures var s1 := Next(s, Attach(true));
            && |s1.markers| == 1 && DueNow(s1, s1.markers[0])
            && Enabled(s1, BeginFill) && Enabled(Next(s1, BeginFill), ApplyMarker)
            && Readable(s1) == [] && Next(s, Attach(false)).markers == []
  {}

  predicate NoSeekNoStore(steps: seq<Step>) {
    forall i :: 0 <= i < |steps| ==> !steps[i].SeekDiscard? && !steps[i].StoreFrameOnEmpty?
  }

  lemma {:induction false} NothingMadeUp(s: System, steps: seq<Step>, s': System)
    requires Reaches(s, steps, s') && NoSeekNoStore(steps)
    ensures s'.discarded == s.discarded && s'.storeFed == s.storeFed
    decreases |steps|
  {
    if steps != [] {
      assert !steps[0].SeekDiscard? && !steps[0].StoreFrameOnEmpty?;
      NothingMadeUp(Next(s, steps[0]), steps[1..], s');
    }
  }

  /** Without seeks and store frames, markers are applied neither early nor late, however often rings are swapped. */
  lemma PlainRunsKeepMarkersOnTime(steps: seq<Step>, s: System)
    requires Reaches(Initial(), steps, s) && NoSeekNoStore(steps)
    ensures s.consumed + s.delivered == Gone(s)
    ensures Enabled(s, ApplyMarker) ==> AllGoneBefore(s, s.markers[0])
    ensures s.seen.None? ==> forall w: nat :: DueNow(s, w) <==> AllGoneBefore(s, w)
  {
    NothingMadeUp(Initial(), steps, s);
    RunKeepsInv(Initial(), steps, s);
    if s.seen.None? {
      MarkersOnTimeIff(s);
    }
  }

  lemma {:induction false} ReachesOneMore(s: System, steps: seq<Step>, s': System, step: Step)
    requires Reaches(s, steps, s') && Enabled(s', step)
    ensures Reaches(s, steps + [step], Next(s', step))
    decreases |steps|
  {
    hide Enabled, Next;
    if steps == [] {
      assert Reaches(Next(s, step), [], Next(s, step));
    } else {
      assert (steps + [step])[1..] == steps[1..] + [step];
      ReachesOneMore(Next(s, steps[0]), steps[1..], s', step);
    }
  }

  lemma Extend(s: System, step: Step) returns (s': System)
    requires Reachable(s) && Enabled(s, step)
    ensures Reachable(s') && s' == Next(s, step)
  {
    var steps :| Reaches(Initial(), steps, s);
    ReachesOneMore(Initial(), steps, s, step);
    s' := Next(s, step);
  }

  lemma Start() returns (s: System)
    ensures Reachable(s) && s == Initial()
  {
    s := Initial();
    assert Reaches(s, [], s);
  }

  /** One packet of one frame, and a marker after it, forwarded at once. */
  lemma OneFrameThenMarker(s: System) returns (s': System)
    requires Reachable(s) && s.packet.None? && s.ring == [] && s.markers == [] && s.channel == []
    ensures Reachable(s')
    ensures s' == s.(ring := [s.pushed], pushed := s.pushed + 1, written := s.written + 1,
                       markers := [s.written + 1], left := 0)
  {
    hide Reachable;
    s' := Extend(s, BeginPacket(1));
    s' := Extend(s', PushFrame);
    s' := Extend(s', EndPacket);
    s' := Extend(s', Stamp);
    s' := Extend(s', Forward(true));
  }

  /** A seek makes markers late: the frame it threw away is gone, yet the stamp right after it is not due. */
  lemma SeekMakesMarkersLate() returns (s: System)
    ensures Reachable(s) && s.seen.None? && s.markers == [1] && AllGoneBefore(s, 1) && !DueNow(s, 1)
  {
    hide Reachable;
    s := Start();
    s := OneFrameThenMarker(s);
    s := Extend(s, SeekDiscard);
  }

  /** The store feeding an empty ring makes them early: the frame before the stamp is still to be played. */
  lemma StoreFeedMakesMarkersEarly() returns (s: System)
    ensures Reachable(s) && s.seen.None? && s.markers == [1] && !AllGoneBefore(s, 1) && DueNow(s, 1)
  {
    hide Reachable;
    s := Start();
    s := Extend(s, BeginFill);
    s := Extend(s, StoreFrameOnEmpty);
    s := Extend(s, EndFill);
    s := OneFrameThenMarker(s);
    assert s.ring == [0] && 0 in s.ring;
  }
}
