/** The real-time half: it applies due markers, then fills the output from the store or the ring. */
module RtSource {
  import opened Prelude
  import opened StoreModel
  import opened DecodedStores
  import opened RtModel
  import Retirement

  datatype MarkerKind = TrackStart(store: DecodedStore) | TrackEnd | Reposition | Reattach(store: DecodedStore)

  datatype Marker = Marker(kind: MarkerKind, atWrittenFrame: nat, positionFrames: nat)

  /** The counters shared with the worker and the host. */
  class SourceRtShared {
    var underrun: bool
    var trackSeq: nat
    var ringFillFrames: nat
    var consumedFrames: nat

    constructor ()
      ensures !underrun && trackSeq == 0 && ringFillFrames == 0 && consumedFrames == 0
    {
      underrun, trackSeq, ringFillFrames, consumedFrames := false, 0, 0, 0;
    }
  }

  // ------------------------------------------------------- marker handling

  const U32 := 0x1_0000_0000

  /** What markers act on. */
  datatype Position = Position(
    cursor: nat,
    trackSeq: nat,
    announcedSeq: nat,
    feed: Feed,
    ringPos: Option<nat>,
    store: Option<DecodedStore>,
    retired: seq<DecodedStore>,
    parked: Option<DecodedStore>)

  function Retiring(p: Position, store: DecodedStore): Position {
    if |p.retired| < Retirement.RETIRED_CAPACITY then p.(retired := p.retired + [store]) else p.(parked := Some(store))
  }

  /** The new store takes the slot; a replaced one is moved to the retirement ring, never dropped. */
  function Replacing(p: Position, store: DecodedStore): Position {
    if p.store.Some? then Retiring(p.(store := Some(store)), p.store.value) else p.(store := Some(store))
  }

  function Apply(p: Position, m: Marker): Position {
    match m.kind
    case TrackStart(store) =>
      var seqNo := (p.trackSeq + 1) % U32;
      Replacing(p, store).(trackSeq := seqNo, announcedSeq := seqNo, cursor := 0, feed := Ring, ringPos := None)
    case Reposition =>
      p.(ringPos := Some(m.positionFrames), cursor := if p.feed == Ring then m.positionFrames else p.cursor)
    case TrackEnd => p
    case Reattach(store) => Replacing(p, store)
  }

  /** The leading markers that are due once `consumed` frames are. */
  function DueCount(markers: seq<Marker>, consumed: nat): (n: nat)
    ensures n <= |markers|
    ensures forall i :: 0 <= i < n ==> markers[i].atWrittenFrame <= consumed
    ensures n < |markers| ==> markers[n].atWrittenFrame > consumed
  {
    if markers == [] || markers[0].atWrittenFrame > consumed then 0 else 1 + DueCount(markers[1..], consumed)
  }

  function ApplyAll(p: Position, markers: seq<Marker>): Position {
    if markers == [] then p else Apply(ApplyAll(p, markers[..|markers| - 1]), markers[|markers| - 1])
  }

  lemma NoneApplied(p: Position, markers: seq<Marker>)
    ensures ApplyAll(p, markers[..0]) == p
  {}

  lemma OneMoreApplied(p: Position, markers: seq<Marker>, n: nat)
    requires n < |markers|
    ensures ApplyAll(p, markers[..n + 1]) == Apply(ApplyAll(p, markers[..n]), markers[n])
  {
    hide Apply;
    assert markers[..n + 1][..n] == markers[..n];
  }

  function Retried(p: Position): Position {
    if p.parked.Some? then Retiring(p.(parked := None), p.parked.value) else p
  }

  ghost predicate StoreReady(store: Option<DecodedStore>)
    reads if store.Some? then {store.value, store.value.filled, store.value.words} else {}
  {
    store.Some? ==> store.value.Valid()
  }

  ghost function ViewOf(store: Option<DecodedStore>): Option<View>
    reads if store.Some? then {store.value, store.value.filled, store.value.words} else {}
    ensures StoreReady(store) ==> ReadyStore(ViewOf(store))
  {
    if store.Some? then Some(store.value.Value()) else None
  }

  function BroughtBy(m: Marker): Option<DecodedStore> {
    match m.kind
    case TrackStart(store) => Some(store)
    case Reattach(store) => Some(store)
    case _ => None
  }

  /** Whatever markers are applied, the store they leave is one they brought or the one there before. */
  lemma {:induction false} StoreComesFrom(p: Position, markers: seq<Marker>)
    ensures ApplyAll(p, markers).store == p.store || exists m :: m in markers && BroughtBy(m) == ApplyAll(p, markers).store
  {
    if markers != [] {
      var front, last := markers[..|markers| - 1], markers[|markers| - 1];
      StoreComesFrom(p, front);
      assert last in markers && forall m :: m in front ==> m in markers;
    }
  }

  /** The store that the last of these markers brings, if any does. */
  function LastBrought(markers: seq<Marker>): Option<DecodedStore> {
    if markers == [] then None
    else if BroughtBy(markers[|markers| - 1]).Some? then BroughtBy(markers[|markers| - 1])
    else LastBrought(markers[..|markers| - 1])
  }

  /** Where the last track start or reposition puts the ring: a track start at no known place. */
  function LastPlaced(markers: seq<Marker>): Option<Option<nat>> {
    if markers == [] then None
    else
      var m := markers[|markers| - 1];
      if m.kind.TrackStart? then Some(None)
      else if m.kind.Reposition? then Some(Some(m.positionFrames))
      else LastPlaced(markers[..|markers| - 1])
  }

  function TrackStarts(markers: seq<Marker>): (n: nat)
    ensures n <= |markers|
  {
    if markers == [] then 0
    else TrackStarts(markers[..|markers| - 1]) + if markers[|markers| - 1].kind.TrackStart? then 1 else 0
  }

  /**
   * What markers leave, whatever came before: the last store brought; the ring where the last track start or reposition
   * put it; on the ring feed, which every track start goes back to, the cursor there too.
   */
  lemma {:induction false} MarkersSetThePosition(p: Position, markers: seq<Marker>)
    ensures var (p', placed) := (ApplyAll(p, markers), LastPlaced(markers));
            && p'.store == (if LastBrought(markers).Some? then LastBrought(markers) else p.store)
            && p'.ringPos == (if placed.Some? then placed.value else p.ringPos)
            && p'.feed == (if TrackStarts(markers) > 0 then Ring else p.feed)
            && p'.cursor == (if p'.feed == Store || placed.None? then p.cursor
                             else if placed.value.Some? then placed.value.value else 0)
  {
    if markers != [] {
      MarkersSetThePosition(p, markers[..|markers| - 1]);
    }
  }

  /** Every track start is counted, in 32 bits, and announced. */
  lemma {:induction false} MarkersCountTracks(p: Position, markers: seq<Marker>)
    requires p.trackSeq < 0x1_0000_0000
    ensures var p' := ApplyAll(p, markers);
            && p'.trackSeq == (p.trackSeq + TrackStarts(markers)) % 0x1_0000_0000
            && (TrackStarts(markers) > 0 ==> p'.announcedSeq == p'.trackSeq)
            && (TrackStarts(markers) == 0 ==> p'.announcedSeq == p.announcedSeq)
  {
    if markers != [] {
      MarkersCountTracks(p, markers[..|markers| - 1]);
    }
  }

  /** A store that is replaced goes to the end of the retirement ring, or is parked when the ring is full. */
  lemma ReplacedStoreIsKept(p: Position, m: Marker)
    ensures BroughtBy(m).Some? && p.store.Some? ==>
              var p' := Apply(p, m);
              if |p.retired| < 65 then p'.retired == p.retired + [p.store.value] && p'.parked == p.parked
              else p'.retired == p.retired && p'.parked == p.store
    ensures BroughtBy(m).None? || p.store.None? ==> Apply(p, m).retired == p.retired && Apply(p, m).parked == p.parked
    ensures var p' := Retried(p);
            && (p.parked.Some? && |p.retired| < 65 ==> p'.retired == p.retired + [p.parked.value] && p'.parked.None?)
            && (p.parked.None? || |p.retired| >= 65 ==> p' == p)
  {}

  lemma InterleavedAppend(frames: seq<Frame>, f: Frame)
    ensures Interleaved(frames + [f]) == Interleaved(frames) + [f.0, f.1]
  {
    assert (frames + [f])[..|frames|] == frames;
  }

  // ---------------------------------------------------- the filling loop

  /** With `got` already in the output, `s` has the rest of the delivery `all` still to come. */
  ghost predicate Underway(store: Option<View>, all: Delivery, out: seq<Sample>, got: seq<Frame>, s: FeedState, needed: nat)
    requires ReadyStore(store)
  {
    && |got| <= needed && 2 * needed <= |out| && out[..2 * |got|] == Interleaved(got)
    && var rest := Deliver(store, s, needed - |got|); all.frames == got + rest.frames && all.state == rest.state
  }

  lemma AtFirst(store: Option<View>, s: FeedState, out: seq<Sample>, needed: nat)
    requires ReadyStore(store) && 2 * needed <= |out|
    ensures Underway(store, Deliver(store, s, needed), out, [], s, needed)
  {
    hide Deliver;
    assert out[..0] == Interleaved([]);
  }

  lemma OneMoreFrame(store: Option<View>, all: Delivery, before: seq<Sample>, after: seq<Sample>, got: seq<Frame>,
                     frame: Frame, s: FeedState, again: bool, s': FeedState, needed: nat)
    requires ReadyStore(store) && |got| < needed && Underway(store, all, before, got, s, needed)
    requires Turned(store, s, needed - |got|, Some(frame), again, s')
    requires |after| == |before| && after[..2 * (|got| + 1)] == before[..2 * |got|] + [frame.0, frame.1]
    ensures Underway(store, all, after, got + [frame], s', needed)
  {
    hide Deliver;
    InterleavedAppend(got, frame);
    var rest := Deliver(store, s', needed - |got| - 1);
    assert got + ([frame] + rest.frames) == got + [frame] + rest.frames;
  }

  lemma OtherFeed(store: Option<View>, all: Delivery, out: seq<Sample>, got: seq<Frame>, s: FeedState, s': FeedState,
                  needed: nat)
    requires ReadyStore(store) && |got| < needed && Underway(store, all, out, got, s, needed)
    requires Turned(store, s, needed - |got|, None, true, s')
    ensures Underway(store, all, out, got, s', needed) && Rank(store, s') < Rank(store, s)
  {
    hide Deliver;
  }

  lemma NothingLeft(store: Option<View>, all: Delivery, out: seq<Sample>, got: seq<Frame>, s: FeedState, s': FeedState,
                    needed: nat)
    requires ReadyStore(store) && |got| < needed && Underway(store, all, out, got, s, needed)
    requires Turned(store, s, needed - |got|, None, false, s')
    ensures 2 * |got| <= |out| && out[..2 * |got|] == Interleaved(got) && all.frames == got && all.state == s'
  {
    hide Deliver;
  }

  lemma AllWanted(store: Option<View>, all: Delivery, out: seq<Sample>, got: seq<Frame>, s: FeedState, needed: nat)
    requires ReadyStore(store) && |got| == needed && Underway(store, all, out, got, s, needed)
    ensures out[..2 * |got|] == Interleaved(got) && all.frames == got && all.state == s
  {}

  /** The output: exactly these frames, then silence to the last whole frame. */
  ghost predicate Output(out: seq<Sample>, frames: seq<Frame>) {
    && 2 * |frames| <= |out| && out[..2 * |frames|] == Interleaved(frames)
    && forall i :: 2 * |frames| <= i < |out| / 2 * 2 ==> out[i] == 0.0
  }

  lemma FirstRead(v: View, from: nat, out: seq<Sample>)
    requires WellFormed(v) && |out| == 2 && ReadsAs(v, from, out, 1)
    ensures SamplePair(v, from) == Some((out[0], out[1]))
  {
    assert SamplePair(v, from + 0) == Some((out[2 * 0], out[2 * 0 + 1]));
  }

  class ConnectRtSource {
    var samples: seq<Sample>
    var markers: seq<Marker>
    const shared: SourceRtShared
    var cursor: nat
    var trackSeq: nat
    var feed: Feed
    var ringPos: Option<nat>
    var store: Option<DecodedStore>
    var retired: seq<DecodedStore>
    var parked: Option<DecodedStore>

    ghost function Now(): Position
      reads this, shared
    {
      Position(cursor, trackSeq, shared.trackSeq, feed, ringPos, store, retired, parked)
    }

    ghost function FeedNow(): FeedState
      reads this
    {
      FeedState(samples, cursor, feed, ringPos)
    }

    constructor (shared: SourceRtShared, positionFrames: nat)
      ensures this.shared == shared && samples == [] && markers == []
      ensures Now() == Position(positionFrames, shared.trackSeq, shared.trackSeq, Ring, None, None, [], None)
    {
      this.shared := shared;
      samples, markers, cursor, trackSeq := [], [], positionFrames, shared.trackSeq;
      feed, ringPos, store, retired, parked := Ring, None, None, [], None;
    }

    method Retire(old_: DecodedStore)
      modifies this`retired, this`parked
      ensures Now() == Retiring(old(Now()), old_)
    {
      if |retired| < Retirement.RETIRED_CAPACITY {
        retired := retired + [old_];
      } else {
        parked := Some(old_);
      }
    }

    method RetryParked()
      modifies this`retired, this`parked
      ensures Now() == Retried(old(Now()))
    {
      if parked.Some? {
        var waiting := parked.value;
        parked := None;
        Retire(waiting);
      }
    }

    method Replace(newStore: DecodedStore)
      modifies this`store, this`retired, this`parked
      ensures Now() == Replacing(old(Now()), newStore)
    {
      var replaced := store;
      store := Some(newStore);
      if replaced.Some? {
        Retire(replaced.value);
      }
    }

    method ApplyMarker(marker: Marker)
      modifies this`cursor, this`trackSeq, this`feed, this`ringPos, this`store, this`retired, this`parked
      modifies shared`trackSeq
      ensures Now() == Apply(old(Now()), marker)
    {
      match marker.kind {
        case TrackStart(newStore) =>
          Replace(newStore);
          trackSeq := (trackSeq + 1) % U32;
          shared.trackSeq := trackSeq;
          cursor := 0;
          feed := Ring;
          ringPos := None;
        case Reposition =>
          ringPos := Some(marker.positionFrames);
          if feed == Ring {
            cursor := marker.positionFrames;
          }
        case TrackEnd =>
        case Reattach(newStore) =>
          Replace(newStore);
      }
    }

    method ApplyDueMarkers()
      modifies this`markers, this`cursor, this`trackSeq, this`feed, this`ringPos, this`store, this`retired, this`parked
      modifies shared`trackSeq
      ensures var n := DueCount(old(markers), shared.consumedFrames);
              Now() == ApplyAll(old(Now()), old(markers)[..n]) && markers == old(markers)[n..]
    {
      var consumed := shared.consumedFrames;
      ghost var all, n := markers, 0;
      hide Apply, ApplyAll, DueCount;
      NoneApplied(Now(), all);
      while markers != [] && markers[0].atWrittenFrame <= consumed
        invariant n <= |all| && markers == all[n..]
        invariant forall i :: 0 <= i < n ==> all[i].atWrittenFrame <= consumed
        invariant Now() == ApplyAll(old(Now()), all[..n])
        decreases |markers|
      {
        var marker := markers[0];
        markers := markers[1..];
        OneMoreApplied(old(Now()), all, n);
        ApplyMarker(marker);
        n := n + 1;
      }
      assert n == DueCount(all, consumed);
    }

    method Seek(frame: nat)
      requires StoreReady(store)
      modifies this`samples, this`cursor, this`ringPos, this`feed
      ensures FeedNow() == Seeked(ViewOf(store), old(FeedNow()), frame)
    {
      while samples != []
        decreases |samples|
      {
        samples := samples[1..];
      }
      cursor := frame;
      ringPos := None;
      feed := if store.Some? && store.value.CoversFrame(frame) then Store else Ring;
    }

    /** The store's frame at the cursor. */
    method ReadOne() returns (frame: Frame)
      requires StoreReady(store) && CoversAt(ViewOf(store), cursor)
      ensures StoreReady(store) && ViewOf(store) == old(ViewOf(store)) && CoversAt(ViewOf(store), cursor)
      ensures frame == StoreFrame(ViewOf(store), cursor)
    {
      var oneFrame := new Sample[2];
      var copied := store.value.ReadFrames(cursor, oneFrame);
      assert oneFrame.Length / 2 == 1;
      assert ViewOf(store) == old(ViewOf(store));
      assert copied == 1;
      FirstRead(store.value.Value(), cursor, oneFrame[..]);
      return (oneFrame[0], oneFrame[1]);
    }

    /** One pass of the loop: a frame, a change of feed (`again`), or the end. */
    method Step(ghost n: nat) returns (frame: Option<Frame>, again: bool)
      requires StoreReady(store) && n > 0
      modifies this`samples, this`cursor, this`feed
      ensures StoreReady(store) && ViewOf(store) == old(ViewOf(store))
      ensures Turned(ViewOf(store), old(FeedNow()), n, frame, again, FeedNow())
    {
      hide WellFormed, Covers;
      if feed == Store {
        if store.None? || !store.value.CoversFrame(cursor) {
          feed := Ring;
          cursor := if ringPos.Some? then ringPos.value else cursor;
          return None, true;
        }
        var read := ReadOne();
        samples := if |samples| >= 2 then samples[2..] else [];
        cursor := cursor + 1;
        return Some(read), false;
      } else if |samples| >= 2 {
        var popped := (samples[0], samples[1]);
        samples := samples[2..];
        cursor := cursor + 1;
        return Some(popped), false;
      }
      samples := [];
      if store.Some? && store.value.CoversFrame(cursor) {
        feed := Store;
        return None, true;
      }
      return None, false;
    }

    method PutFrame(out: array<Sample>, at: nat, frame: Frame)
      requires 2 * at + 2 <= out.Length && StoreReady(store)
      requires store.Some? ==> out != store.value.words
      modifies out
      ensures StoreReady(store) && ViewOf(store) == old(ViewOf(store))
      ensures out[..2 * (at + 1)] == old(out[..2 * at]) + [frame.0, frame.1]
    {
      out[2 * at], out[2 * at + 1] := frame.0, frame.1;
      assert store.Some? ==> store.value.words[..] == old(store.value.words[..])
                             && store.value.filled[..] == old(store.value.filled[..]);
    }

    /** Frames until the output has `needed`, or nothing is left to deliver. */
    method DeliverInto(out: array<Sample>, needed: nat) returns (delivered: nat)
      requires 2 * needed <= out.Length && StoreReady(store)
      requires store.Some? ==> out != store.value.words
      modifies out, this`samples, this`cursor, this`feed
      ensures StoreReady(store) && ViewOf(store) == old(ViewOf(store))
      ensures var d := Deliver(ViewOf(store), old(FeedNow()), needed);
              && FeedNow() == d.state && delivered == |d.frames|
              && out[..2 * delivered] == Interleaved(d.frames)
    {
      ghost var view := ViewOf(store);
      ghost var all := Deliver(view, FeedNow(), needed);
      ghost var got: seq<Frame> := [];
      hide WellFormed, Deliver, Rank, ReadyStore, StoreReady, ViewOf, FeedNow, Underway, Turned;
      delivered := 0;
      AtFirst(view, FeedNow(), out[..], needed);
      while delivered < needed
        invariant delivered == |got| <= needed && StoreReady(store) && ViewOf(store) == view
        invariant Underway(view, all, out[..], got, FeedNow(), needed)
        decreases needed - delivered, Rank(view, FeedNow())
      {
        ghost var (before, old_) := (FeedNow(), out[..]);
        var frame, again := Step(needed - delivered);
        if frame.None? {
          if again {
            OtherFeed(view, all, out[..], got, before, FeedNow(), needed);
            continue;
          }
          NothingLeft(view, all, out[..], got, before, FeedNow(), needed);
          return;
        }
        PutFrame(out, delivered, frame.value);
        OneMoreFrame(view, all, old_, out[..], got, frame.value, before, again, FeedNow(), needed);
        got := got + [frame.value];
        delivered := delivered + 1;
      }
      AllWanted(view, all, out[..], got, FeedNow(), needed);
    }

    /** Zero both channels of the frames from `from` up to `to`. */
    method Silence(out: array<Sample>, from: nat, to: nat)
      requires from <= to && 2 * to <= out.Length && StoreReady(store)
      requires store.Some? ==> out != store.value.words
      modifies out
      ensures StoreReady(store) && ViewOf(store) == old(ViewOf(store))
      ensures out[..2 * from] == old(out[..2 * from])
      ensures forall i :: 2 * from <= i < 2 * to ==> out[i] == 0.0
    {
      for i := from to to
        invariant out[..2 * from] == old(out[..2 * from])
        invariant forall k :: 2 * from <= k < 2 * i ==> out[k] == 0.0
      {
        out[2 * i], out[2 * i + 1] := 0.0, 0.0;
      }
      assert store.Some? ==> store.value.words[..] == old(store.value.words[..])
                             && store.value.filled[..] == old(store.value.filled[..]);
    }

    /** Frames, then silence for whatever is missing. */
    method FillFrames(out: array<Sample>) returns (delivered: nat)
      requires StoreReady(store)
      requires store.Some? ==> out != store.value.words
      modifies out, this`samples, this`cursor, this`feed, shared`underrun
      ensures StoreReady(store) && ViewOf(store) == old(ViewOf(store))
      ensures var d := Deliver(ViewOf(store), old(FeedNow()), out.Length / 2);
              && FeedNow() == d.state && delivered == |d.frames| && Output(out[..], d.frames)
              && shared.underrun == (old(shared.underrun) || |d.frames| < out.Length / 2)
    {
      hide WellFormed, Deliver;
      var needed := out.Length / 2;
      delivered := DeliverInto(out, needed);
      if delivered < needed {
        Silence(out, delivered, needed);
        shared.underrun := true;
      }
    }

    /** One callback's worth: retry, markers, frames, silence, and the counters. */
    method Fill(out: array<Sample>)
      requires StoreReady(store) && (store.Some? ==> out != store.value.words)
      requires forall m :: m in markers && BroughtBy(m).Some? ==> BroughtBy(m).value.Valid()
      requires forall m :: m in markers && BroughtBy(m).Some? ==> out != BroughtBy(m).value.words
      modifies out, this, shared
      ensures var n := DueCount(old(markers), old(shared.consumedFrames));
              var p := ApplyAll(Retried(old(Now())), old(markers)[..n]);
              && StoreReady(p.store)
              && var d := Deliver(ViewOf(p.store), FeedState(old(samples), p.cursor, p.feed, p.ringPos), out.Length / 2);
                 && FeedNow() == d.state
                 && Now() == p.(cursor := d.state.cursor, feed := d.state.feed)
                 && markers == old(markers)[n..]
                 && Output(out[..], d.frames)
                 && shared.consumedFrames == old(shared.consumedFrames) + |d.frames|
                 && shared.underrun == (old(shared.underrun) || |d.frames| < out.Length / 2)
                 && shared.ringFillFrames == |samples|
    {
      hide DueCount, ApplyAll, Deliver, WellFormed;
      ghost var n := DueCount(markers, shared.consumedFrames);
      ghost var p := ApplyAll(Retried(Now()), markers[..n]);
      StoreComesFrom(Retried(Now()), markers[..n]);
      RetryParked();
      ApplyDueMarkers();
      var delivered := FillFrames(out);
      shared.consumedFrames := shared.consumedFrames + delivered;
      shared.ringFillFrames := |samples|;
    }
  }
}
