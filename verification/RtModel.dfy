/** What one `fill` delivers, as a function of the feed state and the store it reads. */
module RtModel {
  import opened Prelude
  import opened StoreModel
  import DecodeAhead

  datatype Feed = Ring | Store

  /** The sample ring's contents and where the real-time half stands. */
  datatype FeedState = FeedState(samples: seq<Sample>, cursor: nat, feed: Feed, ringPos: Option<nat>)

  ghost predicate ReadyStore(store: Option<View>) { store.Some? ==> WellFormed(store.value) }

  predicate CoversAt(store: Option<View>, f: nat) { store.Some? && Covers(store.value, f) }

  function StoreFrame(store: Option<View>, f: nat): Frame
    requires ReadyStore(store) && CoversAt(store, f)
  {
    SamplePair(store.value, f).value
  }

  /** The ring after taking one frame off it, as far as it has one. */
  function PopFrame(samples: seq<Sample>): seq<Sample> { if |samples| >= 2 then samples[2..] else [] }

  /** Store exhausted: back to the ring, at its own position if that is known. */
  function FallBack(s: FeedState): FeedState {
    s.(feed := Ring, cursor := if s.ringPos.Some? then s.ringPos.value else s.cursor)
  }

  /** How far a state is from delivering: an exhausted store falls back to the ring, which a store may then rescue. */
  function Rank(store: Option<View>, s: FeedState): nat {
    if s.feed == Store then (if CoversAt(store, s.cursor) then 0 else 2) else 1
  }

  /** The frames delivered, the position each was delivered at, and the state after them. */
  datatype Delivery = Delivery(state: FeedState, frames: seq<Frame>, at: seq<nat>)

  function Prepend(frame: Frame, position: nat, d: Delivery): Delivery {
    Delivery(d.state, [frame] + d.frames, [position] + d.at)
  }

  /** Up to `n` frames. Every path out of this recursion is a frame or the end. */
  ghost function Deliver(store: Option<View>, s: FeedState, n: nat): (d: Delivery)
    requires ReadyStore(store)
    ensures |d.frames| == |d.at| <= n
    decreases n, Rank(store, s)
  {
    if n == 0 then Delivery(s, [], [])
    else if s.feed == Store then
      if !CoversAt(store, s.cursor) then Deliver(store, FallBack(s), n)
      else
        Prepend(StoreFrame(store, s.cursor), s.cursor,
                Deliver(store, s.(samples := PopFrame(s.samples), cursor := s.cursor + 1), n - 1))
    else if |s.samples| >= 2 then
      Prepend((s.samples[0], s.samples[1]), s.cursor,
              Deliver(store, s.(samples := s.samples[2..], cursor := s.cursor + 1), n - 1))
    else if CoversAt(store, s.cursor) then Deliver(store, s.(samples := [], feed := Store), n)
    else Delivery(s.(samples := []), [], [])
  }

  /** One turn of the loop: a frame, a change of feed that brings it nearer, or the end. */
  ghost predicate Turned(store: Option<View>, s: FeedState, n: nat, frame: Option<Frame>, again: bool, s': FeedState)
    requires ReadyStore(store) && n > 0
  {
    if frame.Some? then Deliver(store, s, n) == Prepend(frame.value, s.cursor, Deliver(store, s', n - 1))
    else if again then Deliver(store, s, n) == Deliver(store, s', n) && Rank(store, s') < Rank(store, s)
    else Deliver(store, s, n) == Delivery(s', [], [])
  }

  function Seeked(store: Option<View>, s: FeedState, frame: nat): FeedState {
    FeedState([], frame, if CoversAt(store, frame) then Store else Ring, None)
  }

  /** Interleaved samples of `frames`. */
  function Interleaved(frames: seq<Frame>): (r: seq<Sample>)
    ensures |r| == 2 * |frames|
    ensures forall i :: 0 <= i < |frames| ==> r[2 * i] == frames[i].0 && r[2 * i + 1] == frames[i].1
  {
    if frames == [] then []
    else
      var front := Interleaved(frames[..|frames| - 1]);
      assert forall i :: 0 <= i < |frames| - 1 ==> frames[..|frames| - 1][i] == frames[i];
      front + [frames[|frames| - 1].0, frames[|frames| - 1].1]
  }

  // ---------------------------------------------------------- what it means

  /** On the store feed with everything wanted covered, a fill is sample-exact, whatever the ring holds. */
  lemma {:induction false} StoreFeedIsExact(store: Option<View>, s: FeedState, n: nat)
    requires ReadyStore(store) && s.feed == Store
    requires forall f :: s.cursor <= f < s.cursor + n ==> CoversAt(store, f)
    ensures var d := Deliver(store, s, n);
            && |d.frames| == n && d.state.cursor == s.cursor + n && d.state.feed == Store
            && forall i :: 0 <= i < n ==> d.frames[i] == StoreFrame(store, s.cursor + i)
    decreases n
  {
    if n > 0 {
      var next := s.(samples := PopFrame(s.samples), cursor := s.cursor + 1);
      StoreFeedIsExact(store, next, n - 1);
    }
  }

  /** A seek empties the ring and forgets where it stood; it is on the store feed exactly if the target is covered. */
  lemma SeekLeaves(store: Option<View>, s: FeedState, frame: nat)
    ensures var s' := Seeked(store, s, frame);
            && s'.samples == [] && s'.cursor == frame && s'.ringPos.None?
            && (s'.feed == Store <==> store.Some? && Covers(store.value, frame))
  {}

  /** An exhausted store hands over to the ring at the ring's own position, or at the cursor if that is not known. */
  lemma HandsOverToTheRing(store: Option<View>, s: FeedState, n: nat)
    requires ReadyStore(store) && n > 0 && s.feed == Store && !CoversAt(store, s.cursor) && |s.samples| >= 2
    ensures var d := Deliver(store, s, n);
            && d.frames != [] && d.frames[0] == (s.samples[0], s.samples[1])
            && d.at[0] == match s.ringPos case Some(p) => p case None => s.cursor
  {
    var next := FallBack(s);
    assert Deliver(store, s, n) == Deliver(store, next, n);
    assert Deliver(store, next, n) == Prepend((s.samples[0], s.samples[1]), next.cursor,
                                              Deliver(store, next.(samples := s.samples[2..], cursor := next.cursor + 1),
                                                      n - 1));
  }

  /** After a seek into covered frames, a fill plays exactly the covered frames from the target on. */
  lemma SeekThenFillIsExact(store: Option<View>, s: FeedState, frame: nat, n: nat)
    requires ReadyStore(store) && n > 0
    requires forall f :: frame <= f < frame + n ==> CoversAt(store, f)
    ensures var d := Deliver(store, Seeked(store, s, frame), n);
            && |d.frames| == n && d.state.cursor == frame + n
            && forall i :: 0 <= i < n ==> d.frames[i] == StoreFrame(store, frame + i)
  {
    assert CoversAt(store, frame);
    StoreFeedIsExact(store, Seeked(store, s, frame), n);
  }

  /** With a store that agrees with its track, that is the track itself from the target on. */
  lemma SeekPlaysTheTrack(v: View, s: FeedState, frame: nat, n: nat, track: DecodeAhead.Track)
    requires WellFormed(v) && DecodeAhead.Agrees(v, track) && n > 0
    requires forall f :: frame <= f < frame + n ==> Covers(v, f)
    ensures var d := Deliver(Some(v), Seeked(Some(v), s, frame), n);
            && |d.frames| == n && d.state.cursor == frame + n
            && forall i :: 0 <= i < n ==> d.frames[i] == track(frame + i)
  {
    hide Deliver;
    SeekThenFillIsExact(Some(v), s, frame, n);
    var d := Deliver(Some(v), Seeked(Some(v), s, frame), n);
    forall i | 0 <= i < n ensures d.frames[i] == track(frame + i) {
      assert Covers(v, frame + i);
    }
  }

  // -------------------------------------------------------- frame alignment

  /** The first `|frames|` frames of the ring, pairing its samples two by two in order. */
  predicate Pairs(samples: seq<Sample>, frames: seq<Frame>) {
    forall i :: 0 <= i < |frames| ==> RingFrame(samples, i, frames[i])
  }

  lemma PairsLonger(samples: seq<Sample>, frames: seq<Frame>)
    requires |samples| >= 2 && Pairs(samples[2..], frames)
    ensures Pairs(samples, [(samples[0], samples[1])] + frames)
  {
    var all := [(samples[0], samples[1])] + frames;
    forall i | 0 <= i < |all| ensures RingFrame(samples, i, all[i]) {
      if i > 0 {
        assert RingFrame(samples[2..], i - 1, frames[i - 1]);
        assert samples[2..][2 * (i - 1)] == samples[2 * i] && samples[2..][2 * (i - 1) + 1] == samples[2 * i + 1];
      }
    }
  }

  /** A ring alone gives up its samples two by two, in order. */
  lemma {:induction false} RingPairs(samples: seq<Sample>, cursor: nat, n: nat)
    ensures var d := Deliver(None, FeedState(samples, cursor, Ring, None), n);
            |d.frames| == Min(n, |samples| / 2) && Pairs(samples, d.frames)
    decreases n
  {
    hide Pairs;
    if n > 0 && |samples| >= 2 {
      RingPairs(samples[2..], cursor + 1, n - 1);
      PairsLonger(samples, Deliver(None, FeedState(samples[2..], cursor + 1, Ring, None), n - 1).frames);
    } else {
      NoPairs(samples);
    }
  }

  lemma NoPairs(samples: seq<Sample>)
    ensures Pairs(samples, [])
  {}

  /** A ring whose first sample was taken alone pairs everything after it one sample off, the channels swapped. */
  lemma SplitFrameSwapsChannels(samples: seq<Sample>, cursor: nat, n: nat)
    requires samples != []
    ensures var d := Deliver(None, FeedState(samples[1..], cursor, Ring, None), n);
            && |d.frames| == Min(n, (|samples| - 1) / 2)
            && forall i :: 0 <= i < |d.frames| ==> d.frames[i] == (samples[2 * i + 1], samples[2 * i + 2])
  {
    RingPairs(samples[1..], cursor, n);
    hide Deliver;
    var d := Deliver(None, FeedState(samples[1..], cursor, Ring, None), n);
    forall i | 0 <= i < |d.frames| ensures d.frames[i] == (samples[2 * i + 1], samples[2 * i + 2]) {
      assert RingFrame(samples[1..], i, d.frames[i]);
    }
  }

  /** A ring after giving up `k` frames, as long as it lasts; a half frame at the end of it is lost. */
  function Drained(samples: seq<Sample>, k: nat): seq<Sample> { if 2 * k <= |samples| then samples[2 * k..] else [] }

  lemma DrainedFurther(samples: seq<Sample>, k: nat)
    ensures Drained(PopFrame(samples), k) == Drained(samples, k + 1)
    ensures Drained(samples, 0) == samples && Drained([], k) == [] && (|samples| < 2 ==> Drained(samples, k + 1) == [])
  {}

  /** On both feeds a fill leaves the ring without what was wanted of it, and delivers at least what the ring had. */
  lemma {:induction false} RingLeft(store: Option<View>, s: FeedState, n: nat)
    requires ReadyStore(store)
    ensures var d := Deliver(store, s, n);
            && d.state.samples == Drained(s.samples, n) && d.state.ringPos == s.ringPos
            && Min(n, |s.samples| / 2) <= |d.frames|
    decreases n, Rank(store, s)
  {
    hide Drained, ReadyStore, StoreFrame;
    DrainedFurther(s.samples, 0);
    if n > 0 {
      DrainedFurther(s.samples, n - 1);
    }
    if n == 0 {
    } else if s.feed == Store && !CoversAt(store, s.cursor) {
      RingLeft(store, FallBack(s), n);
    } else if s.feed == Store {
      RingLeft(store, s.(samples := PopFrame(s.samples), cursor := s.cursor + 1), n - 1);
    } else if |s.samples| >= 2 {
      RingLeft(store, s.(samples := s.samples[2..], cursor := s.cursor + 1), n - 1);
    } else if CoversAt(store, s.cursor) {
      RingLeft(store, s.(samples := [], feed := Store), n);
      DrainedFurther([], n);
    }
  }

  /** How many samples a fill takes off the ring. */
  ghost function Taken(store: Option<View>, s: FeedState, n: nat): int
    requires ReadyStore(store)
  {
    |s.samples| - |Deliver(store, s, n).state.samples|
  }

  /**
   * A fill keeps the ring on frame boundaries exactly when it finds whole frames or is asked for no more than there is,
   * whatever the store covers; and then it delivers everything asked for.
   */
  lemma FillKeepsAlignmentIff(store: Option<View>, s: FeedState, n: nat)
    requires ReadyStore(store)
    ensures Taken(store, s, n) == Min(2 * n, |s.samples|)
    ensures Taken(store, s, n) % 2 == 0 <==> |s.samples| % 2 == 0 || 2 * n <= |s.samples|
    ensures 2 * n <= |s.samples| ==> |Deliver(store, s, n).frames| == n
  {
    hide Deliver, ReadyStore;
    RingLeft(store, s, n);
  }

  /** One fill of a run: what has arrived, and the state it found, with whatever cursor and feed. */
  datatype Callback = Callback(store: Option<View>, arrived: seq<Sample>, found: FeedState, wanted: nat)

  /** Each fill finds what the one before left and what has arrived since. */
  ghost predicate Chained(left: seq<Sample>, callbacks: seq<Callback>)
    decreases |callbacks|
  {
    callbacks == [] ||
    var c := callbacks[0];
    && ReadyStore(c.store) && c.found.samples == left + c.arrived
    && Chained(Deliver(c.store, c.found, c.wanted).state.samples, callbacks[1..])
  }

  /** Every fill takes whole frames. */
  ghost predicate Aligned(callbacks: seq<Callback>)
    decreases |callbacks|
  {
    callbacks == [] ||
    var c := callbacks[0];
    ReadyStore(c.store) && Taken(c.store, c.found, c.wanted) % 2 == 0 && Aligned(callbacks[1..])
  }

  /** Whole frames are there, or no more is wanted than is. */
  predicate WholeOrEnough(c: Callback) { |c.found.samples| % 2 == 0 || 2 * c.wanted <= |c.found.samples| }

  lemma FillAligned(c: Callback)
    requires ReadyStore(c.store)
    ensures Taken(c.store, c.found, c.wanted) % 2 == 0 <==> WholeOrEnough(c)
  {
    hide Taken, Deliver, ReadyStore;
    FillKeepsAlignmentIff(c.store, c.found, c.wanted);
  }

  /** Every fill of a run takes whole frames exactly when each finds whole frames or wants no more than it finds. */
  lemma {:induction false} RunStaysAlignedIff(left: seq<Sample>, callbacks: seq<Callback>)
    requires Chained(left, callbacks)
    ensures Aligned(callbacks) <==> forall i :: 0 <= i < |callbacks| ==> WholeOrEnough(callbacks[i])
    decreases |callbacks|
  {
    hide Deliver, Taken, ReadyStore, WholeOrEnough;
    if callbacks != [] {
      var c, rest := callbacks[0], callbacks[1..];
      FillAligned(c);
      RunStaysAlignedIff(Deliver(c.store, c.found, c.wanted).state.samples, rest);
      assert forall i :: 0 <= i < |rest| ==> rest[i] == callbacks[i + 1];
      assert forall i :: 0 < i < |callbacks| ==> callbacks[i] == rest[i - 1];
    }
  }

  /** So it does in every run in which whole frames have arrived whenever a fill starts. */
  lemma {:induction false} WholeFramesStayAligned(left: seq<Sample>, callbacks: seq<Callback>)
    requires Chained(left, callbacks) && |left| % 2 == 0
    requires forall i :: 0 <= i < |callbacks| ==> |callbacks[i].arrived| % 2 == 0
    ensures Aligned(callbacks)
    decreases |callbacks|
  {
    hide Deliver, Taken, ReadyStore;
    if callbacks != [] {
      var c := callbacks[0];
      FillAligned(c);
      RingLeft(c.store, c.found, c.wanted);
      WholeFramesStayAligned(Deliver(c.store, c.found, c.wanted).state.samples, callbacks[1..]);
    }
  }

  /** A frame of the ring as it stood when the fill began. */
  predicate RingFrame(samples: seq<Sample>, i: nat, frame: Frame) {
    2 * i + 1 < |samples| && frame == (samples[2 * i], samples[2 * i + 1])
  }

  predicate StoreFrameAt(store: Option<View>, f: nat, frame: Frame)
    requires ReadyStore(store)
  {
    CoversAt(store, f) && frame == StoreFrame(store, f)
  }

  /** The i-th frame is either the ring's i-th frame or the store's frame at the position it was delivered at. */
  ghost predicate AllReal(store: Option<View>, samples: seq<Sample>, frames: seq<Frame>, at: seq<nat>)
    requires ReadyStore(store) && |frames| == |at|
  {
    forall i :: 0 <= i < |frames| ==> RingFrame(samples, i, frames[i]) || StoreFrameAt(store, at[i], frames[i])
  }

  /** Positions go up one by one, except that an exhausted store hands over to the ring's own position. */
  ghost predicate Advancing(start: nat, ringPos: Option<nat>, at: seq<nat>, end: nat)
    decreases |at|
  {
    if at == [] then end == start || ringPos == Some(end)
    else (at[0] == start || ringPos == Some(at[0])) && Advancing(at[0] + 1, ringPos, at[1..], end)
  }

  /** Every frame delivered is real, and positions advance frame by frame. */
  lemma {:induction false} DeliversRealFrames(store: Option<View>, s: FeedState, n: nat)
    requires ReadyStore(store)
    ensures var d := Deliver(store, s, n); AllReal(store, s.samples, d.frames, d.at)
    decreases n, Rank(store, s)
  {
    hide AllReal;
    var d := Deliver(store, s, n);
    if n == 0 {
      NoFrames(store, s.samples);
    } else if s.feed == Store {
      if !CoversAt(store, s.cursor) {
        DeliversRealFrames(store, FallBack(s), n);
      } else {
        var next := s.(samples := PopFrame(s.samples), cursor := s.cursor + 1);
        DeliversRealFrames(store, next, n - 1);
        LaterFrames(store, s.samples, StoreFrame(store, s.cursor), s.cursor, Deliver(store, next, n - 1));
      }
    } else if |s.samples| >= 2 {
      var next := s.(samples := s.samples[2..], cursor := s.cursor + 1);
      DeliversRealFrames(store, next, n - 1);
      LaterFrames(store, s.samples, (s.samples[0], s.samples[1]), s.cursor, Deliver(store, next, n - 1));
    } else if CoversAt(store, s.cursor) {
      DeliversRealFrames(store, s.(samples := [], feed := Store), n);
      EmptyRing(store, s.samples, d);
    } else {
      NoFrames(store, s.samples);
    }
  }

  lemma NoFrames(store: Option<View>, samples: seq<Sample>)
    requires ReadyStore(store)
    ensures AllReal(store, samples, [], [])
  {}

  lemma EmptyRing(store: Option<View>, samples: seq<Sample>, d: Delivery)
    requires ReadyStore(store) && |d.frames| == |d.at| && AllReal(store, [], d.frames, d.at)
    ensures AllReal(store, samples, d.frames, d.at)
  {}

  lemma LaterFrames(store: Option<View>, samples: seq<Sample>, first: Frame, position: nat, d: Delivery)
    requires ReadyStore(store) && |d.frames| == |d.at| && AllReal(store, PopFrame(samples), d.frames, d.at)
    requires RingFrame(samples, 0, first) || StoreFrameAt(store, position, first)
    ensures var all := Prepend(first, position, d); AllReal(store, samples, all.frames, all.at)
  {
    var all, rest := Prepend(first, position, d), PopFrame(samples);
    forall i | 0 <= i < |all.frames|
      ensures RingFrame(samples, i, all.frames[i]) || StoreFrameAt(store, all.at[i], all.frames[i])
    {
      if i > 0 {
        assert all.frames[i] == d.frames[i - 1] && all.at[i] == d.at[i - 1];
        assert RingFrame(rest, i - 1, d.frames[i - 1]) ==> RingFrame(samples, i, all.frames[i]);
      }
    }
  }

  lemma {:induction false} PositionsAdvance(store: Option<View>, s: FeedState, n: nat)
    requires ReadyStore(store)
    ensures var d := Deliver(store, s, n); Advancing(s.cursor, s.ringPos, d.at, d.state.cursor)
    decreases n, Rank(store, s)
  {
    var d := Deliver(store, s, n);
    if n == 0 {
    } else if s.feed == Store {
      if !CoversAt(store, s.cursor) {
        PositionsAdvance(store, FallBack(s), n);
      } else {
        PositionsAdvance(store, s.(samples := PopFrame(s.samples), cursor := s.cursor + 1), n - 1);
        assert d.at[1..] == Deliver(store, s.(samples := PopFrame(s.samples), cursor := s.cursor + 1), n - 1).at;
      }
    } else if |s.samples| >= 2 {
      PositionsAdvance(store, s.(samples := s.samples[2..], cursor := s.cursor + 1), n - 1);
      assert d.at[1..] == Deliver(store, s.(samples := s.samples[2..], cursor := s.cursor + 1), n - 1).at;
    } else if CoversAt(store, s.cursor) {
      PositionsAdvance(store, s.(samples := [], feed := Store), n);
    }
  }

  /** A ring of whole frames gives up one frame per frame delivered on both feeds, as long as it lasts. */
  lemma RingDrainsInLockstep(store: Option<View>, s: FeedState, n: nat)
    requires ReadyStore(store) && |s.samples| % 2 == 0
    ensures var d := Deliver(store, s, n); d.state.samples == Drained(s.samples, |d.frames|) && d.state.ringPos == s.ringPos
  {
    hide Deliver, ReadyStore;
    RingLeft(store, s, n);
  }

  /** A fill falls short only when the ring has run dry and the store does not cover the position reached. */
  lemma {:induction false} ShortOnlyWhenDry(store: Option<View>, s: FeedState, n: nat)
    requires ReadyStore(store)
    ensures var d := Deliver(store, s, n);
            |d.frames| < n ==> d.state.samples == [] && d.state.feed == Ring && !CoversAt(store, d.state.cursor)
    decreases n, Rank(store, s)
  {
    if n == 0 {
    } else if s.feed == Store {
      if !CoversAt(store, s.cursor) {
        ShortOnlyWhenDry(store, FallBack(s), n);
      } else {
        ShortOnlyWhenDry(store, s.(samples := PopFrame(s.samples), cursor := s.cursor + 1), n - 1);
      }
    } else if |s.samples| >= 2 {
      ShortOnlyWhenDry(store, s.(samples := s.samples[2..], cursor := s.cursor + 1), n - 1);
    } else if CoversAt(store, s.cursor) {
      ShortOnlyWhenDry(store, s.(samples := [], feed := Store), n);
    }
  }
}
