/** What a run of the decode-ahead loop has written, and when it can write no more. */
module DecodeProgress {
  import opened Prelude
  import opened StoreModel
  import opened StoreCompletion
  import opened DecodeAhead

  // ---------------------------------------------------------- one packet

  /** Where the part of a packet that is not behind the cursor starts. */
  function FirstWanted(ts: nat, at: nat): nat { if ts < at then at else ts }

  /** Every chunk met from `start` up to frame `f` ends where the packet reaches it. */
  ghost predicate OpenUpTo(v: View, start: nat, f: nat)
    requires start <= f
  {
    forall g: nat :: EntersChunk(start, f - start + 1, g) ==> AppendPoint(v.filled, g)
  }

  /**
   * A packet's frame from the cursor on is published, with its samples, as far as the chunks it meets are at their
   * append points; the cursor is behind it then.
   */
  lemma PacketIsWritten(p: Progress, turn: Turn, forceFail: ForceFail, p': Progress, f: nat)
    requires WellFormed(p.view) && p.view.state == Filling && GoesOn(p, turn, forceFail, p') && turn.packet.Decoded?
    requires var (ts, n) := (turn.packet.ts, |turn.packet.samples| / 2);
             var start := FirstWanted(ts, Steered(p, turn)); start <= f < ts + n && OpenUpTo(p.view, start, f)
    ensures var k := f - turn.packet.ts;
            && Published(p'.view.filled, f) && f < p'.cursor
            && 2 * f + 1 < |p'.view.words|
            && PairAt(p'.view.words, f) == (turn.packet.samples[2 * k], turn.packet.samples[2 * k + 1])
  {
    var ts, samples := turn.packet.ts, turn.packet.samples;
    var start := FirstWanted(ts, Steered(p, turn));
    var skip := start - ts;
    var data := samples[2 * skip..];
    var n := p'.cursor - start;
    assert Wrote(p.view, p'.view, start, data, n);
    WriteReaches(p.view, p'.view, start, data, n, f);
    var k := f - start;
    assert data[2 * k] == samples[2 * (skip + k)] && data[2 * k + 1] == samples[2 * (skip + k) + 1];
  }

  lemma WriteReaches(v: View, v': View, from: nat, data: seq<Sample>, n: nat, f: nat)
    requires WellFormed(v) && v.state == Filling && Wrote(v, v', from, data, n)
    requires from <= f < from + |data| / 2 && OpenUpTo(v, from, f)
    ensures f < from + n && Published(v'.filled, f) && 2 * f + 1 < |v'.words|
    ensures PairAt(v'.words, f) == (data[2 * (f - from)], data[2 * (f - from) + 1])
  {
    assert from + n <= f ==> EntersChunk(from, f - from + 1, from + n);
  }

  /** A turn that goes on writes something exactly when the packet has a frame left and its chunk ends just there. */
  lemma TurnWritesIff(p: Progress, turn: Turn, forceFail: ForceFail, p': Progress)
    requires WellFormed(p.view) && WellFormed(p'.view) && p.view.state == Filling
    requires GoesOn(p, turn, forceFail, p') && turn.packet.Decoded?
    ensures var (ts, n) := (turn.packet.ts, |turn.packet.samples| / 2);
            var start := FirstWanted(ts, Steered(p, turn));
            p'.view != p.view <==> start < ts + n && AppendPoint(p.view.filled, start)
  {
    var ts, samples := turn.packet.ts, turn.packet.samples;
    var start := FirstWanted(ts, Steered(p, turn));
    if start < ts + |samples| / 2 {
      WriteChangesIff(p.view, p'.view, start, samples[2 * (start - ts)..], p'.cursor - start);
    }
  }

  lemma WriteChangesIff(v: View, v': View, from: nat, data: seq<Sample>, n: nat)
    requires WellFormed(v) && WellFormed(v') && v.state == Filling && Wrote(v, v', from, data, n) && |data| / 2 > 0
    ensures v' != v <==> AppendPoint(v.filled, from)
  {
    if AppendPoint(v.filled, from) {
      WriteReaches(v, v', from, data, n, from);
      assert !Published(v.filled, from);
    } else {
      NothingWritten(v, v', from, data, n);
    }
  }

  lemma NothingWritten(v: View, v': View, from: nat, data: seq<Sample>, n: nat)
    requires WellFormed(v) && Wrote(v, v', from, data, n) && !AppendPoint(v.filled, from)
    ensures n == 0 && (WellFormed(v') ==> v' == v)
  {
    assert n > 0 ==> EntersChunk(from, n, from);
    if v.state == Filling && WellFormed(v') {
      forall c | 0 <= c < |v.filled| ensures v'.filled[c] == v.filled[c] {
        SameWatermarks(v, v', c);
      }
      assert v'.words == v.words;
    }
  }

  lemma SameWatermarks(v: View, v': View, c: nat)
    requires WellFormed(v) && WellFormed(v') && |v'.filled| == |v.filled| && c < |v.filled|
    requires forall f: nat :: Published(v'.filled, f) <==> Published(v.filled, f)
    ensures v'.filled[c] == v.filled[c]
  {
    var o := Min(v.filled[c], v'.filled[c]);
    if o < CHUNK {
      FrameOf(c, o);
      assert Published(v'.filled, ChunkStart(c) + o) <==> Published(v.filled, ChunkStart(c) + o);
    }
  }

  /**
   * A hint into an empty chunk is followed at once: if the seek for it reaches the start of that chunk, a packet there is
   * written up to the chunk's end, wherever the cursor was before.
   */
  lemma HintIsFollowed(p: Progress, turn: Turn, forceFail: ForceFail, p': Progress, f: nat)
    requires WellFormed(p.view) && p.view.state == Filling && GoesOn(p, turn, forceFail, p') && turn.packet.Decoded?
    requires turn.hint.Some? && turn.hintSeek.Some?
    requires var c := ChunkOf(turn.hint.value);
             && c < |p.view.filled| && p.view.filled[c] == 0 && turn.hintSeek.value >= ChunkStart(c)
             && ChunkStart(c) < MAX_FRAMES && turn.packet.ts <= ChunkStart(c)
             && ChunkStart(c) <= f < Min(turn.packet.ts + |turn.packet.samples| / 2, ChunkStart(c) + CHUNK)
    ensures Published(p'.view.filled, f)
  {
    var c := ChunkOf(turn.hint.value);
    var start := ChunkStart(c);
    FrameOf(c, 0);
    assert !Covers(p.view, turn.hint.value) && !Covers(p.view, start);
    assert Steered(p, turn) == start;
    forall g: nat | EntersChunk(start, f - start + 1, g) ensures AppendPoint(p.view.filled, g) {
      FrameOf(c, f - start);
      FrameOf(c, g - start);
    }
    PacketIsWritten(p, turn, forceFail, p', f);
  }

  /**
   * A cursor on a covered frame is moved to the first chunk with a gap; if that is empty and the seek there went well or
   * failed, a packet at its start is written up to the chunk's end.
   */
  lemma JumpIsFollowed(p: Progress, turn: Turn, forceFail: ForceFail, p': Progress, start: nat, f: nat)
    requires WellFormed(p.view) && p.view.state == Filling && GoesOn(p, turn, forceFail, p') && turn.packet.Decoded?
    requires turn.hint.None? && Covers(p.view, p.cursor) && Lowest(p.view) == Some(start)
    requires turn.jumpSeek.None? || turn.jumpSeek.value >= start
    requires var c := ChunkOf(start);
             && OffsetOf(start) == 0 && c < |p.view.filled| && p.view.filled[c] == 0 && start < MAX_FRAMES
             && turn.packet.ts <= start <= f < Min(turn.packet.ts + |turn.packet.samples| / 2, start + CHUNK)
    ensures Published(p'.view.filled, f)
  {
    var c := ChunkOf(start);
    hide LowestUnfilled;
    FrameSplit(start);
    assert Steered(p, turn) == start;
    forall g: nat | EntersChunk(start, f - start + 1, g) ensures AppendPoint(p.view.filled, g) {
      FrameOf(c, f - start);
      FrameOf(c, g - start);
    }
    PacketIsWritten(p, turn, forceFail, p', f);
  }

  /** Turns without a decoded packet leave the store alone; at the end of the file the cursor goes where the seek landed. */
  lemma OtherTurnsOnlyMove(p: Progress, turn: Turn, forceFail: ForceFail, p': Progress)
    requires GoesOn(p, turn, forceFail, p') && !turn.packet.Decoded?
    ensures p'.view == p.view
    ensures turn.packet.Malformed? && turn.hint.None? && !Covers(p.view, p.cursor) ==> p'.cursor == p.cursor
    ensures turn.packet.EndOfFile? ==>
              turn.packet.seek.Some? && Lowest(p.view).Some?
              && p'.cursor == Min(turn.packet.seek.value, Lowest(p.view).value)
  {
    hide LowestUnfilled, Covers;
  }

  /** Which turns end the loop, and how; a store that is to fail after five seconds has 220 500 frames then. */
  lemma HowATurnEnds(p: Progress, turn: Turn, forceFail: ForceFail)
    ensures var ending := EndsTurn(p, turn, forceFail);
            var failing := forceFail == Immediate || (forceFail == After5s && CoveredFrames(p.view) >= 220_500);
            var done := Covers(p.view, Hinted(p, turn)) && Lowest(p.view).None?;
            && (ending == Some(Stopped) <==> turn.stop)
            && (!turn.stop && failing ==> ending == Some(Failure))
            && (!turn.stop && !failing && done ==> ending == Some(Finished))
            && (!turn.stop && !failing && !done ==>
                  && (ending == Some(Failure) <==> turn.packet.DecoderError? || turn.packet.ReadError?)
                  && (ending == Some(Finished) <==> turn.packet.EndOfFile? && Lowest(p.view).None?)
                  && (ending == Some(GaveUp) <==>
                        turn.packet.EndOfFile? && Lowest(p.view).Some? && turn.packet.seek.None?)
                  && (ending.None? <==>
                        || turn.packet.Decoded? || turn.packet.Malformed?
                        || (turn.packet.EndOfFile? && Lowest(p.view).Some? && turn.packet.seek.Some?)))
            && ending != Some(Running)
  {
    hide LowestUnfilled, Covers, CoveredFrames;
  }

  // ------------------------------------------------------- front to back

  /** Exactly the first `n` frames are there. */
  ghost predicate FrontFilled(v: View, n: nat)
    requires WellFormed(v)
  {
    n <= Capacity(v) && forall f: nat :: Published(v.filled, f) <==> f < n
  }

  /** The table is within the cap, as every table sized for its track is. */
  predicate TableInCap(v: View) { Capacity(v) <= MAX_FRAMES }

  lemma FrontAppendPoints(v: View, n: nat, g: nat)
    requires WellFormed(v) && TableInCap(v) && FrontFilled(v, n) && n <= g < Capacity(v) && (g == n || OffsetOf(g) == 0)
    ensures AppendPoint(v.filled, g)
  {
    FrameSplit(g);
    var c, o := ChunkOf(g), OffsetOf(g);
    assert c < |v.filled|;
    assert v.filled[c] > o ==> Published(v.filled, g);
    if o > 0 {
      FrameOf(c, o - 1);
      assert Published(v.filled, ChunkStart(c) + (o - 1));
    }
  }

  /** Writing on from the front leaves a longer front, up to the capacity. */
  lemma FrontGrows(v: View, v': View, n: nat, data: seq<Sample>, written: nat)
    requires WellFormed(v) && WellFormed(v') && v.state == Filling && TableInCap(v) && FrontFilled(v, n)
    requires Wrote(v, v', n, data, written)
    ensures n + written == Min(n + |data| / 2, Capacity(v)) && FrontFilled(v', n + written)
    ensures v'.state == Filling && v'.len == v.len && |v'.filled| == |v.filled|
  {
    FrameOf(|v.filled|, 0);
    assert written > 0 && written < |data| / 2 ==> OffsetOf(n + written) == 0;
    if n + written < Min(n + |data| / 2, Capacity(v)) {
      FrontAppendPoints(v, n, n + written);
      assert false;
    }
    assert Capacity(v) < n + written ==> Published(v'.filled, Capacity(v));
  }

  /** Packets one after the other, from frame `from` on, with nothing else going on. */
  ghost predicate Contiguous(turns: seq<Turn>, from: nat)
    decreases |turns|
  {
    turns == [] ||
    var t := turns[0];
    && !t.stop && t.hint.None? && t.packet.Decoded? && t.packet.ts == from
    && Contiguous(turns[1..], from + |t.packet.samples| / 2)
  }

  function Sent(turns: seq<Turn>): nat {
    if turns == [] then 0
    else (if turns[0].packet.Decoded? then |turns[0].packet.samples| / 2 else 0) + Sent(turns[1..])
  }

  /** The frames sent so far are there as far as the table goes, and the cursor is at the end of them. */
  ghost predicate KeptUp(p: Progress, sent: nat) {
    && WellFormed(p.view) && p.view.state == Filling && TableInCap(p.view)
    && FrontFilled(p.view, Min(sent, Capacity(p.view)))
    && (p.cursor == sent || Capacity(p.view) <= p.cursor <= sent)
  }

  lemma KeptUpUncovered(p: Progress, sent: nat)
    requires KeptUp(p, sent)
    ensures !Covers(p.view, p.cursor) && !AppendPoint(p.view.filled, Capacity(p.view) + 0)
    ensures forall f: nat :: Capacity(p.view) <= f ==> !AppendPoint(p.view.filled, f)
  {
    FrameOf(|p.view.filled|, 0);
  }

  lemma KeepsUp(p: Progress, turn: Turn, p': Progress, sent: nat)
    requires KeptUp(p, sent) && WellFormed(p'.view) && GoesOn(p, turn, Never, p')
    requires turn.hint.None? && turn.packet.Decoded? && turn.packet.ts == sent
    ensures KeptUp(p', sent + |turn.packet.samples| / 2)
    ensures p'.view.len == p.view.len && |p'.view.filled| == |p.view.filled|
  {
    var samples := turn.packet.samples;
    KeptUpUncovered(p, sent);
    assert Steered(p, turn) == p.cursor;
    assert samples[0..] == samples;
    if |samples| / 2 > 0 {
      var n := p'.cursor - sent;
      assert Wrote(p.view, p'.view, sent, samples, n);
      if sent < Capacity(p.view) {
        FrontGrows(p.view, p'.view, sent, samples, n);
      } else {
        NothingWritten(p.view, p'.view, sent, samples, n);
      }
    }
  }

  /**
   * Packets that follow one another from the first frame on are all written: after each, exactly the frames sent so far
   * are published, as far as the table goes, and the loop is still running.
   */
  lemma {:induction false} ContiguousPacketsArePublished(trace: seq<Progress>, turns: seq<Turn>, sent: nat, ending: Ending,
                                                         after: View)
    requires Follows(trace, turns, Never) && Contiguous(turns, sent)
    requires EndsWith(trace[|trace| - 1], turns, |trace| - 1, Never, ending, after)
    requires KeptUp(trace[0], sent)
    ensures ending == Running && |trace| == |turns| + 1 && after == trace[|trace| - 1].view
    ensures KeptUp(trace[|turns|], sent + Sent(turns)) && after.len == trace[0].view.len
    ensures |after.filled| == |trace[0].view.filled|
    decreases |turns|
  {
    hide KeptUp, GoesOn, WellFormed;
    if turns != [] {
      FirstTurnGoesOn(trace[0], turns[0], sent);
      if |trace| == 1 {
        assert false;
      }
      var rest := trace[1..];
      assert forall i :: 0 <= i < |rest| ==> rest[i] == trace[i + 1];
      forall i | 0 <= i < |rest| - 1 ensures GoesOn(rest[i], turns[1..][i], Never, rest[i + 1]) {
        assert GoesOn(trace[i + 1], turns[i + 1], Never, trace[i + 2]);
      }
      KeepsUp(trace[0], turns[0], trace[1], sent);
      ContiguousPacketsArePublished(rest, turns[1..], sent + |turns[0].packet.samples| / 2, ending, after);
    }
  }

  lemma FirstTurnGoesOn(p: Progress, turn: Turn, sent: nat)
    requires KeptUp(p, sent) && !turn.stop && turn.hint.None? && turn.packet.Decoded?
    ensures EndsTurn(p, turn, Never).None?
  {
    KeptUpUncovered(p, sent);
  }

  /** A new store, sized for its track, with nothing written: the front is empty. */
  lemma NewStoreKeepsUp(v: View)
    requires WellFormed(v) && v.state == Filling && |v.filled| == TableSize(v.len)
    requires forall c :: 0 <= c < |v.filled| ==> v.filled[c] == 0
    ensures KeptUp(Progress(v, 0), 0)
  {}

  // ------------------------------------------------------ to the very end

  lemma FrontSum(v: View, n: nat)
    requires WellFormed(v) && FrontFilled(v, n)
    ensures CoveredFrames(v) == n && PrefixShaped(v.filled)
  {
    NothingFromByChunk(v, n);
    GaplessByChunk(v, n);
    SumOfAtMostExpected(v.filled, n, |v.filled|);
    assert v.filled[..|v.filled|] == v.filled;
  }

  /** Whatever is at the end of the file, once the length is there and the packets end, the track is complete. */
  lemma EndOfFileFinishes(p: Progress, turn: Turn, sent: nat)
    requires KeptUp(p, sent) && !turn.stop && turn.hint.None? && turn.packet.EndOfFile?
    requires Min(p.view.len, MAX_FRAMES) <= sent && |p.view.filled| == TableSize(p.view.len)
    ensures EndsTurn(p, turn, Never) == Some(Finished)
    ensures var v := Left(p.view, Finished);
            && v.state == Complete && v.len == Min(sent, Capacity(p.view)) && Gapless(v, v.len)
  {
    var n := Min(sent, Capacity(p.view));
    KeptUpUncovered(p, sent);
    FrontSum(p.view, n);
    CompletingAtCoveredFrames(p.view);
    forall d: nat | d < |p.view.filled| ensures p.view.filled[d] >= Expected(p.view.len, d) {
      if p.view.filled[d] < CHUNK {
        FrameOf(d, p.view.filled[d]);
        assert !Published(p.view.filled, ChunkStart(d) + p.view.filled[d]);
      }
    }
  }

  // ------------------------------------------------------------- no progress

  /** The first chunk with a gap has some of its frames already, and the cursor is back at its start. */
  ghost predicate BackAtPartlyFilled(p: Progress, start: nat)
    requires WellFormed(p.view)
  {
    && p.view.state == Filling && Lowest(p.view) == Some(start) && p.cursor == start
    && OffsetOf(start) == 0 && ChunkOf(start) < |p.view.filled| && p.view.filled[ChunkOf(start)] > 0
  }

  /** A turn after a seek that went well: it lands at the start of the chunk, on the packet that holds it. */
  predicate SeeksBack(turn: Turn, start: nat) {
    && !turn.stop && turn.hint.None? && turn.jumpSeek == Some(start)
    && turn.packet.Decoded? && turn.packet.ts <= start
  }

  /**
   * Back at a partly filled chunk the loop never gets on: as long as its seeks go well and no hint comes, every turn
   * seeks to the start of the chunk again, and not one frame is written.
   */
  lemma {:induction false} StuckAtPartlyFilled(trace: seq<Progress>, turns: seq<Turn>, start: nat, ending: Ending,
                                               after: View)
    requires Follows(trace, turns, Never)
    requires EndsWith(trace[|trace| - 1], turns, |trace| - 1, Never, ending, after)
    requires BackAtPartlyFilled(trace[0], start)
    requires forall i :: 0 <= i < |turns| ==> SeeksBack(turns[i], start)
    ensures ending == Running && |trace| == |turns| + 1
    ensures forall i :: 0 <= i < |trace| ==> trace[i] == trace[0]
    ensures after == trace[0].view
    decreases |turns|
  {
    hide GoesOn, BackAtPartlyFilled, SeeksBack, WellFormed;
    if turns != [] {
      StuckForATurn(trace[0], turns[0], start);
      if |trace| == 1 {
        assert false;
      }
      var rest := trace[1..];
      assert forall i :: 0 <= i < |rest| ==> rest[i] == trace[i + 1];
      forall i | 0 <= i < |rest| - 1 ensures GoesOn(rest[i], turns[1..][i], Never, rest[i + 1]) {
        assert GoesOn(trace[i + 1], turns[i + 1], Never, trace[i + 2]);
      }
      StuckTurn(trace[0], turns[0], trace[1], start);
      StuckAtPartlyFilled(rest, turns[1..], start, ending, after);
    }
  }

  lemma StuckForATurn(p: Progress, turn: Turn, start: nat)
    requires WellFormed(p.view) && BackAtPartlyFilled(p, start) && SeeksBack(turn, start)
    ensures EndsTurn(p, turn, Never).None?
  {
    hide LowestUnfilled;
  }

  lemma StuckTurn(p: Progress, turn: Turn, p': Progress, start: nat)
    requires WellFormed(p.view) && WellFormed(p'.view) && BackAtPartlyFilled(p, start) && SeeksBack(turn, start)
    requires GoesOn(p, turn, Never, p')
    ensures p' == p
  {
    LowestIsShort(p.view);
    hide LowestUnfilled;
    assert Covers(p.view, start) && Steered(p, turn) == start;
    var ts, samples := turn.packet.ts, turn.packet.samples;
    if start - ts < |samples| / 2 {
      NothingWritten(p.view, p'.view, start, samples[2 * (start - ts)..], p'.cursor - start);
    }
  }

  lemma LowestIsShort(v: View)
    ensures Lowest(v).Some? ==> Lowest(v).value < v.len
  {}

  // A run that gets there: one frame, a hint to the second chunk, the rest of that chunk, and the end of the file.

  function Silence(frames: nat): (r: seq<Sample>)
    ensures |r| == 2 * frames && forall i :: 0 <= i < |r| ==> r[i] == 0.0
  {
    seq(2 * frames, i => 0.0)
  }

  /** A silent store of two chunks. */
  function TwoChunks(first: nat, second: nat): View {
    View(131_072, Filling, [first, second], Silence(131_072))
  }

  lemma SilentWrite(a: nat, b: nat, from: nat, n: nat, a': nat, b': nat)
    requires a <= a' <= CHUNK && b <= b' <= CHUNK && n > 0
    requires (from == a && a' == a + n && b' == b) || (from == CHUNK + b && b' == b + n && a' == a)
    requires from < 131_072
    ensures WellFormed(TwoChunks(a, b)) && Wrote(TwoChunks(a, b), TwoChunks(a', b'), from, Silence(n), n)
  {
    var v, v' := TwoChunks(a, b), TwoChunks(a', b');
    forall f: nat ensures Published(v'.filled, f) <==> Published(v.filled, f) || from <= f < from + n {
      FrameSplit(f);
    }
    forall f: nat | EntersChunk(from, n, f) ensures AppendPoint(v.filled, f) {
      FrameSplit(f);
      FrameSplit(from);
    }
  }

  const TO_THE_DEAD_END := [
    Turn(false, None, None, None, Decoded(0, Silence(1))),
    Turn(false, Some(65_536), Some(65_536), None, Decoded(65_536, Silence(65_536))),
    Turn(false, None, None, None, EndOfFile(Some(0)))]

  /** From a new store of two chunks, three turns lead to the start of a partly filled chunk. */
  lemma PartlyFilledIsReachable() returns (trace: seq<Progress>)
    ensures RanAs(TwoChunks(0, 0), TO_THE_DEAD_END, Never, trace, Running, TwoChunks(1, 65_536))
    ensures |trace| == 4 && WellFormed(trace[3].view) && BackAtPartlyFilled(trace[3], 0)
  {
    var v0, v1, v2 := TwoChunks(0, 0), TwoChunks(1, 0), TwoChunks(1, 65_536);
    SilentWrite(0, 0, 0, 1, 1, 0);
    SilentWrite(1, 0, 65_536, 65_536, 1, 65_536);
    assert Silence(1)[0..] == Silence(1) && Silence(65_536)[0..] == Silence(65_536);
    FirstGap(0, 0);
    FirstGap(1, 0);
    FirstGap(1, 65_536);
    var p0, p1, p2, p3 := Progress(v0, 0), Progress(v1, 1), Progress(v2, 131_072), Progress(v2, 0);
    trace := [p0, p1, p2, p3];
    hide LowestUnfilled, Wrote, Silence;
    assert GoesOn(p0, TO_THE_DEAD_END[0], Never, p1);
    assert GoesOn(p1, TO_THE_DEAD_END[1], Never, p2);
    assert GoesOn(p2, TO_THE_DEAD_END[2], Never, p3);
  }

  lemma FirstGap(a: nat, b: nat)
    requires a < CHUNK
    ensures Lowest(TwoChunks(a, b)) == Some(0)
  {
    hide Silence;
  }
}
