/** The decode-ahead writer: trimming packets, following seek hints, jumping to gaps, and finishing the store. */
module DecodeAhead {
  import opened Prelude
  import opened StoreModel
  import opened StoreCompletion
  import opened DecodedStores

  type Track = nat -> Frame

  /** Interleaved `samples` are the track's frames from `at` on. */
  ghost predicate Truthful(track: Track, at: nat, samples: seq<Sample>) {
    forall k :: 0 <= k < |samples| / 2 ==> (samples[2 * k], samples[2 * k + 1]) == track(at + k)
  }

  /** Every published frame is the track's. */
  ghost predicate Agrees(v: View, track: Track)
    requires WellFormed(v)
  {
    forall f: nat :: Published(v.filled, f) ==> (InTable(v, f); PairAt(v.words, f) == track(f))
  }

  /** Everything published before is still published and unchanged. */
  ghost predicate Extends(v: View, v': View)
    requires WellFormed(v) && WellFormed(v')
  {
    && |v'.filled| == |v.filled|
    && forall f: nat :: Published(v.filled, f) ==>
         Published(v'.filled, f) && (InTable(v, f); PairAt(v'.words, f) == PairAt(v.words, f))
  }

  lemma FrameWithin(f: nat, from: nat, n: nat)
    ensures from <= f < from + n <==> 2 * from <= 2 * f < 2 * (from + n)
    ensures from <= f < from + n <==> 2 * from <= 2 * f + 1 < 2 * (from + n)
  {}

  /** A write starts where its chunk ends, so it never lands on a published frame. */
  lemma {:induction false} WritesUnpublished(v: View, from: nat, n: nat, f: nat)
    requires WellFormed(v) && from <= f < from + n
    requires forall g: nat :: EntersChunk(from, n, g) ==> AppendPoint(v.filled, g)
    ensures !Published(v.filled, f)
    decreases f - from
  {
    var entry := if ChunkOf(f) == ChunkOf(from) then from else ChunkStart(ChunkOf(f));
    FrameOf(ChunkOf(f), 0);
    FrameSplit(f);
    FrameSplit(from);
    assert EntersChunk(from, n, entry);
  }

  lemma WriteExtends(v: View, v': View, from: nat, data: seq<Sample>, n: nat)
    requires WellFormed(v) && WellFormed(v') && Wrote(v, v', from, data, n)
    ensures Extends(v, v')
  {
    forall f: nat | Published(v.filled, f)
      ensures Published(v'.filled, f) && (InTable(v, f); PairAt(v'.words, f) == PairAt(v.words, f))
    {
      InTable(v, f);
      FrameWithin(f, from, n);
      if v.state == Filling && from <= f < from + n {
        WritesUnpublished(v, from, n, f);
      }
    }
  }

  /** A truthful packet keeps the store in agreement with the track, wherever and however far it is written. */
  lemma WriteAgrees(v: View, v': View, from: nat, data: seq<Sample>, n: nat, track: Track)
    requires WellFormed(v) && WellFormed(v') && Wrote(v, v', from, data, n)
    requires Agrees(v, track) && Truthful(track, from, data)
    ensures Agrees(v', track)
  {
    forall f: nat | Published(v'.filled, f)
      ensures (InTable(v', f); PairAt(v'.words, f) == track(f))
    {
      InTable(v', f);
      FrameWithin(f, from, n);
      if v.state == Filling && from <= f < from + n {
        var k := f - from;
        assert v'.words[2 * f] == data[2 * k] && v'.words[2 * f + 1] == data[2 * k + 1];
        assert (data[2 * k], data[2 * k + 1]) == track(from + k);
      } else {
        assert Published(v.filled, f);
      }
    }
  }

  // ---------------------------------------------------- trimming a packet

  lemma TrimmedTruthful(track: Track, ts: nat, samples: seq<Sample>, skip: nat)
    requires Truthful(track, ts, samples) && 2 * skip <= |samples|
    ensures Truthful(track, ts + skip, samples[2 * skip..])
  {
    var rest := samples[2 * skip..];
    forall k | 0 <= k < |rest| / 2 ensures (rest[2 * k], rest[2 * k + 1]) == track(ts + skip + k) {
      assert (samples[2 * (skip + k)], samples[2 * (skip + k) + 1]) == track(ts + (skip + k));
    }
  }

  /** The frames before the cursor are left out; what was written of the rest moves the cursor. */
  ghost predicate Trimmed(v: View, v': View, cursor: nat, cursor': nat, ts: nat, samples: seq<Sample>) {
    var start := if ts < cursor then cursor else ts;
    var skip := start - ts;
    if skip >= |samples| / 2 then cursor' == cursor && v' == v
    else cursor' >= start && Wrote(v, v', start, samples[2 * skip..], cursor' - start)
  }

  lemma Unwritten(v: View, cursor: nat, ts: nat, samples: seq<Sample>)
    requires WellFormed(v)
    ensures Extends(v, v)
    ensures (if ts < cursor then cursor else ts) - ts >= |samples| / 2 ==> Trimmed(v, v, cursor, cursor, ts, samples)
  {}

  lemma WroteKeepsState(v: View, v': View, from: nat, data: seq<Sample>, n: nat)
    requires Wrote(v, v', from, data, n)
    ensures v'.len == v.len && v'.state == v.state
  {}

  lemma TrimmedWrite(v: View, v': View, cursor: nat, ts: nat, samples: seq<Sample>, skip: nat, n: nat, track: Track)
    requires WellFormed(v) && WellFormed(v') && skip < |samples| / 2
    requires ts + skip == if ts < cursor then cursor else ts
    requires Wrote(v, v', ts + skip, samples[2 * skip..], n)
    ensures Extends(v, v') && v'.len == v.len && v'.state == v.state
    ensures Trimmed(v, v', cursor, ts + skip + n, ts, samples)
    ensures Agrees(v, track) && Truthful(track, ts, samples) ==> Agrees(v', track)
  {
    hide Extends, Agrees, Truthful, Wrote, WellFormed;
    WroteKeepsState(v, v', ts + skip, samples[2 * skip..], n);
    WriteExtends(v, v', ts + skip, samples[2 * skip..], n);
    if Agrees(v, track) && Truthful(track, ts, samples) {
      TrimmedTruthful(track, ts, samples, skip);
      WriteAgrees(v, v', ts + skip, samples[2 * skip..], n, track);
    }
  }

  /** Write a packet, leaving out what lies before the cursor, and move the cursor past what was written. */
  method WriteTrimmed(store: DecodedStore, cursor: nat, ts: nat, samples: seq<Sample>, ghost track: Track)
    returns (cursor': nat)
    requires store.Valid()
    modifies store.filled, store.words
    ensures store.Valid() && Extends(old(store.Value()), store.Value())
    ensures store.Value().state == old(store.Value()).state && store.Value().len == old(store.Value()).len
    ensures Agrees(old(store.Value()), track) && Truthful(track, ts, samples) ==> Agrees(store.Value(), track)
    ensures Trimmed(old(store.Value()), store.Value(), cursor, cursor', ts, samples)
  {
    Unwritten(store.Value(), cursor, ts, samples);
    hide Trimmed, Wrote, Extends, Agrees, Truthful, WellFormed;
    var count := |samples| / 2;
    if count == 0 { return cursor; }
    var start, skip := ts, 0;
    if start < cursor {
      skip := cursor - start;
      start := cursor;
    }
    if skip >= count { return cursor; }
    ghost var before := store.Value();
    var written := store.WriteFrames(start, samples[2 * skip..]);
    TrimmedWrite(before, store.Value(), cursor, ts, samples, skip, written, track);
    return start + written;
  }

  // ------------------------------------------------------------- the loop

  /** What the container reader and decoder give back when the loop asks for the next packet. */
  datatype Packet =
    | Decoded(ts: nat, samples: seq<Sample>)
    | Malformed
    | DecoderError
    | ReadError
    | EndOfFile(seek: Option<nat>)

  /** Everything one pass of the loop learns from outside; a seek answers where it landed, or not at all. */
  datatype Turn = Turn(stop: bool, hint: Option<nat>, hintSeek: Option<nat>, jumpSeek: Option<nat>, packet: Packet)

  datatype ForceFail = Never | Immediate | After5s

  datatype Ending = Running | Stopped | Failure | Finished | GaveUp

  ghost predicate AllTruthful(track: Track, turns: seq<Turn>) {
    forall i :: 0 <= i < |turns| && turns[i].packet.Decoded? ==>
      Truthful(track, turns[i].packet.ts, turns[i].packet.samples)
  }

  const SAMPLE_RATE := 44_100

  /** What holds however the loop ends, over the store's value before and after. */
  ghost predicate EndedAs(before: View, after: View, ending: Ending)
    requires WellFormed(before) && WellFormed(after)
  {
    && Extends(before, after)
    && (ending in {Running, Stopped} ==> after.state == Filling && after.len == before.len)
    && (ending == Failure ==> after.state == Failed && after.len == before.len)
    && (ending == Finished ==>
          after.state == Complete && Gapless(after, after.len) && after.len >= Min(before.len, MAX_FRAMES))
    && (ending == GaveUp ==> after.state == Complete && (Gapless(after, after.len) <==> PrefixShaped(after.filled)))
  }

  lemma ExtendsTwice(a: View, b: View, c: View)
    requires WellFormed(a) && WellFormed(b) && WellFormed(c) && Extends(a, b) && Extends(b, c)
    ensures Extends(a, c)
  {}

  lemma SameWordsAgree(v: View, v': View, track: Track)
    requires WellFormed(v) && WellFormed(v') && v'.filled == v.filled && v'.words == v.words
    ensures Agrees(v, track) ==> Agrees(v', track)
  {}

  // ------------------------------------------------- one turn of the loop

  /** The store and the cursor between two turns. */
  datatype Progress = Progress(view: View, cursor: nat)

  /** Where a seek hint takes the cursor: to the start of the hinted chunk, or where the seek landed before it. */
  function Hinted(p: Progress, turn: Turn): nat {
    if turn.hint.Some? && !Covers(p.view, turn.hint.value) && turn.hintSeek.Some? then
      Min(turn.hintSeek.value, ChunkStart(ChunkOf(turn.hint.value)))
    else p.cursor
  }

  function Lowest(v: View): Option<nat> { LowestUnfilled(v.len, v.filled, 0) }

  /** The cursor a packet is written at: away from covered frames, to the first chunk that still has a gap. */
  function Steered(p: Progress, turn: Turn): nat {
    var at := Hinted(p, turn);
    if !Covers(p.view, at) || Lowest(p.view).None? then at
    else if turn.jumpSeek.Some? then Min(turn.jumpSeek.value, Lowest(p.view).value)
    else Lowest(p.view).value
  }

  /** How the packet of a turn ends the loop, if it does. */
  function EndsPacket(v: View, packet: Packet): Option<Ending> {
    match packet
    case Decoded(_, _) => None
    case Malformed => None
    case DecoderError => Some(Failure)
    case ReadError => Some(Failure)
    case EndOfFile(seek) => if Lowest(v).None? then Some(Finished) else if seek.None? then Some(GaveUp) else None
  }

  /** Whether the loop ends in this turn, and how. */
  function EndsTurn(p: Progress, turn: Turn, forceFail: ForceFail): Option<Ending> {
    if turn.stop then Some(Stopped)
    else if forceFail == Immediate || (forceFail == After5s && CoveredFrames(p.view) >= SAMPLE_RATE * 5) then Some(Failure)
    else if Covers(p.view, Hinted(p, turn)) && Lowest(p.view).None? then Some(Finished)
    else EndsPacket(p.view, turn.packet)
  }

  /** What a packet taken with the cursor at `at` makes of store and cursor, if the loop goes on. */
  ghost predicate Taken(v: View, at: nat, packet: Packet, p': Progress) {
    match packet
    case Decoded(ts, samples) => Trimmed(v, p'.view, at, p'.cursor, ts, samples)
    case Malformed => p' == Progress(v, at)
    case EndOfFile(seek) => Lowest(v).Some? && seek.Some? && p' == Progress(v, Min(seek.value, Lowest(v).value))
    case _ => false
  }

  ghost predicate GoesOn(p: Progress, turn: Turn, forceFail: ForceFail, p': Progress) {
    EndsTurn(p, turn, forceFail).None? && Taken(p.view, Steered(p, turn), turn.packet, p')
  }

  /** Store and cursor before each turn that was begun, and at the end. */
  ghost predicate Follows(trace: seq<Progress>, turns: seq<Turn>, forceFail: ForceFail) {
    && 0 < |trace| <= |turns| + 1
    && (forall i :: 0 <= i < |trace| ==> WellFormed(trace[i].view))
    && forall i :: 0 <= i < |trace| - 1 ==> GoesOn(trace[i], turns[i], forceFail, trace[i + 1])
  }

  /** How the loop leaves the store after its last whole turn. */
  ghost predicate EndsWith(p: Progress, turns: seq<Turn>, n: nat, forceFail: ForceFail, ending: Ending, after: View)
    requires n <= |turns|
  {
    && (if n == |turns| then ending == Running else EndsTurn(p, turns[n], forceFail) == Some(ending))
    && after == Left(p.view, ending)
  }

  /** How an ending leaves the store. */
  function Left(v: View, ending: Ending): View {
    match ending
    case Running => v
    case Stopped => v
    case Failure => SetFailed(v)
    case _ => SetComplete(v, CoveredFrames(v))
  }

  /** The whole run, turn by turn. */
  ghost predicate RanAs(before: View, turns: seq<Turn>, forceFail: ForceFail, trace: seq<Progress>, ending: Ending,
                        after: View)
  {
    && Follows(trace, turns, forceFail) && trace[0] == Progress(before, 0)
    && EndsWith(trace[|trace| - 1], turns, |trace| - 1, forceFail, ending, after)
  }

  lemma FollowsOn(trace: seq<Progress>, turns: seq<Turn>, forceFail: ForceFail, p: Progress)
    requires Follows(trace, turns, forceFail) && |trace| <= |turns|
    requires GoesOn(trace[|trace| - 1], turns[|trace| - 1], forceFail, p) && WellFormed(p.view)
    ensures Follows(trace + [p], turns, forceFail)
  {
    hide GoesOn, WellFormed;
  }

  lemma FollowsFirst(p: Progress, turns: seq<Turn>, forceFail: ForceFail)
    requires WellFormed(p.view)
    ensures Follows([p], turns, forceFail)
  {}

  /** However it ends: from a filling store that extends the one before, and with no chunk left to fill on finishing. */
  lemma LeftEnds(before: View, p: Progress, turn: Turn, forceFail: ForceFail, ending: Ending)
    requires WellFormed(before) && WellFormed(p.view) && Extends(before, p.view)
    requires p.view.state == Filling && p.view.len == before.len && |p.view.filled| == TableSize(before.len)
    requires ending == Running || EndsTurn(p, turn, forceFail) == Some(ending)
    ensures WellFormed(Left(p.view, ending)) && EndedAs(before, Left(p.view, ending), ending)
  {
    hide Covers, Extends;
    var v' := Left(p.view, ending);
    SameWordsExtend(before, p.view, v');
    CompletingAtCoveredFrames(p.view);
    if ending == Finished {
      NoUnfilledChunkCompletesGapless(p.view);
    }
  }

  lemma SameWordsExtend(before: View, v: View, v': View)
    requires WellFormed(before) && WellFormed(v) && Extends(before, v) && v'.filled == v.filled && v'.words == v.words
    ensures WellFormed(v') && Extends(before, v')
  {}

  /** Follow a seek hint, then leave covered frames for the first gap; without a gap the work is done. */
  method Steer(store: DecodedStore, cursor: nat, turn: Turn) returns (at: nat, done: bool)
    requires store.Valid()
    ensures var p := Progress(store.Value(), cursor);
            && (done <==> Covers(p.view, Hinted(p, turn)) && Lowest(p.view).None?)
            && (!done ==> at == Steered(p, turn))
  {
    hide LowestUnfilled, Covers, WellFormed;
    at, done := cursor, false;
    if turn.hint.Some? && !store.CoversFrame(turn.hint.value) && turn.hintSeek.Some? {
      at := Min(turn.hintSeek.value, ChunkStart(ChunkOf(turn.hint.value)));
    }
    if store.CoversFrame(at) {
      var lowest := LowestUnfilled(store.lenFrames, store.filled[..], 0);
      if lowest.None? {
        return at, true;
      }
      at := if turn.jumpSeek.Some? then Min(turn.jumpSeek.value, lowest.value) else lowest.value;
    }
  }

  ghost predicate PacketTruthful(track: Track, packet: Packet) {
    packet.Decoded? ==> Truthful(track, packet.ts, packet.samples)
  }

  /** What reading the next packet with the cursor at `at` leads to. */
  method TakePacket(store: DecodedStore, at: nat, packet: Packet, covered: nat, ghost track: Track)
    returns (cursor: nat, ending: Option<Ending>)
    requires store.Valid() && store.Value().state == Filling && covered == CoveredFrames(store.Value())
    modifies store, store.filled, store.words
    ensures store.Valid() && ending == EndsPacket(old(store.Value()), packet)
    ensures ending.None? ==>
              && Taken(old(store.Value()), at, packet, Progress(store.Value(), cursor))
              && Extends(old(store.Value()), store.Value())
              && store.Value().state == Filling && store.Value().len == old(store.Value()).len
    ensures ending.Some? ==> store.Value() == Left(old(store.Value()), ending.value)
    ensures Agrees(old(store.Value()), track) && PacketTruthful(track, packet) ==> Agrees(store.Value(), track)
  {
    Unwritten(store.Value(), 0, 0, []);
    hide Trimmed, Extends, Agrees, Truthful, WellFormed, LowestUnfilled, Covers, CoveredFrames;
    cursor, ending := at, None;
    match packet {
      case Decoded(ts, samples) =>
        cursor := WriteTrimmed(store, at, ts, samples, track);
      case Malformed =>
      case DecoderError =>
        Fail(store, track);
        ending := Some(Failure);
      case ReadError =>
        Fail(store, track);
        ending := Some(Failure);
      case EndOfFile(seek) =>
        var lowest := LowestUnfilled(store.lenFrames, store.filled[..], 0);
        if lowest.Some? && seek.Some? {
          cursor := Min(seek.value, lowest.value);
        } else {
          Conclude(store, covered, track);
          ending := Some(if lowest.None? then Finished else GaveUp);
        }
    }
  }

  /** One turn of the loop. */
  method TakeTurn(store: DecodedStore, cursor: nat, turn: Turn, forceFail: ForceFail, ghost track: Track)
    returns (cursor': nat, ending: Option<Ending>)
    requires store.Valid() && store.Value().state == Filling
    modifies store, store.filled, store.words
    ensures store.Valid() && ending == EndsTurn(Progress(old(store.Value()), cursor), turn, forceFail)
    ensures ending.None? ==>
              && GoesOn(Progress(old(store.Value()), cursor), turn, forceFail, Progress(store.Value(), cursor'))
              && Extends(old(store.Value()), store.Value())
              && store.Value().state == Filling && store.Value().len == old(store.Value()).len
    ensures ending.Some? ==> store.Value() == Left(old(store.Value()), ending.value)
    ensures Agrees(old(store.Value()), track) && PacketTruthful(track, turn.packet) ==> Agrees(store.Value(), track)
  {
    hide Taken, Extends, Agrees, PacketTruthful, WellFormed, Lowest, Covers, Hinted, Steered, EndsPacket, CoveredFrames;
    cursor' := cursor;
    if turn.stop {
      return cursor, Some(Stopped);
    }
    var covered := store.Covered();
    if forceFail == Immediate || (forceFail == After5s && covered >= SAMPLE_RATE * 5) {
      Fail(store, track);
      return cursor, Some(Failure);
    }
    var at, done := Steer(store, cursor, turn);
    if done {
      Conclude(store, covered, track);
      return at, Some(Finished);
    }
    cursor', ending := TakePacket(store, at, turn.packet, covered, track);
  }

  method Fail(store: DecodedStore, ghost track: Track)
    requires store.Valid() && store.Value().state == Filling
    modifies store
    ensures store.Valid()
    ensures store.Value() == SetFailed(old(store.Value()))
    ensures Agrees(old(store.Value()), track) ==> Agrees(store.Value(), track)
  {
    hide Agrees, WellFormed;
    store.MarkFailed();
    SameWordsAgree(old(store.Value()), store.Value(), track);
  }

  method Conclude(store: DecodedStore, covered: nat, ghost track: Track)
    requires store.Valid() && store.Value().state == Filling && covered == CoveredFrames(store.Value())
    modifies store
    ensures store.Valid()
    ensures store.Value() == SetComplete(old(store.Value()), covered)
    ensures Agrees(old(store.Value()), track) ==> Agrees(store.Value(), track)
  {
    hide Agrees, WellFormed;
    store.MarkComplete(covered);
    SameWordsAgree(old(store.Value()), store.Value(), track);
  }

  /**
   * The loop over any packets, hints and seeks. The store only ever grows, agrees with the track throughout if the
   * packets do, and on finishing has no gap; the one ending that can leave a gap is a failed seek at end of file. The
   * trace tells each turn's store and cursor.
   */
  method Run(store: DecodedStore, turns: seq<Turn>, forceFail: ForceFail, ghost track: Track)
    returns (ending: Ending, ghost trace: seq<Progress>)
    requires store.Valid() && store.Value().state == Filling
    requires |store.Value().filled| == TableSize(store.Value().len)
    modifies store, store.filled, store.words
    ensures store.Valid() && EndedAs(old(store.Value()), store.Value(), ending)
    ensures Agrees(old(store.Value()), track) && AllTruthful(track, turns) ==> Agrees(store.Value(), track)
    ensures RanAs(old(store.Value()), turns, forceFail, trace, ending, store.Value())
  {
    ghost var before := store.Value();
    Unwritten(before, 0, 0, []);
    hide Trimmed, Extends, Agrees, Truthful, EndedAs, WellFormed, TableSize, Follows, GoesOn, EndsTurn, Left;
    var cursor: nat := 0;
    trace := [Progress(before, 0)];
    FollowsFirst(trace[0], turns, forceFail);
    for i := 0 to |turns|
      invariant store.Valid() && Extends(before, store.Value()) && |store.Value().filled| == |before.filled|
      invariant store.Value().state == Filling && store.Value().len == before.len
      invariant Agrees(before, track) && AllTruthful(track, turns) ==> Agrees(store.Value(), track)
      invariant |trace| == i + 1 && Follows(trace, turns, forceFail)
      invariant trace[0] == Progress(before, 0) && trace[i] == Progress(store.Value(), cursor)
    {
      ghost var p := trace[i];
      var ended: Option<Ending>;
      cursor, ended := TakeTurn(store, cursor, turns[i], forceFail, track);
      if ended.Some? {
        LeftEnds(before, p, turns[i], forceFail, ended.value);
        ending := ended.value;
        return;
      }
      ExtendsTwice(before, p.view, store.Value());
      FollowsOn(trace, turns, forceFail, Progress(store.Value(), cursor));
      trace := trace + [Progress(store.Value(), cursor)];
    }
    LeftEnds(before, trace[|turns|], Turn(false, None, None, None, Malformed), forceFail, Running);
    LeftRunning(store.Value());
    ending := Running;
  }

  lemma LeftRunning(v: View)
    ensures Left(v, Running) == v
  {}
}
