/** One writer and any number of readers on a decoded store, interleaved load by load and store by store. */
module StoreRace {
  import opened Prelude
  import opened StoreModel
  import opened StoreCompletion
  import opened DecodeAhead

  /** The writer between two chunks, or with `done` of the words of `data` stored as the frames from `frame` on. */
  datatype Writer = Idle | Storing(frame: nat, data: seq<Sample>, done: nat)

  /** A reader of frame `f`, by the loads it has behind it. */
  datatype Reader =
    | Ready
    | BelowLength(f: nat)
    | SeenPublished(f: nat)
    | GotLeft(f: nat, left: Sample)
    | GotPair(f: nat, pair: Frame)

  datatype System = System(store: View, writer: Writer, readers: seq<Reader>)

  datatype Step =
    | BeginChunk(frame: nat, data: seq<Sample>)
    | StoreWord
    | Publish
    | Complete(exact: nat)
    | LoadLength(reader: nat, f: nat)
    | LoadWatermark(reader: nat)
    | LoadLeft(reader: nat)
    | LoadRight(reader: nat)

  ghost predicate Enabled(s: System, step: Step, track: Track) {
    match step
    case BeginChunk(frame, data) =>
      && s.writer.Idle? && s.store.state == Filling && AppendPoint(s.store.filled, frame)
      && |data| % 2 == 0 && |data| / 2 <= CHUNK - OffsetOf(frame) && Truthful(track, frame, data)
    case StoreWord => s.writer.Storing? && s.writer.done < |s.writer.data|
    case Publish => s.writer.Storing? && s.writer.done == |s.writer.data|
    case Complete(exact) => s.writer.Idle?
    case LoadLength(r, f) => r < |s.readers| && s.readers[r].Ready?
    case LoadWatermark(r) => r < |s.readers| && s.readers[r].BelowLength?
    case LoadLeft(r) => r < |s.readers| && s.readers[r].SeenPublished?
    case LoadRight(r) => r < |s.readers| && s.readers[r].GotLeft?
  }

  ghost predicate Consistent(s: System, track: Track) {
    && WellFormed(s.store)
    && Agrees(s.store, track)
    && (s.writer.Storing? ==> WriterConsistent(s.store, s.writer, track))
    && forall r :: 0 <= r < |s.readers| ==> ReaderConsistent(s.store, s.readers[r], track)
  }

  ghost predicate WriterConsistent(v: View, w: Writer, track: Track)
    requires WellFormed(v) && w.Storing?
  {
    && AppendPoint(v.filled, w.frame) && |w.data| % 2 == 0 && |w.data| / 2 <= CHUNK - OffsetOf(w.frame)
    && Truthful(track, w.frame, w.data) && w.done <= |w.data|
    && 2 * w.frame + |w.data| <= |v.words|
    && v.words[2 * w.frame..2 * w.frame + w.done] == w.data[..w.done]
  }

  ghost predicate ReaderConsistent(v: View, r: Reader, track: Track)
    requires WellFormed(v)
  {
    match r
    case Ready => true
    case BelowLength(f) => true
    case SeenPublished(f) => Published(v.filled, f)
    case GotLeft(f, left) => Published(v.filled, f) && left == track(f).0
    case GotPair(f, pair) => pair == track(f)
  }

  ghost function Next(s: System, step: Step, track: Track): System
    requires Consistent(s, track) && Enabled(s, step, track)
  {
    match step
    case BeginChunk(frame, data) => s.(writer := Storing(frame, data, 0))
    case StoreWord =>
      var w := s.writer;
      s.(store := s.store.(words := s.store.words[2 * w.frame + w.done := w.data[w.done]]),
         writer := w.(done := w.done + 1))
    case Publish =>
      var w := s.writer;
      s.(store := s.store.(filled := s.store.filled[ChunkOf(w.frame) := OffsetOf(w.frame) + |w.data| / 2]),
         writer := Idle)
    case Complete(exact) => s.(store := SetComplete(s.store, exact))
    case LoadLength(r, f) => s.(readers := s.readers[r := if f < s.store.len then BelowLength(f) else Ready])
    case LoadWatermark(r) =>
      var f := s.readers[r].f;
      s.(readers := s.readers[r := if Published(s.store.filled, f) then SeenPublished(f) else Ready])
    case LoadLeft(r) =>
      var f := s.readers[r].f;
      InTable(s.store, f);
      s.(readers := s.readers[r := GotLeft(f, s.store.words[2 * f])])
    case LoadRight(r) =>
      var f := s.readers[r].f;
      InTable(s.store, f);
      s.(readers := s.readers[r := GotPair(f, (s.readers[r].left, s.store.words[2 * f + 1]))])
  }

  /** The word a writer stores next belongs to a frame that is not published yet. */
  lemma StoresUnpublished(v: View, w: Writer, f: nat, track: Track)
    requires WellFormed(v) && w.Storing? && WriterConsistent(v, w, track) && w.done < |w.data|
    requires Published(v.filled, f)
    ensures 2 * f + 1 < |v.words| && 2 * f != 2 * w.frame + w.done && 2 * f + 1 != 2 * w.frame + w.done
  {
    InTable(v, f);
    FrameSplit(f);
    FrameSplit(w.frame);
  }

  lemma StoreWordConsistent(s: System, track: Track)
    requires Consistent(s, track) && Enabled(s, StoreWord, track)
    ensures Consistent(Next(s, StoreWord, track), track)
  {
    var s' := Next(s, StoreWord, track);
    var w, at := s.writer, 2 * s.writer.frame + s.writer.done;
    forall f: nat | Published(s'.store.filled, f)
      ensures (InTable(s'.store, f); PairAt(s'.store.words, f) == track(f))
    {
      StoresUnpublished(s.store, w, f, track);
    }
    assert s'.store.words[2 * w.frame..at + 1] == s.store.words[2 * w.frame..at] + [w.data[w.done]];
    assert w.data[..w.done + 1] == w.data[..w.done] + [w.data[w.done]];
  }

  /** What the words of a finished write say, frame by frame. */
  lemma StoredFrame(v: View, w: Writer, track: Track, f: nat)
    requires WellFormed(v) && w.Storing? && WriterConsistent(v, w, track) && w.done == |w.data|
    requires w.frame <= f < w.frame + |w.data| / 2
    ensures 2 * f + 1 < |v.words| && PairAt(v.words, f) == track(f)
  {
    var k := f - w.frame;
    var stored := v.words[2 * w.frame..2 * w.frame + w.done];
    assert stored == w.data[..w.done];
    assert stored[2 * k] == v.words[2 * f] && stored[2 * k + 1] == v.words[2 * f + 1];
    assert (w.data[2 * k], w.data[2 * k + 1]) == track(w.frame + k);
  }

  /** Publishing adds the frames of the write and no others. */
  lemma PublishAdds(v: View, w: Writer, track: Track, f: nat)
    requires WellFormed(v) && w.Storing? && WriterConsistent(v, w, track)
    ensures var filled := v.filled[ChunkOf(w.frame) := OffsetOf(w.frame) + |w.data| / 2];
            Published(filled, f) <==> Published(v.filled, f) || w.frame <= f < w.frame + |w.data| / 2
  {
    FrameSplit(f);
    FrameSplit(w.frame);
  }

  lemma PublishConsistent(s: System, track: Track)
    requires Consistent(s, track) && Enabled(s, Publish, track)
    ensures Consistent(Next(s, Publish, track), track)
  {
    var s', w := Next(s, Publish, track), s.writer;
    forall f: nat
      ensures Published(s.store.filled, f) ==> Published(s'.store.filled, f)
      ensures Published(s'.store.filled, f) ==> (InTable(s'.store, f); PairAt(s'.store.words, f) == track(f))
    {
      PublishAdds(s.store, w, track, f);
      if w.frame <= f < w.frame + |w.data| / 2 {
        StoredFrame(s.store, w, track, f);
      }
      hide WriterConsistent, ReaderConsistent;
    }
    hide WriterConsistent;
    forall r | 0 <= r < |s'.readers| ensures ReaderConsistent(s'.store, s'.readers[r], track) {
      assert ReaderConsistent(s.store, s.readers[r], track);
    }
  }

  lemma BeginChunkInTable(v: View, frame: nat, n: nat)
    requires WellFormed(v) && AppendPoint(v.filled, frame) && n <= CHUNK - OffsetOf(frame)
    ensures 2 * frame + 2 * n <= |v.words|
  {
    FrameSplit(frame);
  }

  lemma ReaderStepConsistent(s: System, step: Step, track: Track)
    requires Consistent(s, track) && Enabled(s, step, track)
    requires step.LoadLength? || step.LoadWatermark? || step.LoadLeft? || step.LoadRight?
    ensures Consistent(Next(s, step, track), track)
  {
    var s' := Next(s, step, track);
    var at := step.reader;
    assert ReaderConsistent(s.store, s.readers[at], track);
    if step.LoadLeft? || step.LoadRight? {
      InTable(s.store, s.readers[at].f);
    }
    forall r | 0 <= r < |s'.readers| ensures ReaderConsistent(s'.store, s'.readers[r], track) {
      if r != at {
        assert ReaderConsistent(s.store, s.readers[r], track);
      }
    }
  }

  lemma StepConsistent(s: System, step: Step, track: Track)
    requires Consistent(s, track) && Enabled(s, step, track)
    ensures Consistent(Next(s, step, track), track)
  {
    match step
    case BeginChunk(frame, data) => BeginChunkInTable(s.store, frame, |data| / 2);
    case StoreWord => StoreWordConsistent(s, track);
    case Publish => PublishConsistent(s, track);
    case Complete(exact) => CompleteConsistent(s, exact, track);
    case _ => ReaderStepConsistent(s, step, track);
  }

  lemma CompleteConsistent(s: System, exact: nat, track: Track)
    requires Consistent(s, track) && s.writer.Idle?
    ensures Consistent(s.(store := SetComplete(s.store, exact)), track)
  {
    var v' := SetComplete(s.store, exact);
    SameWordsAgree(s.store, v', track);
    forall r | 0 <= r < |s.readers| ensures ReaderConsistent(v', s.readers[r], track) {
      assert ReaderConsistent(s.store, s.readers[r], track);
    }
  }

  /** Some way to take `steps` one after another, each enabled when its turn comes. */
  ghost predicate Run(s: System, steps: seq<Step>, track: Track)
    requires Consistent(s, track)
    decreases |steps|
  {
    steps == [] || (
      && Enabled(s, steps[0], track)
      && (StepConsistent(s, steps[0], track); Run(Next(s, steps[0], track), steps[1..], track)))
  }

  ghost function After(s: System, steps: seq<Step>, track: Track): System
    requires Consistent(s, track) && Run(s, steps, track)
    decreases |steps|
  {
    if steps == [] then s
    else
      StepConsistent(s, steps[0], track);
      After(Next(s, steps[0], track), steps[1..], track)
  }

  /** A new store with idle readers. */
  ghost predicate Fresh(s: System) {
    && WellFormed(s.store) && s.store.state == Filling && s.writer.Idle?
    && (forall c :: 0 <= c < |s.store.filled| ==> s.store.filled[c] == 0)
    && forall r :: 0 <= r < |s.readers| ==> s.readers[r].Ready?
  }

  /** A new store agrees with any track, so what follows holds of every run from one. */
  lemma FreshConsistent(s: System, track: Track)
    requires Fresh(s)
    ensures Consistent(s, track)
  {}

  lemma {:induction false} RunConsistent(s: System, steps: seq<Step>, track: Track)
    requires Consistent(s, track) && Run(s, steps, track)
    ensures Consistent(After(s, steps, track), track)
    ensures Extends(s.store, After(s, steps, track).store)
    decreases |steps|
  {
    if steps != [] {
      var s1 := Next(s, steps[0], track);
      StepConsistent(s, steps[0], track);
      StepExtends(s, steps[0], track);
      RunConsistent(s1, steps[1..], track);
      ExtendsTwice(s.store, s1.store, After(s, steps, track).store);
    }
  }

  lemma StepExtends(s: System, step: Step, track: Track)
    requires Consistent(s, track) && Enabled(s, step, track)
    ensures WellFormed(Next(s, step, track).store) && Extends(s.store, Next(s, step, track).store)
  {
    StepConsistent(s, step, track);
    if step.StoreWord? {
      forall f: nat | Published(s.store.filled, f) ensures
        (InTable(s.store, f); PairAt(Next(s, step, track).store.words, f) == PairAt(s.store.words, f))
      {
        StoresUnpublished(s.store, s.writer, f, track);
      }
    }
  }

  /** From any consistent state every pair a reader obtains is the track's. */
  lemma ReadsAreTheTrack(s: System, steps: seq<Step>, track: Track, reader: nat)
    requires Consistent(s, track) && Run(s, steps, track)
    ensures WellFormed(After(s, steps, track).store) && Extends(s.store, After(s, steps, track).store)
    ensures reader < |After(s, steps, track).readers| ==>
              var r := After(s, steps, track).readers[reader]; r.GotPair? ==> r.pair == track(r.f)
  {
    RunConsistent(s, steps, track);
    var end := After(s, steps, track);
    assert reader < |end.readers| ==> ReaderConsistent(end.store, end.readers[reader], track);
  }

  /**
   * In every interleaving from a new store, every pair a reader obtains for a frame is the track's pair for that frame,
   * never torn between two writes; and what is published at any moment of the run is never overwritten after it.
   */
  lemma ReadsAreNeverTorn(s: System, first: seq<Step>, then_: seq<Step>, track: Track, reader: nat)
    requires Fresh(s) && (FreshConsistent(s, track); Run(s, first, track))
    requires (RunConsistent(s, first, track); Run(After(s, first, track), then_, track))
    ensures (RunConsistent(s, first, track);
             var (mid, end) := (After(s, first, track), After(After(s, first, track), then_, track));
             && WellFormed(mid.store) && WellFormed(end.store) && Extends(mid.store, end.store)
             && (reader < |end.readers| ==> var r := end.readers[reader]; r.GotPair? ==> r.pair == track(r.f)))
  {
    hide Consistent, Extends, WellFormed;
    FreshConsistent(s, track);
    RunConsistent(s, first, track);
    ReadsAreTheTrack(After(s, first, track), then_, track, reader);
    ConsistentStore(After(s, first, track), track);
  }

  lemma ConsistentStore(s: System, track: Track)
    requires Consistent(s, track)
    ensures WellFormed(s.store)
  {}

  // ------------------------------------------------- what gets through

  /** The steps of one write, without anything in between. */
  function WriteSteps(frame: nat, data: seq<Sample>): seq<Step> {
    [BeginChunk(frame, data)] + seq(|data|, i => StoreWord) + [Publish]
  }

  lemma {:induction false} WordsStored(s: System, n: nat, track: Track)
    requires Consistent(s, track) && s.writer.Storing? && s.writer.done + n == |s.writer.data|
    ensures var steps := seq(n, i => StoreWord) + [Publish];
            && Run(s, steps, track)
            && After(s, steps, track).store.filled
               == s.store.filled[ChunkOf(s.writer.frame) := OffsetOf(s.writer.frame) + |s.writer.data| / 2]
            && After(s, steps, track).writer == Idle && After(s, steps, track).readers == s.readers
    decreases n
  {
    hide Consistent, WriterConsistent;
    var steps := seq(n, i => StoreWord) + [Publish];
    WriterInTable(s, track);
    if n == 0 {
      assert steps == [Publish] && steps[1..] == [];
      StepConsistent(s, Publish, track);
    } else {
      assert steps[0] == StoreWord && steps[1..] == seq(n - 1, i => StoreWord) + [Publish];
      StepConsistent(s, StoreWord, track);
      WordsStored(Next(s, StoreWord, track), n - 1, track);
    }
  }

  lemma WriterInTable(s: System, track: Track)
    requires Consistent(s, track) && s.writer.Storing?
    ensures ChunkOf(s.writer.frame) < |s.store.filled| && s.writer.done <= |s.writer.data|
    ensures s.writer.done < |s.writer.data| ==> 2 * s.writer.frame + s.writer.done < |s.store.words|
  {}

  /** A write that runs to its end publishes every one of its frames. */
  lemma WritesGetThrough(s: System, frame: nat, data: seq<Sample>, track: Track, f: nat)
    requires Consistent(s, track) && Enabled(s, BeginChunk(frame, data), track)
    requires frame <= f < frame + |data| / 2
    ensures Run(s, WriteSteps(frame, data), track)
    ensures Published(After(s, WriteSteps(frame, data), track).store.filled, f)
  {
    var steps := WriteSteps(frame, data);
    var s1 := Next(s, BeginChunk(frame, data), track);
    StepConsistent(s, BeginChunk(frame, data), track);
    assert steps[1..] == seq(|data|, i => StoreWord) + [Publish];
    WordsStored(s1, |data|, track);
    FrameSplit(frame);
    FrameOf(ChunkOf(frame), OffsetOf(frame) + (f - frame));
  }

  /** The loads of one read. */
  function ReadSteps(reader: nat, f: nat): seq<Step> {
    [LoadLength(reader, f), LoadWatermark(reader), LoadLeft(reader), LoadRight(reader)]
  }

  /** A reader that runs through its loads obtains exactly the pair of a published frame within the length. */
  lemma ReadsGetThrough(s: System, reader: nat, f: nat, track: Track)
    requires Consistent(s, track) && reader < |s.readers| && s.readers[reader].Ready?
    requires f < s.store.len && Published(s.store.filled, f)
    ensures Run(s, ReadSteps(reader, f), track)
    ensures After(s, ReadSteps(reader, f), track) == s.(readers := s.readers[reader := GotPair(f, track(f))])
  {
    hide Consistent, ReaderConsistent, WriterConsistent, Run, After;
    var s1 := OneStep(s, LoadLength(reader, f), track);
    var s2 := OneStep(s1, LoadWatermark(reader), track);
    var s3 := OneStep(s2, LoadLeft(reader), track);
    var s4 := OneStep(s3, LoadRight(reader), track);
    ReadsTheTrack(s4, reader, f, track);
    NoSteps(s4, track);
    StepsOn(s3, LoadRight(reader), [], track);
    StepsOn(s2, LoadLeft(reader), [LoadRight(reader)] + [], track);
    StepsOn(s1, LoadWatermark(reader), [LoadLeft(reader)] + ([LoadRight(reader)] + []), track);
    var last3 := [LoadWatermark(reader)] + ([LoadLeft(reader)] + ([LoadRight(reader)] + []));
    StepsOn(s, LoadLength(reader, f), last3, track);
    assert [LoadLength(reader, f)] + last3 == ReadSteps(reader, f);
    assert s4.readers == s.readers[reader := s4.readers[reader]];
  }

  lemma OneStep(s: System, step: Step, track: Track) returns (s': System)
    requires Consistent(s, track) && Enabled(s, step, track)
    ensures s' == Next(s, step, track) && Consistent(s', track)
  {
    s' := Next(s, step, track);
    StepConsistent(s, step, track);
  }

  lemma ReadsTheTrack(s: System, reader: nat, f: nat, track: Track)
    requires Consistent(s, track) && reader < |s.readers| && s.readers[reader].GotPair? && s.readers[reader].f == f
    ensures s.readers[reader] == GotPair(f, track(f))
  {
    assert ReaderConsistent(s.store, s.readers[reader], track);
  }

  lemma NoSteps(s: System, track: Track)
    requires Consistent(s, track)
    ensures Run(s, [], track) && After(s, [], track) == s
  {}

  lemma StepsOn(s: System, step: Step, rest: seq<Step>, track: Track)
    requires Consistent(s, track) && Enabled(s, step, track)
    requires Consistent(Next(s, step, track), track) && Run(Next(s, step, track), rest, track)
    ensures Run(s, [step] + rest, track) && After(s, [step] + rest, track) == After(Next(s, step, track), rest, track)
  {
    assert ([step] + rest)[1..] == rest;
  }

  /** A reader is turned away at once past the length, and at the watermark from a frame not published. */
  lemma ReadsAreTurnedAway(s: System, reader: nat, f: nat, track: Track)
    requires Consistent(s, track) && reader < |s.readers|
    ensures s.readers[reader].Ready? && f >= s.store.len ==> Next(s, LoadLength(reader, f), track) == s
    ensures s.readers[reader] == BelowLength(f) && !Published(s.store.filled, f) ==>
              Next(s, LoadWatermark(reader), track) == s.(readers := s.readers[reader := Ready])
  {}
}
