/** The decoded store in memory: one writer appends chunk by chunk, readers see whole published frames. */
module DecodedStores {
  import opened Prelude
  import opened StoreModel

  class DecodedStore {
    var lenFrames: nat
    var state: Lifecycle
    const filled: array<nat>
    const words: array<Sample>

    ghost function Value(): View
      reads this, filled, words
    {
      View(lenFrames, state, filled[..], words[..])
    }

    ghost predicate Valid()
      reads this, filled, words
    {
      WellFormed(Value())
    }

    constructor (lenFrames: nat)
      ensures Valid() && fresh(filled) && fresh(words)
      ensures Value().len == lenFrames && Value().state == Filling
      ensures |Value().filled| == TableSize(lenFrames) && forall f :: !Published(Value().filled, f)
    {
      this.lenFrames := lenFrames;
      state := Filling;
      var n := TableSize(lenFrames);
      filled := new nat[n](_ => 0);
      words := new Sample[2 * ChunkStart(n)](_ => 0.0);
    }

    predicate CoversFrame(frame: nat)
      requires Valid()
      reads this, filled, words
      ensures CoversFrame(frame) <==> Covers(Value(), frame)
    {
      frame < lenFrames && ChunkOf(frame) < filled.Length && filled[ChunkOf(frame)] > OffsetOf(frame)
    }

    method SamplePairAt(frame: nat) returns (pair: Option<Frame>)
      requires Valid()
      ensures pair == SamplePair(Value(), frame)
    {
      if frame >= lenFrames || ChunkOf(frame) >= filled.Length {
        return None;
      }
      if OffsetOf(frame) >= filled[ChunkOf(frame)] {
        return None;
      }
      InTable(Value(), frame);
      return Some((words[2 * frame], words[2 * frame + 1]));
    }

    /** Copy frame `frame`, if covered, into place `at` of `out`. */
    method CopyFrame(frame: nat, out: array<Sample>, at: nat) returns (ok: bool)
      requires Valid() && out != words && 2 * at + 2 <= out.Length
      modifies out
      ensures Valid() && Value() == old(Value())
      ensures ok <==> Covers(Value(), frame)
      ensures ok ==> SamplePair(Value(), frame) == Some((out[2 * at], out[2 * at + 1]))
      ensures forall i :: 0 <= i < out.Length && !(ok && 2 * at <= i < 2 * at + 2) ==> out[i] == old(out[i])
    {
      var pair := SamplePairAt(frame);
      ok := pair.Some?;
      if ok {
        out[2 * at], out[2 * at + 1] := pair.value.0, pair.value.1;
      }
      assert words[..] == old(words[..]) && filled[..] == old(filled[..]);
    }

    /** Copy the covered frames from `from` on into `out`, stopping at the first gap. */
    method ReadFrames(from: nat, out: array<Sample>) returns (copied: nat)
      requires Valid() && out != words
      modifies out
      ensures Valid() && Value() == old(Value())
      ensures copied <= out.Length / 2 && ReadsAs(Value(), from, out[..], copied)
      ensures copied < out.Length / 2 ==> !Covers(Value(), from + copied)
      ensures forall i :: 2 * copied <= i < out.Length ==> out[i] == old(out[i])
    {
      ghost var v := Value();
      var want := out.Length / 2;
      copied := 0;
      hide WellFormed, Covers, SamplePair, ReadsAs;
      assert ReadsAs(v, from, out[..], 0) by { NoneRead(v, from, out[..]); }
      while copied < want
        invariant copied <= want && Valid() && Value() == v
        invariant ReadsAs(v, from, out[..], copied)
        invariant forall i :: 2 * copied <= i < out.Length ==> out[i] == old(out[i])
      {
        ghost var before := out[..];
        var ok := CopyFrame(from + copied, out, copied);
        if !ok { break; }
        assert out[..2 * copied] == before[..2 * copied];
        ReadOneMore(v, from, before, out[..], copied);
        copied := copied + 1;
      }
    }

    /** Store `n` frames of `data`, starting with its frame `src`, as the frames from `frame` on. */
    method StoreWords(frame: nat, data: seq<Sample>, src: nat, n: nat)
      requires 2 * (src + n) <= |data| && 2 * (frame + n) <= words.Length
      modifies words
      ensures forall i :: 0 <= i < words.Length ==>
                words[i] == if 2 * frame <= i < 2 * (frame + n) then data[i - 2 * frame + 2 * src] else old(words[i])
    {
      for i := 0 to n
        invariant forall k :: 0 <= k < words.Length ==>
                    words[k] == if 2 * frame <= k < 2 * (frame + i) then data[k - 2 * frame + 2 * src] else old(words[k])
      {
        words[2 * (frame + i)] := data[2 * (src + i)];
        words[2 * (frame + i) + 1] := data[2 * (src + i) + 1];
      }
    }

    /** Append interleaved frames; a start that is no append point writes nothing. */
    method WriteFrames(from: nat, data: seq<Sample>) returns (written: nat)
      requires Valid()
      modifies filled, words
      ensures Valid() && Wrote(old(Value()), Value(), from, data, written)
    {
      if state != Filling {
        return 0;
      }
      ghost var before := Value();
      var total := |data| / 2;
      written := 0;
      var frame := from;
      assert Appended(before, before, from, data, 0);
      hide Appended, Published, EntersChunk;
      while written < total && frame < MAX_FRAMES
        invariant Valid() && written <= total && frame == from + written
        invariant Appended(before, Value(), from, data, written)
        invariant 0 < written < total ==> OffsetOf(frame) == 0
        invariant unchanged(this)
        decreases total - written
      {
        NextChunkUntouched(before, Value(), from, data, written);
        var chunk := ChunkOf(frame);
        if chunk >= filled.Length { break; }
        var offset := frame - ChunkStart(chunk);
        if offset != filled[chunk] { break; }
        var n := Min(CHUNK - offset, total - written);
        ghost var middle := Value();
        StoreWords(frame, data, written, n);
        filled[chunk] := offset + n;
        AppendStep(before, middle, Value(), from, data, written, n);
        written := written + n;
        frame := frame + n;
      }
    }

    method MarkComplete(exact: nat)
      requires Valid()
      modifies this
      ensures Valid() && Value() == SetComplete(old(Value()), exact)
    {
      if state != Filling { return; }
      if exact > ChunkStart(filled.Length) { return; }
      var covered := Covered();
      if covered < exact { return; }
      lenFrames := exact;
      state := Complete;
    }

    method MarkFailed()
      requires Valid()
      modifies this
      ensures Valid() && Value() == SetFailed(old(Value()))
    {
      if state != Filling { return; }
      state := Failed;
    }

    method Covered() returns (sum: nat)
      requires Valid()
      ensures sum == CoveredFrames(Value())
    {
      sum := 0;
      for c := 0 to filled.Length
        invariant sum == Sum(filled[..c])
      {
        assert filled[..c + 1][..c] == filled[..c];
        sum := sum + filled[c];
      }
      assert filled[..filled.Length] == filled[..];
    }
  }

  lemma NoneRead(v: View, from: nat, out: seq<Sample>)
    requires WellFormed(v)
    ensures ReadsAs(v, from, out, 0)
  {}

  lemma ReadOneMore(v: View, from: nat, before: seq<Sample>, after: seq<Sample>, k: nat)
    requires WellFormed(v) && 2 * k + 2 <= |before| == |after| && ReadsAs(v, from, before, k)
    requires after[..2 * k] == before[..2 * k]
    requires SamplePair(v, from + k) == Some((after[2 * k], after[2 * k + 1]))
    ensures ReadsAs(v, from, after, k + 1)
  {
    hide SamplePair;
    forall i | 0 <= i < k ensures SamplePair(v, from + i) == Some((after[2 * i], after[2 * i + 1])) {
      assert after[..2 * k][2 * i] == before[2 * i] && after[..2 * k][2 * i + 1] == before[2 * i + 1];
    }
  }

  lemma SameChunk(f: nat, g: nat)
    requires ChunkOf(f) == ChunkOf(g)
    ensures f - OffsetOf(f) == g - OffsetOf(g)
  {}

  /** The published frames of a chunk determine its watermark. */
  lemma SameWatermark(a: seq<nat>, b: seq<nat>, c: nat)
    requires c < |a| == |b| && a[c] <= CHUNK && b[c] <= CHUNK
    requires forall f: nat :: ChunkOf(f) == c ==> (Published(a, f) <==> Published(b, f))
    ensures a[c] == b[c]
  {
    var o := Min(a[c], b[c]);
    if o < CHUNK {
      FrameOf(c, o);
      assert Published(a, ChunkStart(c) + o) <==> Published(b, ChunkStart(c) + o);
    }
  }

  /** After part of a write, the next chunk is at its append point exactly if it was before the write. */
  lemma NextChunkUntouched(before: View, middle: View, from: nat, data: seq<Sample>, written: nat)
    requires WellFormed(before) && WellFormed(middle) && Appended(before, middle, from, data, written)
    requires written > 0 ==> OffsetOf(from + written) == 0
    ensures AppendPoint(before.filled, from + written) <==> AppendPoint(middle.filled, from + written)
  {
    var frame := from + written;
    var c := ChunkOf(frame);
    if c < |before.filled| {
      forall f: nat | ChunkOf(f) == c ensures Published(before.filled, f) <==> Published(middle.filled, f) {
        SameChunk(f, frame);
      }
      SameWatermark(before.filled, middle.filled, c);
    }
  }

  /** Raising one watermark publishes exactly the frames in between. */
  lemma RaiseWatermark(filled: seq<nat>, filled': seq<nat>, frame: nat, n: nat)
    requires ChunkOf(frame) < |filled| && filled[ChunkOf(frame)] == OffsetOf(frame) && n <= CHUNK - OffsetOf(frame)
    requires filled' == filled[ChunkOf(frame) := OffsetOf(frame) + n]
    ensures forall f: nat :: Published(filled', f) <==> Published(filled, f) || frame <= f < frame + n
  {
    forall f: nat ensures Published(filled', f) <==> Published(filled, f) || frame <= f < frame + n {
      if ChunkOf(f) == ChunkOf(frame) {
        SameChunk(f, frame);
      }
    }
  }

  lemma OnlyEntry(from: nat, written: nat, n: nat, f: nat)
    requires EntersChunk(from, written + n, f) && n <= CHUNK - OffsetOf(from + written)
    ensures EntersChunk(from, written, f) || f == from + written
  {}

  /** One chunk's worth more. */
  lemma AppendStep(before: View, middle: View, after: View, from: nat, data: seq<Sample>, written: nat, n: nat)
    requires WellFormed(before) && WellFormed(middle)
    requires Appended(before, middle, from, data, written) && 0 < n && 2 * (written + n) <= |data|
    requires after.len == middle.len && after.state == middle.state
    requires AppendPoint(middle.filled, from + written) && (written > 0 ==> OffsetOf(from + written) == 0)
    requires n <= CHUNK - OffsetOf(from + written)
    requires var frame := from + written;
             && after.filled == middle.filled[ChunkOf(frame) := OffsetOf(frame) + n]
             && |after.words| == |middle.words|
             && (forall i :: 0 <= i < |after.words| ==>
                   after.words[i] == if 2 * frame <= i < 2 * (frame + n) then data[i - 2 * frame + 2 * written]
                                     else middle.words[i])
    ensures WellFormed(after) && Appended(before, after, from, data, written + n)
  {
    NextChunkUntouched(before, middle, from, data, written);
    RaiseWatermark(middle.filled, after.filled, from + written, n);
    forall f: nat | EntersChunk(from, written + n, f) ensures AppendPoint(before.filled, f) {
      OnlyEntry(from, written, n, f);
    }
  }
}
