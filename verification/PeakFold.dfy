/** Folding decoded frames into waveform buckets, in one pass or many. */
module PeakFold {
  import opened Prelude
  import opened StoreModel
  import opened DecodedStores
  import opened DecodeAhead

  datatype PeakBucket = PeakBucket(min: int, max: int, rms: nat)

  // --------------------------------------------------------- quantisation

  /** To the nearest integer, halves away from zero. */
  function Round(x: real): int {
    if x >= 0.0 then (x + 0.5).Floor else -((-x + 0.5).Floor)
  }

  function Clamp(x: real, low: real, high: real): real
    requires low <= high
  {
    if x < low then low else if x > high then high else x
  }

  function Quantise(s: Sample): (q: int)
    ensures -127 <= q <= 127
  {
    Round(Clamp(s, -1.0, 1.0) * 127.0)
  }

  /** A sample in range is rounded to the nearest of 127 levels on either side; others are cut at the outermost ones. */
  lemma QuantiseRounds(s: Sample)
    ensures -1.0 <= s <= 1.0 ==> -0.5 <= Quantise(s) as real - s * 127.0 <= 0.5
    ensures -1.0 <= s <= 1.0 && Quantise(s) as real - s * 127.0 == 0.5 ==> s > 0.0
    ensures -1.0 <= s <= 1.0 && Quantise(s) as real - s * 127.0 == -0.5 ==> s < 0.0
    ensures s > 1.0 ==> Quantise(s) == 127
    ensures s < -1.0 ==> Quantise(s) == -127
  {}

  /** The largest level up to `r` whose lower rounding edge the mean square reaches: a rounded square root. */
  function RmsLevel(meanSq: real, r: nat): (q: nat)
    ensures q <= r
    ensures q > 0 ==> Reaches(meanSq, q)
    ensures forall k :: q < k <= r ==> !Reaches(meanSq, k)
  {
    if r == 0 || Reaches(meanSq, r) then r else RmsLevel(meanSq, r - 1)
  }

  predicate Reaches(meanSq: real, r: nat) {
    var edge := (r as real - 0.5) / 127.0;
    edge * edge <= meanSq
  }

  function QuantiseRms(sumSq: real, n: nat): nat {
    if n == 0 then 0 else RmsLevel(sumSq / (2.0 * n as real), 127)
  }

  lemma SquaresGrow(a: real, b: real)
    requires 0.0 <= a < b
    ensures a * a < b * b
  {
    var d := b - a;
    assert b * b == a * a + (2.0 * a * d + d * d);
    assert a * d >= 0.0;
    assert d * d > 0.0;
  }

  lemma SquaresCompare(a: real, b: real)
    requires a >= 0.0 && b >= 0.0
    ensures a * a <= b * b <==> a <= b
  {
    if a < b {
      SquaresGrow(a, b);
    } else if b < a {
      SquaresGrow(b, a);
    }
  }

  lemma ReachesEdge(s: real, k: nat)
    requires s >= 0.0 && k > 0
    ensures Reaches(s * s, k) <==> k as real - 0.5 <= s * 127.0
  {
    SquaresCompare((k as real - 0.5) / 127.0, s);
  }

  /** The byte is the rounded, clamped root mean square: `s` is the square root of the mean. */
  lemma RmsIsRoundedRoot(sumSq: real, n: nat, s: real)
    requires n > 0 && s >= 0.0 && s * s == sumSq / (2.0 * n as real)
    ensures QuantiseRms(sumSq, n) == Round(Clamp(s, 0.0, 1.0) * 127.0)
  {
    var q := QuantiseRms(sumSq, n);
    if q > 0 { ReachesEdge(s, q); }
    if q < 127 { ReachesEdge(s, q + 1); }
  }

  // -------------------------------------------------------------- buckets

  datatype Accumulator = Accumulator(min: int, max: int, sumSq: real, n: nat)

  function Take(a: Accumulator, f: Frame): Accumulator {
    var (l, r) := (Quantise(f.0), Quantise(f.1));
    Accumulator(Min(Min(a.min, l), r), Max(Max(a.max, l), r), a.sumSq + (f.0 * f.0 + f.1 * f.1), a.n + 1)
  }

  function Accumulate(frames: seq<Frame>): (a: Accumulator)
    ensures a.n == |frames|
  {
    if frames == [] then Accumulator(127, -127, 0.0, 0) else Take(Accumulate(frames[..|frames| - 1]), frames[|frames| - 1])
  }

  function Bucket(frames: seq<Frame>): PeakBucket {
    var a := Accumulate(frames);
    PeakBucket(a.min, a.max, QuantiseRms(a.sumSq, a.n))
  }

  /** `q` is the level of a sample, left or right, of one of the frames. */
  ghost predicate IsLevelOf(q: int, frames: seq<Frame>) {
    exists i :: 0 <= i < |frames| && (q == Quantise(frames[i].0) || q == Quantise(frames[i].1))
  }

  ghost predicate Within(f: Frame, a: Accumulator) {
    a.min <= Quantise(f.0) <= a.max && a.min <= Quantise(f.1) <= a.max
  }

  lemma {:induction false} LevelsWithin(frames: seq<Frame>)
    ensures forall i :: 0 <= i < |frames| ==> Within(frames[i], Accumulate(frames))
  {
    hide Quantise;
    if frames != [] {
      var front := frames[..|frames| - 1];
      LevelsWithin(front);
      assert forall i :: 0 <= i < |front| ==> frames[i] == front[i];
    }
  }

  lemma LevelKept(q: int, frames: seq<Frame>, n: nat)
    requires n <= |frames| && IsLevelOf(q, frames[..n])
    ensures IsLevelOf(q, frames)
  {
    hide Quantise;
    var i :| 0 <= i < n && (q == Quantise(frames[..n][i].0) || q == Quantise(frames[..n][i].1));
    assert frames[i] == frames[..n][i];
  }

  lemma {:induction false} ExtremesAttained(frames: seq<Frame>)
    requires frames != []
    ensures IsLevelOf(Accumulate(frames).min, frames) && IsLevelOf(Accumulate(frames).max, frames)
  {
    hide Quantise;
    var last := |frames| - 1;
    var a, b := Accumulate(frames[..last]), Accumulate(frames);
    var (l, r) := (Quantise(frames[last].0), Quantise(frames[last].1));
    assert IsLevelOf(l, frames) && IsLevelOf(r, frames);
    hide IsLevelOf;
    if last > 0 {
      ExtremesAttained(frames[..last]);
      LevelKept(a.min, frames, last);
      LevelKept(a.max, frames, last);
    }
    assert b.min in {a.min, l, r} && b.max in {a.max, l, r};
  }

  /** A bucket's minimum and maximum are the exact extremes of the quantised samples of both channels. */
  lemma BucketExtremes(frames: seq<Frame>)
    requires frames != []
    ensures var b := Bucket(frames);
            && IsLevelOf(b.min, frames) && IsLevelOf(b.max, frames)
            && forall i :: 0 <= i < |frames| ==>
                 b.min <= Quantise(frames[i].0) <= b.max && b.min <= Quantise(frames[i].1) <= b.max
  {
    hide Quantise, QuantiseRms, Accumulate;
    LevelsWithin(frames);
    ExtremesAttained(frames);
  }

  /** The sum of the squares of some samples. */
  function Squares(samples: seq<Sample>): real {
    if samples == [] then 0.0 else Squares(samples[..|samples| - 1]) + samples[|samples| - 1] * samples[|samples| - 1]
  }

  function Lefts(frames: seq<Frame>): (r: seq<Sample>)
    ensures |r| == |frames| && forall i :: 0 <= i < |r| ==> r[i] == frames[i].0
  {
    seq(|frames|, i requires 0 <= i < |frames| => frames[i].0)
  }

  function Rights(frames: seq<Frame>): (r: seq<Sample>)
    ensures |r| == |frames| && forall i :: 0 <= i < |r| ==> r[i] == frames[i].1
  {
    seq(|frames|, i requires 0 <= i < |frames| => frames[i].1)
  }

  lemma {:induction false} SquaresAccumulate(frames: seq<Frame>)
    ensures Accumulate(frames).sumSq == Squares(Lefts(frames)) + Squares(Rights(frames))
  {
    hide Quantise;
    if frames != [] {
      var n := |frames| - 1;
      SquaresAccumulate(frames[..n]);
      assert Lefts(frames)[..n] == Lefts(frames[..n]) && Rights(frames)[..n] == Rights(frames[..n]);
    }
  }

  /** A bucket's loudness is the rounded root of the mean square of all its samples, both channels alike. */
  lemma BucketLoudness(frames: seq<Frame>, s: real)
    requires frames != [] && s >= 0.0
    requires s * s == (Squares(Lefts(frames)) + Squares(Rights(frames))) / (2.0 * |frames| as real)
    ensures Bucket(frames).rms == Round(Clamp(s, 0.0, 1.0) * 127.0)
  {
    SquaresAccumulate(frames);
    RmsIsRoundedRoot(Accumulate(frames).sumSq, |frames|, s);
    hide QuantiseRms, Squares;
  }

  // -------------------------------------------------------------- folding

  ghost predicate AllCovered(v: View, from: nat, to: nat) { forall f: nat :: from <= f < to ==> Covers(v, f) }

  /** The covered frames from `from` up to `to`. */
  ghost function Frames(v: View, from: nat, to: nat): (r: seq<Frame>)
    requires WellFormed(v) && AllCovered(v, from, to) && from <= to
    ensures |r| == to - from
  {
    seq(to - from, i requires 0 <= i < to - from => SamplePair(v, from + i).value)
  }

  /** The buckets one pass writes. */
  ghost function Fold(v: View, from: nat, size: nat, room: nat): (r: seq<PeakBucket>)
    requires WellFormed(v) && size > 0
    ensures |r| <= room
    decreases room
  {
    if room == 0 || from >= v.len || !AllCovered(v, from, Min(from + size, v.len)) then []
    else
      var end := Min(from + size, v.len);
      [Bucket(Frames(v, from, end))] + Fold(v, end, size, room - 1)
  }

  lemma FoldUnfolded(v: View, from: nat, size: nat, room: nat)
    requires WellFormed(v) && size > 0
    ensures var end := Min(from + size, v.len);
            Fold(v, from, size, room) ==
            if room == 0 || from >= v.len || !AllCovered(v, from, end) then []
            else [Bucket(Frames(v, from, end))] + Fold(v, end, size, room - 1)
  {}

  method FoldPeaks(store: DecodedStore, from: nat, bucketFrames: nat, out: array<PeakBucket>) returns (written: nat)
    requires store.Valid()
    modifies out
    ensures store.Valid() && store.Value() == old(store.Value())
    ensures var size := if bucketFrames == 0 then 1 else bucketFrames;
            written <= out.Length && out[..written] == Fold(store.Value(), from, size, out.Length)
    ensures forall i :: written <= i < out.Length ==> out[i] == old(out[i])
  {
    hide WellFormed, Bucket, Frames, AllCovered, Fold;
    ghost var v := store.Value();
    var size := if bucketFrames == 0 then 1 else bucketFrames;
    ghost var all := Fold(v, from, size, out.Length);
    written := 0;
    var start: nat := from;
    while written < out.Length && start < store.lenFrames
      invariant written <= out.Length && store.Valid() && store.Value() == v
      invariant all == out[..written] + Fold(v, start, size, out.Length - written)
      invariant forall i :: written <= i < out.Length ==> out[i] == old(out[i])
    {
      FoldUnfolded(v, start, size, out.Length - written);
      var end: nat := Min(start + size, store.lenFrames);
      var covered, bucket := FoldBucket(store, start, end);
      if !covered { return; }
      ghost var before, rest := out[..written], Fold(v, end, size, out.Length - written - 1);
      out[written] := bucket;
      assert out[..written + 1] == before + [bucket];
      Regroup(before, bucket, rest);
      written, start := written + 1, end;
    }
    FoldUnfolded(v, start, size, out.Length - written);
  }

  lemma Regroup(front: seq<PeakBucket>, middle: PeakBucket, rest: seq<PeakBucket>)
    ensures front + ([middle] + rest) == (front + [middle]) + rest
  {}

  /** One bucket, if all of its frames are covered. */
  method FoldBucket(store: DecodedStore, start: nat, end: nat) returns (covered: bool, bucket: PeakBucket)
    requires store.Valid() && start <= end
    ensures covered <==> AllCovered(store.Value(), start, end)
    ensures covered ==> bucket == Bucket(Frames(store.Value(), start, end))
  {
    hide WellFormed, Covers, Quantise, QuantiseRms;
    ghost var v := store.Value();
    var min, max, sumSq, n := 127, -127, 0.0, 0;
    var frame := start;
    while frame < end
      invariant start <= frame <= end && AllCovered(v, start, frame)
      invariant Accumulate(Frames(v, start, frame)) == Accumulator(min, max, sumSq, n)
    {
      var pair := store.SamplePairAt(frame);
      if pair.None? {
        return false, PeakBucket(0, 0, 0);
      }
      var (l, r) := pair.value;
      var (ql, qr) := (Quantise(l), Quantise(r));
      min, max := Min(Min(min, ql), qr), Max(Max(max, ql), qr);
      sumSq, n := sumSq + (l * l + r * r), n + 1;
      assert Frames(v, start, frame + 1)[..frame - start] == Frames(v, start, frame);
      frame := frame + 1;
    }
    return true, PeakBucket(min, max, QuantiseRms(sumSq, n));
  }

  // ---------------------------------------------- incremental equals batch

  /** The frame `k` whole buckets after `from`: where bucket `k` starts. */
  function Mark(from: nat, size: nat, k: nat): nat
    decreases k
  {
    if k == 0 then from else Mark(from + size, size, k - 1)
  }

  /** Where the bucket that starts at `start` ends in a store of length `len`; before `start + size` for the last one. */
  function BucketEnd(start: nat, size: nat, len: nat): nat { Min(start + size, len) }

  lemma {:induction false} MarkFurther(from: nat, size: nat, k: nat, n: nat)
    ensures Mark(Mark(from, size, k), size, n) == Mark(from, size, k + n) >= from
    decreases k, n
  {
    if k > 0 {
      MarkFurther(from + size, size, k - 1, n);
    } else if n > 0 {
      MarkFurther(from + size, size, 0, n - 1);
    }
  }

  /** A store of this length has a bucket at `start`, and all of it is covered. */
  ghost predicate HasBucket(v: View, start: nat, size: nat) {
    start < v.len && AllCovered(v, start, BucketEnd(start, size, v.len))
  }

  /** That bucket. */
  ghost function BucketAt(v: View, start: nat, size: nat): PeakBucket
    requires WellFormed(v) && HasBucket(v, start, size) && size > 0
  {
    Bucket(Frames(v, start, BucketEnd(start, size, v.len)))
  }

  lemma NothingPastTheEnd(v: View, from: nat, size: nat, room: nat)
    requires WellFormed(v) && size > 0 && from >= v.len
    ensures Fold(v, from, size, room) == []
  {}

  /** A pass is its first bucket, if the store has it, and the pass from the next whole bucket on. */
  lemma FoldStep(v: View, from: nat, size: nat, room: nat)
    requires WellFormed(v) && size > 0
    ensures Fold(v, from, size, room) ==
            if room == 0 || !HasBucket(v, from, size) then []
            else [BucketAt(v, from, size)] + Fold(v, from + size, size, room - 1)
  {
    if room > 0 && from + size > v.len {
      NothingPastTheEnd(v, from + size, size, room - 1);
      NothingPastTheEnd(v, v.len, size, room - 1);
    }
  }

  /** Bucket `i` of a pass is the store's bucket there. */
  lemma {:induction false} FoldAt(v: View, from: nat, size: nat, room: nat, i: nat)
    requires WellFormed(v) && size > 0 && i < |Fold(v, from, size, room)|
    ensures HasBucket(v, Mark(from, size, i), size)
    ensures Fold(v, from, size, room)[i] == BucketAt(v, Mark(from, size, i), size)
    decreases i
  {
    hide Fold, WellFormed, HasBucket, BucketAt;
    FoldStep(v, from, size, room);
    if i > 0 {
      FoldAt(v, from + size, size, room - 1, i - 1);
    }
  }

  /** A pass with room for them writes every bucket up to the first one the store does not have. */
  lemma {:induction false} FoldReaches(v: View, from: nat, size: nat, room: nat)
    requires WellFormed(v) && size > 0
    requires forall i :: 0 <= i < room ==> HasBucket(v, Mark(from, size, i), size)
    ensures |Fold(v, from, size, room)| == room
    decreases room
  {
    hide Fold, WellFormed, HasBucket;
    FoldStep(v, from, size, room);
    if room > 0 {
      assert HasBucket(v, Mark(from, size, 0), size);
      var next := from + size;
      forall i | 0 <= i < room - 1 ensures HasBucket(v, Mark(next, size, i), size) {
        assert HasBucket(v, Mark(from, size, i + 1), size);
      }
      FoldReaches(v, next, size, room - 1);
    }
  }

  /** A pass that fills its room is continued by one from its mark. */
  lemma {:induction false} FoldContinues(v: View, from: nat, size: nat, k: nat, more: nat)
    requires WellFormed(v) && size > 0 && |Fold(v, from, size, k)| == k
    ensures Fold(v, from, size, k + more) == Fold(v, from, size, k) + Fold(v, Mark(from, size, k), size, more)
    decreases k
  {
    hide Fold, WellFormed, HasBucket, BucketAt;
    FoldStep(v, from, size, k);
    FoldStep(v, from, size, k + more);
    if k > 0 {
      FoldContinues(v, from + size, size, k - 1, more);
      var rest, tail := Fold(v, from + size, size, k - 1), Fold(v, Mark(from, size, k), size, more);
      assert [BucketAt(v, from, size)] + (rest + tail) == [BucketAt(v, from, size)] + rest + tail;
    }
  }

  lemma SameFrames(v: View, v': View, from: nat, to: nat)
    requires WellFormed(v) && WellFormed(v') && Extends(v, v')
    requires from <= to <= v.len && to <= v'.len && AllCovered(v, from, to)
    ensures AllCovered(v', from, to) && Frames(v', from, to) == Frames(v, from, to)
  {
    forall f: nat | from <= f < to ensures Covers(v', f) && SamplePair(v', f) == SamplePair(v, f) {
      assert Covers(v, f);
      InTable(v, f);
    }
    var a, b := Frames(v, from, to), Frames(v', from, to);
    forall i | 0 <= i < to - from ensures a[i] == b[i] {
      assert Covers(v, from + i) && Covers(v', from + i);
    }
  }

  /** A bucket that ends where it ended before is covered still and folds to the same values. */
  lemma SameBucket(v: View, v': View, start: nat, size: nat)
    requires WellFormed(v) && WellFormed(v') && Extends(v, v') && size > 0 && HasBucket(v, start, size)
    requires start < v'.len && BucketEnd(start, size, v.len) == BucketEnd(start, size, v'.len)
    ensures HasBucket(v', start, size) && BucketAt(v', start, size) == BucketAt(v, start, size)
  {
    SameFrames(v, v', start, BucketEnd(start, size, v.len));
  }

  /** The `k` buckets from `from` on end where they end in a store of length `len'`: they are whole in both, or it is. */
  predicate SameEnds(from: nat, size: nat, k: nat, len: nat, len': nat) {
    forall i: nat :: i < k ==>
      Mark(from, size, i) < len' && BucketEnd(Mark(from, size, i), size, len) == BucketEnd(Mark(from, size, i), size, len')
  }

  /**
   * A later pass finds an earlier pass's buckets again and goes on from there, if they end where they did: the short
   * last bucket included, when the length has not changed.
   */
  lemma LaterPassContinues(v: View, v': View, from: nat, size: nat, room: nat, more: nat)
    requires WellFormed(v) && WellFormed(v') && Extends(v, v') && size > 0
    requires SameEnds(from, size, |Fold(v, from, size, room)|, v.len, v'.len)
    ensures var first := Fold(v, from, size, room);
            Fold(v', from, size, |first| + more) == first + Fold(v', Mark(from, size, |first|), size, more)
  {
    hide Fold, WellFormed, HasBucket, BucketAt, Extends;
    var first := Fold(v, from, size, room);
    var k := |first|;
    forall i: nat | i < k
      ensures HasBucket(v', Mark(from, size, i), size) && BucketAt(v', Mark(from, size, i), size) == first[i]
    {
      FoldAt(v, from, size, room, i);
      SameBucket(v, v', Mark(from, size, i), size);
    }
    FoldReaches(v', from, size, k);
    forall i: nat | i < k ensures Fold(v', from, size, k)[i] == first[i] {
      FoldAt(v', from, size, k, i);
    }
    assert Fold(v', from, size, k) == first;
    FoldContinues(v', from, size, k, more);
  }

  /** A pass: the store as it was then, and the room for buckets it was given. */
  datatype Pass = Pass(view: View, room: nat)

  ghost predicate AllWellFormed(passes: seq<Pass>) { forall i :: 0 <= i < |passes| ==> WellFormed(passes[i].view) }

  /** Each pass starts at the watermark the previous ones reached. */
  ghost function Incremental(passes: seq<Pass>, from: nat, size: nat): seq<PeakBucket>
    requires size > 0 && AllWellFormed(passes)
    decreases |passes|
  {
    if passes == [] then []
    else
      var first := Fold(passes[0].view, from, size, passes[0].room);
      first + Incremental(passes[1..], Mark(from, size, |first|), size)
  }

  function Copies(v: View, n: nat): (r: seq<View>)
    ensures |r| == n && forall i :: 0 <= i < n ==> r[i] == v
  {
    seq(n, i => v)
  }

  /** For each of those buckets, the store as its pass found it. */
  ghost function Origins(passes: seq<Pass>, from: nat, size: nat): (r: seq<View>)
    requires size > 0 && AllWellFormed(passes)
    ensures |r| == |Incremental(passes, from, size)|
    ensures forall i :: 0 <= i < |r| ==> exists p :: 0 <= p < |passes| && passes[p].view == r[i]
    decreases |passes|
  {
    if passes == [] then []
    else
      var n := |Fold(passes[0].view, from, size, passes[0].room)|;
      var rest := Origins(passes[1..], Mark(from, size, n), size);
      assert forall i :: 0 <= i < |passes| - 1 ==> passes[1..][i] == passes[i + 1];
      Copies(passes[0].view, n) + rest
  }

  /** Each bucket is its pass's store's bucket there. */
  lemma {:induction false} IncrementalAt(passes: seq<Pass>, from: nat, size: nat, i: nat)
    requires size > 0 && AllWellFormed(passes) && i < |Incremental(passes, from, size)|
    ensures var v := Origins(passes, from, size)[i];
            && WellFormed(v) && HasBucket(v, Mark(from, size, i), size)
            && Incremental(passes, from, size)[i] == BucketAt(v, Mark(from, size, i), size)
    decreases |passes|
  {
    hide Fold, WellFormed, HasBucket, BucketAt;
    var v, n := passes[0].view, |Fold(passes[0].view, from, size, passes[0].room)|;
    assert WellFormed(v);
    if i < n {
      FoldAt(v, from, size, passes[0].room, i);
    } else {
      MarkFurther(from, size, n, i - n);
      IncrementalAt(passes[1..], Mark(from, size, n), size, i - n);
    }
  }

  /** The passes all saw earlier states of the final store, whatever length was assumed then. */
  ghost predicate Growing(passes: seq<Pass>, final: View)
    requires WellFormed(final)
  {
    forall i :: 0 <= i < |passes| ==> WellFormed(passes[i].view) && Extends(passes[i].view, final)
  }

  lemma OriginGrows(passes: seq<Pass>, final: View, from: nat, size: nat, i: nat)
    requires size > 0 && WellFormed(final) && Growing(passes, final) && i < |Incremental(passes, from, size)|
    ensures var v := Origins(passes, from, size)[i]; WellFormed(v) && Extends(v, final)
  {
    hide WellFormed, Extends;
    assert i < |Origins(passes, from, size)|;
  }

  /**
   * Bucket by bucket, for any passes over a growing store: a bucket that both foldings have is the same in both
   * whenever its pass ended it where the final length does, so for every bucket whole within both lengths, and for the
   * short last one folded at the final length.
   */
  lemma BucketMatchesBatch(passes: seq<Pass>, final: View, from: nat, size: nat, room: nat, i: nat)
    requires size > 0 && WellFormed(final) && Growing(passes, final)
    requires i < |Incremental(passes, from, size)| && i < |Fold(final, from, size, room)|
    ensures var (start, len) := (Mark(from, size, i), Origins(passes, from, size)[i].len);
            (start + size <= len && start + size <= final.len) || len == final.len ==>
              Incremental(passes, from, size)[i] == Fold(final, from, size, room)[i]
  {
    hide Fold, WellFormed, HasBucket, BucketAt, Extends, Incremental;
    var v, start := Origins(passes, from, size)[i], Mark(from, size, i);
    IncrementalAt(passes, from, size, i);
    OriginGrows(passes, final, from, size, i);
    FoldAt(final, from, size, room, i);
    if (start + size <= v.len && start + size <= final.len) || v.len == final.len {
      BucketStartsWithin(final, start, size);
      SameBucket(v, final, start, size);
    }
  }

  lemma BucketStartsWithin(v: View, start: nat, size: nat)
    requires HasBucket(v, start, size)
    ensures start < v.len
  {}

  /** Every bucket ended, in its pass, where it ends in the final store. */
  ghost predicate EndsSettled(passes: seq<Pass>, final: View, from: nat, size: nat)
    requires size > 0 && AllWellFormed(passes)
  {
    var views := Origins(passes, from, size);
    forall i: nat :: i < |views| ==> EndSettled(views[i].len, final.len, Mark(from, size, i), size)
  }

  predicate EndSettled(len: nat, len': nat, start: nat, size: nat) {
    start < len' && BucketEnd(start, size, len) == BucketEnd(start, size, len')
  }

  /**
   * Folding in any number of passes while the store fills gives the buckets of one pass over the final store, the short
   * last one included, unless a bucket was ended by a length that was given up later.
   */
  lemma IncrementalEqualsBatch(passes: seq<Pass>, final: View, from: nat, size: nat)
    requires size > 0 && WellFormed(final) && Growing(passes, final) && EndsSettled(passes, final, from, size)
    ensures var buckets := Incremental(passes, from, size); Fold(final, from, size, |buckets|) == buckets
  {
    hide Fold, WellFormed, HasBucket, BucketAt, Extends, Incremental, Origins;
    var buckets, views := Incremental(passes, from, size), Origins(passes, from, size);
    var n := |buckets|;
    forall i: nat | i < n
      ensures HasBucket(final, Mark(from, size, i), size) && BucketAt(final, Mark(from, size, i), size) == buckets[i]
    {
      IncrementalAt(passes, from, size, i);
      OriginGrows(passes, final, from, size, i);
      assert EndSettled(views[i].len, final.len, Mark(from, size, i), size);
      SameBucket(views[i], final, Mark(from, size, i), size);
    }
    FoldReaches(final, from, size, n);
    forall i: nat | i < n ensures Fold(final, from, size, n)[i] == buckets[i] {
      FoldAt(final, from, size, n, i);
    }
  }

  // ----------------------------------------------------- when one is stale

  /** Passes that all went by the final length, the one over the finished store among them, settle every end. */
  lemma KnownLengthSettles(passes: seq<Pass>, final: View, from: nat, size: nat)
    requires size > 0 && WellFormed(final) && Growing(passes, final)
    requires forall p :: 0 <= p < |passes| ==> passes[p].view.len == final.len
    ensures EndsSettled(passes, final, from, size)
  {
    hide WellFormed, Extends, BucketAt;
    var views := Origins(passes, from, size);
    forall i: nat | i < |views| ensures EndSettled(views[i].len, final.len, Mark(from, size, i), size) {
      IncrementalAt(passes, from, size, i);
    }
  }

  /** Every frame below the length is there. */
  ghost predicate Finished(v: View)
    requires WellFormed(v)
  {
    forall f: nat :: f < v.len ==> Covers(v, f)
  }

  /**
   * What a bucket is folded to at one length is what a single pass makes of it at another, in every growing store: it
   * comes out the same, and a finished store does have it.
   */
  ghost predicate NeverStale(start: nat, size: nat, len: nat, len': nat)
    requires size > 0
  {
    forall v: View, v': View ::
      WellFormed(v) && WellFormed(v') && Extends(v, v') && v.len == len && v'.len == len' && HasBucket(v, start, size) ==>
        && (HasBucket(v', start, size) ==> BucketAt(v, start, size) == BucketAt(v', start, size))
        && (Finished(v') ==> HasBucket(v', start, size))
  }

  /** A store, full throughout, that is silent but for frame `loud`. */
  ghost function OneLoudFrame(len: nat, chunks: nat, loud: nat): (v: View)
    requires chunks > 0
    ensures WellFormed(v) && v.len == len && |v.filled| == chunks
  {
    View(len, Filling, seq(chunks, i => CHUNK), seq(2 * ChunkStart(chunks), i => if i == 2 * loud then 1.0 else 0.0))
  }

  lemma InFullTable(len: nat, f: nat, chunks: nat)
    requires f < len && ChunkOf(len) < chunks
    ensures ChunkOf(f) < chunks
  {}

  lemma LoudCovered(len: nat, chunks: nat, loud: nat, f: nat)
    requires f < len && ChunkOf(len) < chunks
    ensures var v := OneLoudFrame(len, chunks, loud);
            Covers(v, f) && SamplePair(v, f) == Some((if f == loud then 1.0 else 0.0, 0.0))
  {
    InFullTable(len, f, chunks);
    var v := OneLoudFrame(len, chunks, loud);
    InTable(v, f);
  }

  lemma Levels()
    ensures Quantise(0.0) == 0 && Quantise(1.0) == 127
  {}

  /** The bucket's maximum tells whether the loud frame is in it. */
  lemma LoudBucket(len: nat, chunks: nat, loud: nat, start: nat, size: nat)
    requires size > 0 && start < len && start <= loud && ChunkOf(len) < chunks
    ensures var v := OneLoudFrame(len, chunks, loud);
            && HasBucket(v, start, size)
            && BucketAt(v, start, size).max == if loud < BucketEnd(start, size, len) then 127 else 0
  {
    hide Quantise, QuantiseRms, OneLoudFrame, Covers, SamplePair, Bucket;
    var v, end := OneLoudFrame(len, chunks, loud), BucketEnd(start, size, len);
    forall f: nat | start <= f < end
      ensures Covers(v, f) && SamplePair(v, f) == Some((if f == loud then 1.0 else 0.0, 0.0))
    {
      LoudCovered(len, chunks, loud, f);
    }
    var frames := Frames(v, start, end);
    forall i | 0 <= i < |frames| ensures frames[i] == (if start + i == loud then 1.0 else 0.0, 0.0) {
      assert Covers(v, start + i);
    }
    LoudExtreme(frames, loud - start);
  }

  lemma LoudExtreme(frames: seq<Frame>, loud: nat)
    requires frames != [] && forall i :: 0 <= i < |frames| ==> frames[i] == (if i == loud then 1.0 else 0.0, 0.0)
    ensures Bucket(frames).max == if loud < |frames| then 127 else 0
  {
    hide Quantise, Bucket;
    Levels();
    BucketExtremes(frames);
    var max := Bucket(frames).max;
    if loud < |frames| {
      assert frames[loud] == (1.0, 0.0);
    }
    assert frames[0].1 == 0.0;
  }

  /**
   * A bucket folded at one length is right for every store at another exactly when it starts within both and both end
   * it in the same place: both reach its whole end, or they are the same. A short bucket folded at an estimate that
   * changes is stale, and one that lies wholly past a shorter length is not there at all.
   */
  lemma StaleIff(start: nat, size: nat, len: nat, len': nat)
    requires size > 0 && start < len
    ensures NeverStale(start, size, len, len') <==> EndSettled(len, len', start, size)
    ensures EndSettled(len, len', start, size) <==> start + size <= Min(len, len') || len == len'
  {
    hide NeverStale;
    if EndSettled(len, len', start, size) {
      SettledNeverStale(start, size, len, len');
    } else {
      StaleWitness(start, size, len, len');
    }
  }

  lemma SettledNeverStale(start: nat, size: nat, len: nat, len': nat)
    requires size > 0 && EndSettled(len, len', start, size)
    ensures NeverStale(start, size, len, len')
  {
    hide BucketAt, Covers, WellFormed, Extends;
    forall v: View, v': View |
      WellFormed(v) && WellFormed(v') && Extends(v, v') && v.len == len && v'.len == len' && HasBucket(v, start, size)
      ensures HasBucket(v', start, size) ==> BucketAt(v, start, size) == BucketAt(v', start, size)
      ensures Finished(v') ==> HasBucket(v', start, size)
    {
      if HasBucket(v', start, size) {
        SameBucket(v, v', start, size);
      }
    }
  }

  lemma StaleWitness(start: nat, size: nat, len: nat, len': nat)
    requires size > 0 && start < len && !EndSettled(len, len', start, size)
    ensures !NeverStale(start, size, len, len')
  {
    hide BucketAt, HasBucket, OneLoudFrame, Finished;
    var chunks := ChunkOf(len) + ChunkOf(len') + 1;
    var loud := if start < len' then Min(BucketEnd(start, size, len), BucketEnd(start, size, len')) else start;
    var v, v' := OneLoudFrame(len, chunks, loud), OneLoudFrame(len', chunks, loud);
    LoudBucket(len, chunks, loud, start, size);
    LoudFinished(len', chunks, loud);
    SameTable(len, len', chunks, loud);
    if start < len' {
      LoudBucket(len', chunks, loud, start, size);
    } else {
      NoBucketBeyond(v', start, size);
    }
  }

  lemma LoudFinished(len: nat, chunks: nat, loud: nat)
    requires ChunkOf(len) < chunks
    ensures Finished(OneLoudFrame(len, chunks, loud))
  {
    forall f: nat | f < len ensures Covers(OneLoudFrame(len, chunks, loud), f) {
      LoudCovered(len, chunks, loud, f);
    }
  }

  lemma NoBucketBeyond(v: View, start: nat, size: nat)
    requires v.len <= start
    ensures !HasBucket(v, start, size)
  {}

  lemma SameTable(len: nat, len': nat, chunks: nat, loud: nat)
    requires chunks > 0
    ensures Extends(OneLoudFrame(len, chunks, loud), OneLoudFrame(len', chunks, loud))
  {}
}
