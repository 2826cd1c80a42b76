/** The decoded store as a value: chunk watermarks over a table of sample words. */
module StoreModel {
  import opened Prelude

  const CHUNK: nat := 65_536
  const MAX_FRAMES: nat := 33_554_432

  function ChunkOf(f: nat): nat { f / 65_536 }

  function OffsetOf(f: nat): (o: nat)
    ensures o < CHUNK
  {
    f % 65_536
  }

  function ChunkStart(c: nat): nat { c * 65_536 }

  lemma FrameOf(c: nat, o: nat)
    requires o < CHUNK
    ensures ChunkOf(ChunkStart(c) + o) == c && OffsetOf(ChunkStart(c) + o) == o
  {}

  lemma FrameSplit(f: nat)
    ensures f == ChunkStart(ChunkOf(f)) + OffsetOf(f)
  {}

  type Sample = real
  type Frame = (Sample, Sample)

  datatype Lifecycle = Filling | Complete | Failed

  /** `filled[c]` frames of chunk `c` are published; the pair of frame `f` sits in words `2f` and `2f + 1`. */
  datatype View = View(len: nat, state: Lifecycle, filled: seq<nat>, words: seq<Sample>)

  ghost predicate WellFormed(v: View) {
    && |v.filled| > 0
    && (forall c :: 0 <= c < |v.filled| ==> v.filled[c] <= CHUNK)
    && |v.words| == 2 * ChunkStart(|v.filled|)
  }

  function Capacity(v: View): nat { ChunkStart(|v.filled|) }

  /** Number of chunk slots a store of `len` frames is given. */
  function TableSize(len: nat): nat {
    var capped := Min(len, MAX_FRAMES);
    var n := ChunkOf(capped + CHUNK - 1);
    if n == 0 then 1 else n
  }

  /** Frame `f` has been written and made visible. */
  predicate Published(filled: seq<nat>, f: nat) { ChunkOf(f) < |filled| && OffsetOf(f) < filled[ChunkOf(f)] }

  predicate Covers(v: View, f: nat) { f < v.len && Published(v.filled, f) }

  function PairAt(words: seq<Sample>, f: nat): Frame
    requires 2 * f + 1 < |words|
  {
    (words[2 * f], words[2 * f + 1])
  }

  function SamplePair(v: View, f: nat): Option<Frame>
    requires WellFormed(v)
  {
    if Covers(v, f) then InTable(v, f); Some(PairAt(v.words, f)) else None
  }

  lemma InTable(v: View, f: nat)
    requires WellFormed(v) && ChunkOf(f) < |v.filled|
    ensures 2 * f + 1 < |v.words|
  {}

  /** The first `k` frames of `out` are the store's covered frames from `from` on. */
  ghost predicate ReadsAs(v: View, from: nat, out: seq<Sample>, k: nat)
    requires WellFormed(v) && 2 * k <= |out|
  {
    forall i :: 0 <= i < k ==> SamplePair(v, from + i) == Some((out[2 * i], out[2 * i + 1]))
  }

  // ------------------------------------------------------------- writing

  /** A write may start at `f` only where its chunk currently ends. */
  predicate AppendPoint(filled: seq<nat>, f: nat) {
    f < MAX_FRAMES && ChunkOf(f) < |filled| && filled[ChunkOf(f)] == OffsetOf(f)
  }

  /** Places where a write of `n` frames from `from` starts on a chunk: its own start and every chunk boundary inside. */
  predicate EntersChunk(from: nat, n: nat, f: nat) { from <= f < from + n && (f == from || OffsetOf(f) == 0) }

  /** The first `n` of the frames in `data` went in at `from`: exactly these are newly published, words and all. */
  ghost predicate Appended(v: View, v': View, from: nat, data: seq<Sample>, n: nat) {
    && v'.len == v.len && v'.state == v.state
    && |v'.filled| == |v.filled| && |v'.words| == |v.words|
    && 2 * n <= |data| && (n > 0 ==> 2 * (from + n) <= |v.words|)
    && (forall f: nat :: Published(v'.filled, f) <==> Published(v.filled, f) || from <= f < from + n)
    && (forall i :: 0 <= i < |v.words| ==>
          v'.words[i] == if 2 * from <= i < 2 * (from + n) then data[i - 2 * from] else v.words[i])
    && (forall f: nat :: EntersChunk(from, n, f) ==> AppendPoint(v.filled, f))
  }

  /** What `write_frames` does: it appends as far as every chunk it reaches is at its append point. */
  ghost predicate Wrote(v: View, v': View, from: nat, data: seq<Sample>, n: nat) {
    if v.state != Filling then v' == v && n == 0
    else
      && Appended(v, v', from, data, n)
      && (n == |data| / 2 || !AppendPoint(v.filled, from + n))
      && (0 < n < |data| / 2 ==> OffsetOf(from + n) == 0)
  }

  // ----------------------------------------------------------- completion

  function Sum(s: seq<nat>): nat { if s == [] then 0 else Sum(s[..|s| - 1]) + s[|s| - 1] }

  function CoveredFrames(v: View): nat { Sum(v.filled) }

  function SetComplete(v: View, exact: nat): View {
    if v.state != Filling || exact > Capacity(v) || CoveredFrames(v) < exact then v
    else v.(len := exact, state := Complete)
  }

  function SetFailed(v: View): View { if v.state != Filling then v else v.(state := Failed) }

  /** Frames below `n` that fall into chunk `c`. */
  function Expected(n: nat, c: nat): nat {
    if n <= ChunkStart(c) then 0 else Min(n - ChunkStart(c), CHUNK)
  }

  /** The first chunk within the length that is not full as far as the length reaches. */
  function LowestUnfilled(len: nat, filled: seq<nat>, c: nat): (r: Option<nat>)
    requires c <= |filled|
    ensures r.Some? ==> exists d :: c <= d < |filled| && r.value == ChunkStart(d) < len && filled[d] < Expected(len, d)
                                    && forall e :: c <= e < d ==> filled[e] >= Expected(len, e)
    ensures r.None? ==> forall d :: c <= d < |filled| ==> filled[d] >= Expected(len, d)
    decreases |filled| - c
  {
    if c == |filled| || ChunkStart(c) >= len then None
    else if filled[c] < Expected(len, c) then Some(ChunkStart(c))
    else LowestUnfilled(len, filled, c + 1)
  }
}
