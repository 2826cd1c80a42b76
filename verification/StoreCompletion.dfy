/** When a store that calls itself complete really has every frame: counting over chunk watermarks. */
module StoreCompletion {
  import opened Prelude
  import opened StoreModel

  /** Every frame below `n` is published. */
  ghost predicate Gapless(v: View, n: nat) { forall f: nat :: f < n ==> Published(v.filled, f) }

  ghost predicate NothingFrom(v: View, n: nat) { forall f: nat :: n <= f ==> !Published(v.filled, f) }

  /** No chunk holds anything after one that is not full. */
  ghost predicate PrefixShaped(filled: seq<nat>) {
    forall c, d :: 0 <= c < d < |filled| && filled[c] < CHUNK ==> filled[d] == 0
  }

  /** The table has just the chunks that the length, cut at the cap of 33 554 432 frames, needs; at least one. */
  lemma TableIsTight(len: nat)
    ensures var (n, wanted) := (TableSize(len), Min(len, 33_554_432));
            && 0 < n <= 512 && n * 65_536 >= wanted && (n > 1 ==> (n - 1) * 65_536 < wanted)
    ensures forall filled, f :: AppendPoint(filled, f) ==> f < 33_554_432
  {}

  /** Only a filling store fails or completes; it keeps what it holds, and afterwards nothing changes it any more. */
  lemma FinalStatesStay(v: View, exact: nat)
    ensures v.state != Filling ==> SetFailed(v) == v && SetComplete(v, exact) == v
    ensures v.state == Filling ==> SetFailed(v) == v.(state := Failed)
    ensures v.state == Filling && SetComplete(v, exact) != v ==>
              SetComplete(v, exact) == v.(state := Complete, len := exact)
    ensures forall v': View, from, data, n :: Wrote(v, v', from, data, n) && v.state != Filling ==> v' == v && n == 0
  {}

  /** Completing cuts off what lies past the length: those frames are not covered any more, published or not. */
  lemma CompletionCutsOff(v: View, exact: nat, f: nat)
    requires v.state == Filling && SetComplete(v, exact).state == Complete
    ensures Covers(SetComplete(v, exact), f) <==> f < exact && Published(v.filled, f)
  {}

  lemma GaplessByChunk(v: View, n: nat)
    requires WellFormed(v)
    ensures Gapless(v, n) <==> n <= Capacity(v) && forall c :: 0 <= c < |v.filled| ==> v.filled[c] >= Expected(n, c)
  {
    FrameOf(|v.filled|, 0);
    assert !Published(v.filled, Capacity(v));
    if Gapless(v, n) {
      forall c | 0 <= c < |v.filled| ensures v.filled[c] >= Expected(n, c) {
        if v.filled[c] < CHUNK {
          FrameOf(c, v.filled[c]);
          assert !Published(v.filled, ChunkStart(c) + v.filled[c]);
        }
      }
    } else {
      var f: nat :| f < n && !Published(v.filled, f);
      FrameSplit(f);
      if n <= Capacity(v) {
        assert v.filled[ChunkOf(f)] < Expected(n, ChunkOf(f));
      }
    }
  }

  lemma NothingFromByChunk(v: View, n: nat)
    requires WellFormed(v) && NothingFrom(v, n)
    ensures forall c :: 0 <= c < |v.filled| ==> v.filled[c] <= Expected(n, c)
  {
    forall c | 0 <= c < |v.filled| ensures v.filled[c] <= Expected(n, c) {
      if v.filled[c] > 0 {
        FrameOf(c, v.filled[c] - 1);
        assert Published(v.filled, ChunkStart(c) + (v.filled[c] - 1));
      }
    }
  }

  lemma {:induction false} SumOfAtMostExpected(filled: seq<nat>, n: nat, k: nat)
    requires k <= |filled| && forall c :: 0 <= c < k ==> filled[c] <= Expected(n, c)
    ensures Sum(filled[..k]) <= Min(n, ChunkStart(k))
    ensures Sum(filled[..k]) == Min(n, ChunkStart(k)) <==> forall c :: 0 <= c < k ==> filled[c] == Expected(n, c)
  {
    if k > 0 {
      assert filled[..k][..k - 1] == filled[..k - 1];
      SumOfAtMostExpected(filled, n, k - 1);
      assert Min(n, ChunkStart(k)) == Min(n, ChunkStart(k - 1)) + Expected(n, k - 1);
    }
  }

  lemma {:induction false} SumOfAtLeastExpected(filled: seq<nat>, n: nat, k: nat)
    requires k <= |filled| && forall c :: 0 <= c < k ==> filled[c] >= Expected(n, c)
    ensures Sum(filled[..k]) >= Min(n, ChunkStart(k))
    ensures Sum(filled[..k]) == Min(n, ChunkStart(k)) <==> forall c :: 0 <= c < k ==> filled[c] == Expected(n, c)
  {
    if k > 0 {
      assert filled[..k][..k - 1] == filled[..k - 1];
      SumOfAtLeastExpected(filled, n, k - 1);
      assert Min(n, ChunkStart(k)) == Min(n, ChunkStart(k - 1)) + Expected(n, k - 1);
    }
  }

  /** If nothing at or past `n` was written, completing at `n` succeeds exactly when every frame below `n` is there. */
  lemma CompletionIsGapless(v: View, n: nat)
    requires WellFormed(v) && v.state == Filling && NothingFrom(v, n)
    ensures SetComplete(v, n).state == Complete <==> Gapless(v, n)
  {
    NothingFromByChunk(v, n);
    GaplessByChunk(v, n);
    SumOfAtMostExpected(v.filled, n, |v.filled|);
    assert v.filled[..|v.filled|] == v.filled;
  }

  lemma {:induction false} SumWithinCapacity(filled: seq<nat>, k: nat)
    requires k <= |filled| && forall c :: 0 <= c < k ==> filled[c] <= CHUNK
    ensures Sum(filled[..k]) <= ChunkStart(k)
    ensures (forall c :: 0 <= c < k ==> filled[c] == CHUNK) <==> Sum(filled[..k]) == ChunkStart(k)
  {
    if k > 0 {
      assert filled[..k][..k - 1] == filled[..k - 1];
      SumWithinCapacity(filled, k - 1);
    }
  }

  lemma {:induction false} PrefixMatchesExpected(filled: seq<nat>, k: nat)
    requires k <= |filled| && PrefixShaped(filled) && forall c :: 0 <= c < |filled| ==> filled[c] <= CHUNK
    ensures forall c :: 0 <= c < k ==> filled[c] == Expected(Sum(filled[..k]), c)
  {
    if k > 0 {
      assert filled[..k][..k - 1] == filled[..k - 1];
      PrefixMatchesExpected(filled, k - 1);
      SumWithinCapacity(filled, k - 1);
      if filled[k - 1] > 0 {
        assert forall c :: 0 <= c < k - 1 ==> filled[c] == CHUNK;
      }
    }
  }

  /**
   * Completing at the number of covered frames always succeeds on a filling store; the result has every frame it
   * claims exactly when the chunks were filled front to back.
   */
  lemma CompletingAtCoveredFrames(v: View)
    requires WellFormed(v) && v.state == Filling
    ensures var v' := SetComplete(v, CoveredFrames(v));
            && v'.state == Complete && v'.len == CoveredFrames(v)
            && (Gapless(v', v'.len) <==> PrefixShaped(v.filled))
  {
    var n, k := CoveredFrames(v), |v.filled|;
    assert v.filled[..k] == v.filled;
    SumWithinCapacity(v.filled, k);
    GaplessByChunk(v, n);
    if Gapless(v, n) {
      SumOfAtLeastExpected(v.filled, n, k);
      assert PrefixShaped(v.filled);
    } else if PrefixShaped(v.filled) {
      PrefixMatchesExpected(v.filled, k);
    }
  }

  /** A store can complete with a hole: one frame at the start of its second chunk is enough. */
  lemma CompletingCanLeaveGap(v: View)
    requires WellFormed(v) && v.state == Filling && v.filled == [0, 1]
    ensures var v' := SetComplete(v, CoveredFrames(v)); v'.state == Complete && v'.len == 1 && !Covers(v', 0)
  {
    CompletingAtCoveredFrames(v);
    assert v.filled[..1] == [0] && v.filled[..1][..0] == [];
    assert Sum([0]) == 0 && Sum(v.filled) == 1;
  }

  /** When no chunk within the length is left to fill, completing at the covered frames leaves no gap. */
  lemma NoUnfilledChunkCompletesGapless(v: View)
    requires WellFormed(v) && v.state == Filling && |v.filled| == TableSize(v.len)
    requires LowestUnfilled(v.len, v.filled, 0).None?
    ensures var v' := SetComplete(v, CoveredFrames(v));
            && v'.state == Complete && Gapless(v', v'.len) && v'.len >= Min(v.len, MAX_FRAMES)
  {
    var k := |v.filled|;
    assert ChunkStart(k - 1) < v.len || k == 1;
    assert forall c :: 0 <= c < k - 1 ==> Expected(v.len, c) == CHUNK;
    CompletingAtCoveredFrames(v);
    assert v.filled[..k] == v.filled;
    SumOfAtLeastExpected(v.filled, v.len, k);
  }

  /**
   * The documentation says a track over the cap never completes. It completes at whatever is covered, and cut at the cap
   * exactly when its table is full, which is exactly when the decode loop finds no chunk left to fill.
   */
  lemma OverCapTrackCompletes(v: View)
    requires WellFormed(v) && v.state == Filling && v.len > MAX_FRAMES && |v.filled| == TableSize(v.len)
    ensures SetComplete(v, CoveredFrames(v)).state == Complete && SetComplete(v, CoveredFrames(v)).len < v.len
    ensures SetComplete(v, CoveredFrames(v)).len == MAX_FRAMES <==> FullTable(v)
    ensures LowestUnfilled(v.len, v.filled, 0).None? <==> FullTable(v)
  {
    CompletingAtCoveredFrames(v);
    assert v.filled[..|v.filled|] == v.filled;
    SumWithinCapacity(v.filled, |v.filled|);
    assert forall c :: 0 <= c < |v.filled| ==> Expected(v.len, c) == CHUNK;
  }

  ghost predicate FullTable(v: View) { forall c :: 0 <= c < |v.filled| ==> v.filled[c] == CHUNK }
}
