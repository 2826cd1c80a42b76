/** The injected random numbers and the Fisher-Yates shuffle of the play queue. */
module Shuffle {
  import opened Prelude

  /** The numbers one queue call draws from its caller's generator, in order. */
  type Rng = nat -> nat

  // ---------------------------------------------------------------- xorshift

  function Left13(x: bv64): bv64 { x ^ (x << 13) }
  function Right7(x: bv64): bv64 { x ^ (x >> 7) }
  function Left17(x: bv64): bv64 { x ^ (x << 17) }

  function XorShiftNext(x: bv64): bv64 { Left17(Right7(Left13(x))) }

  /** A zero seed is replaced by a fixed one. */
  function FromSeed(seed: bv64): bv64 {
    if seed == 0 then 0x9E37_79B9_7F4A_7C15 else seed
  }

  function XorShiftState(seed: bv64, draws: nat): bv64 {
    if draws == 0 then FromSeed(seed) else XorShiftNext(XorShiftState(seed, draws - 1))
  }

  /** The fixed generator `remove` and `play_next_track` use internally. */
  function SeedOne(): Rng {
    k => XorShiftState(1, k + 1) as nat
  }

  lemma Left13NonZero(x: bv64)
    requires x != 0
    ensures Left13(x) != 0
  {}

  lemma Right7NonZero(x: bv64)
    requires x != 0
    ensures Right7(x) != 0
  {}

  lemma Left17NonZero(x: bv64)
    requires x != 0
    ensures Left17(x) != 0
  {}

  lemma XorShiftStepNonZero(x: bv64)
    requires x != 0
    ensures XorShiftNext(x) != 0
  {
    hide Left13, Right7, Left17;
    Left13NonZero(x);
    Right7NonZero(Left13(x));
    Left17NonZero(Right7(Left13(x)));
  }

  /** Whatever the seed, the generator never falls into the fixed point at zero. */
  lemma {:induction false} XorShiftNeverZero(seed: bv64, draws: nat)
    ensures XorShiftState(seed, draws) != 0
  {
    if draws > 0 {
      XorShiftNeverZero(seed, draws - 1);
      XorShiftStepNonZero(XorShiftState(seed, draws - 1));
    }
  }

  /** The first two outputs of the generator from seed one, and the seed that stands in for zero. */
  lemma KnownOutputs()
    ensures XorShiftNext(1) == 1_082_269_761
    ensures XorShiftNext(1_082_269_761) == 1_152_992_998_833_853_505
    ensures FromSeed(0) == 0x9E37_79B9_7F4A_7C15 && forall seed: bv64 :: seed != 0 ==> FromSeed(seed) == seed
    ensures SeedOne()(0) == 1_082_269_761
  {
    assert XorShiftState(1, 0) == 1;
  }

  // ------------------------------------------------------------ Fisher-Yates

  function Swap<T>(s: seq<T>, i: nat, j: nat): (r: seq<T>)
    requires i < |s| && j < |s|
    ensures |r| == |s|
  {
    s[i := s[j]][j := s[i]]
  }

  /** The shuffle with positions above `i` settled and `k` numbers already drawn. */
  function ShuffleFrom<T>(s: seq<T>, i: nat, rng: Rng, k: nat): (r: seq<T>)
    requires i < |s|
    ensures |r| == |s|
    decreases i
  {
    if i == 0 then s
    else ShuffleFrom(Swap(s, i, rng(k) % (i + 1)), i - 1, rng, k + 1)
  }

  function Shuffled<T>(s: seq<T>, rng: Rng): (r: seq<T>)
    ensures |r| == |s|
  {
    if s == [] then [] else ShuffleFrom(s, |s| - 1, rng, 0)
  }

  method ShuffleInPlace<T>(items: array<T>, rng: Rng)
    modifies items
    ensures items[..] == Shuffled(old(items[..]), rng)
  {
    if items.Length == 0 { return; }
    var i := items.Length - 1;
    var k := 0;
    while i > 0
      invariant 0 <= i < items.Length && k == items.Length - 1 - i
      invariant ShuffleFrom(items[..], i, rng, k) == Shuffled(old(items[..]), rng)
    {
      var j := rng(k) % (i + 1);
      ghost var before := items[..];
      items[i], items[j] := items[j], items[i];
      assert items[..] == Swap(before, i, j);
      i, k := i - 1, k + 1;
    }
  }

  lemma SwapPermutes<T>(s: seq<T>, i: nat, j: nat)
    requires i < |s| && j < |s|
    ensures multiset(Swap(s, i, j)) == multiset(s)
  {
    var t := s[i := s[j]];
    assert multiset(t) == multiset(s) - multiset{s[i]} + multiset{s[j]};
    assert multiset(t[j := s[i]]) == multiset(t) - multiset{t[j]} + multiset{s[i]};
  }

  lemma {:induction false} ShuffleFromPermutes<T>(s: seq<T>, i: nat, rng: Rng, k: nat)
    requires i < |s|
    ensures multiset(ShuffleFrom(s, i, rng, k)) == multiset(s)
    decreases i
  {
    if i > 0 {
      SwapPermutes(s, i, rng(k) % (i + 1));
      ShuffleFromPermutes(Swap(s, i, rng(k) % (i + 1)), i - 1, rng, k + 1);
    }
  }

  /** For every generator the shuffle is a permutation. */
  lemma ShuffledPermutes<T>(s: seq<T>, rng: Rng)
    ensures multiset(Shuffled(s, rng)) == multiset(s)
  {
    if s != [] {
      ShuffleFromPermutes(s, |s| - 1, rng, 0);
    }
  }

  lemma SmallMod(a: nat, b: nat)
    requires a < b
    ensures a % b == a
  {}

  /** The shuffle with the swap partners given outright instead of drawn. */
  function ShuffleBy<T>(s: seq<T>, i: nat, picks: seq<nat>): (r: seq<T>)
    requires i < |s| && |picks| == i && forall m :: 0 <= m < i ==> picks[m] < i + 1 - m
    ensures |r| == |s|
    decreases i
  {
    if i == 0 then s
    else
      assert forall m :: 0 <= m < i - 1 ==> picks[1..][m] == picks[m + 1];
      ShuffleBy(Swap(s, i, picks[0]), i - 1, picks[1..])
  }

  lemma {:induction false} DrawingThePicks<T>(s: seq<T>, i: nat, rng: Rng, k: nat, picks: seq<nat>)
    requires i < |s| && |picks| == i && forall m :: 0 <= m < i ==> picks[m] < i + 1 - m
    requires forall m :: 0 <= m < i ==> rng(k + m) == picks[m]
    ensures ShuffleFrom(s, i, rng, k) == ShuffleBy(s, i, picks)
    decreases i
  {
    if i > 0 {
      assert rng(k + 0) == picks[0];
      SmallMod(picks[0], i + 1);
      forall m | 0 <= m < i - 1 ensures rng(k + 1 + m) == picks[1..][m] {
        assert rng(k + (m + 1)) == picks[m + 1];
      }
      DrawingThePicks(Swap(s, i, picks[0]), i - 1, rng, k + 1, picks[1..]);
    }
  }

  lemma PrefixMultisets<T(!new)>(s: seq<T>, t: seq<T>, n: nat)
    requires |s| == |t| && n <= |s| && s[n..] == t[n..] && multiset(s) == multiset(t)
    ensures multiset(s[..n]) == multiset(t[..n])
  {
    assert s == s[..n] + s[n..] && t == t[..n] + t[n..];
    assert multiset(s[..n]) == multiset(s) - multiset(s[n..]);
    assert multiset(t[..n]) == multiset(t) - multiset(t[n..]);
  }

  /** One swap settles position `i` on the wanted item. */
  lemma SettleOne<T(!new)>(s: seq<T>, t: seq<T>, i: nat) returns (j: nat)
    requires i < |s| == |t|
    requires s[i + 1..] == t[i + 1..]
    requires multiset(s) == multiset(t)
    ensures j <= i && Swap(s, i, j)[i..] == t[i..]
    ensures multiset(Swap(s, i, j)) == multiset(t)
  {
    PrefixMultisets(s, t, i + 1);
    SameMembers(s[..i + 1], t[..i + 1]);
    assert t[i] == t[..i + 1][i];
    assert t[i] in s[..i + 1];
    j :| 0 <= j < i + 1 && s[j] == t[i];
    SwapPermutes(s, i, j);
    var u := Swap(s, i, j);
    assert u[i..] == [u[i]] + s[i + 1..] && t[i..] == [t[i]] + t[i + 1..];
  }

  lemma {:induction false} PicksFor<T(!new)>(s: seq<T>, t: seq<T>, i: nat) returns (picks: seq<nat>)
    requires i < |s| == |t|
    requires s[i + 1..] == t[i + 1..]
    requires multiset(s) == multiset(t)
    ensures |picks| == i && forall m :: 0 <= m < i ==> picks[m] < i + 1 - m
    ensures ShuffleBy(s, i, picks) == t
    decreases i
  {
    var j := SettleOne(s, t, i);
    if i == 0 {
      picks := [];
      assert Swap(s, 0, 0) == s && s[0..] == s && t[0..] == t;
    } else {
      var rest := PicksFor(Swap(s, i, j), t, i - 1);
      picks := [j] + rest;
      assert picks[1..] == rest;
      forall m | 0 <= m < i ensures picks[m] < i + 1 - m {
        if m > 0 {
          assert picks[m] == rest[m - 1];
        }
      }
    }
  }

  /** Every order of the items is the shuffle under some generator. */
  lemma ShuffleReachesEveryOrder<T(!new)>(s: seq<T>, t: seq<T>)
    requires multiset(s) == multiset(t)
    ensures exists rng: Rng :: Shuffled(s, rng) == t
  {
    SameMembers(s, t);
    if s == [] {
      var rng: Rng := k => 0;
      assert Shuffled(s, rng) == t;
    } else {
      var picks := PicksFor(s, t, |s| - 1);
      var rng: Rng := (k: nat) => if k < |picks| then picks[k] else 0;
      DrawingThePicks(s, |s| - 1, rng, 0, picks);
      assert Shuffled(s, rng) == t;
    }
  }

  /** Two choices of swap partners give the same order only if they are the same choices. */
  lemma {:induction false} PicksAreUnique<T(!new)>(s: seq<T>, i: nat, p: seq<nat>, q: seq<nat>)
    requires Distinct(s) && i < |s| && |p| == |q| == i
    requires forall m :: 0 <= m < i ==> p[m] < i + 1 - m && q[m] < i + 1 - m
    requires ShuffleBy(s, i, p) == ShuffleBy(s, i, q)
    ensures p == q
    decreases i
  {
    if i > 0 {
      ShuffleByKeepsAbove(Swap(s, i, p[0]), i - 1, p[1..]);
      ShuffleByKeepsAbove(Swap(s, i, q[0]), i - 1, q[1..]);
      assert Swap(s, i, p[0])[i] == s[p[0]] && Swap(s, i, q[0])[i] == s[q[0]];
      assert p[0] == q[0];
      SwapPermutes(s, i, p[0]);
      DistinctPermutation(s, Swap(s, i, p[0]));
      PicksAreUnique(Swap(s, i, p[0]), i - 1, p[1..], q[1..]);
      assert p == [p[0]] + p[1..] && q == [q[0]] + q[1..];
    }
  }

  lemma {:induction false} ShuffleByKeepsAbove<T>(s: seq<T>, i: nat, picks: seq<nat>)
    requires i < |s| && |picks| == i && forall m :: 0 <= m < i ==> picks[m] < i + 1 - m
    ensures forall m :: i < m < |s| ==> ShuffleBy(s, i, picks)[m] == s[m]
    decreases i
  {
    if i > 0 {
      ShuffleByKeepsAbove(Swap(s, i, picks[0]), i - 1, picks[1..]);
    }
  }

  /** So the n! draw sequences and the n! orders of n distinct items match one to one: no order is favoured. */
  lemma DistinctDrawsGiveDistinctOrders<T(!new)>(s: seq<T>, rng: Rng, rng': Rng)
    requires Distinct(s)
    requires forall k :: 0 <= k < |s| - 1 ==> rng(k) < |s| - k && rng'(k) < |s| - k
    requires Shuffled(s, rng) == Shuffled(s, rng')
    ensures forall k :: 0 <= k < |s| - 1 ==> rng(k) == rng'(k)
  {
    if s != [] {
      var i := |s| - 1;
      var p, q := seq(i, k requires 0 <= k => rng(k)), seq(i, k requires 0 <= k => rng'(k));
      DrawingThePicks(s, i, rng, 0, p);
      DrawingThePicks(s, i, rng', 0, q);
      PicksAreUnique(s, i, p, q);
      assert forall k :: 0 <= k < i ==> p[k] == rng(k) && q[k] == rng'(k);
    }
  }
}
