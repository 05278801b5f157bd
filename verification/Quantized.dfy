/**
 Quantized proposing: a pool of slots apportioned to the outputs in proportion to their queue lengths, in
 exact reals.
 */
module Quantized {
  import opened Sums

  function Ratio(p: int, sum: int): real
    requires sum > 0
  {
    p as real / sum as real
  }

  /** The slot in which a proportion of the pool ends. */
  function Slots(idx: real, size: nat): int {
    (idx * size as real).Floor
  }

  /** The slots of the outputs whose lengths add up to `p` of `sum`. */
  function Share(p: int, sum: int, size: nat): int
    requires sum > 0
  {
    Slots(Ratio(p, sum), size)
  }

  /** The exact proportion of an output of length `w`. */
  function Exact(w: int, sum: int, size: nat): real
    requires sum > 0
  {
    Ratio(w, sum) * size as real
  }

  lemma ProductMonotone(a: real, b: real, c: real)
    requires a <= b && c >= 0.0
    ensures a * c <= b * c
  {
  }

  lemma QuotientsAdd(a: real, b: real, c: real)
    requires c > 0.0
    ensures a / c + b / c == (a + b) / c
  {
  }

  lemma RatiosAdd(p: int, q: int, sum: int)
    requires sum > 0
    ensures Ratio(p, sum) + Ratio(q, sum) == Ratio(p + q, sum)
  {
    QuotientsAdd(p as real, q as real, sum as real);
  }

  lemma ShareGrows(p: int, q: int, sum: int, size: nat)
    requires sum > 0 && p <= q
    ensures Share(p, sum, size) <= Share(q, sum, size)
  {
    var s := sum as real;
    QuotientsAdd(p as real, (q - p) as real, s);
    ProductMonotone(p as real / s, q as real / s, size as real);
  }

  lemma ShareEnds(sum: int, size: nat)
    requires sum > 0
    ensures Share(0, sum, size) == 0 && Share(sum, sum, size) == size
  {
    var s, n := sum as real, size as real;
    assert 0.0 / s == 0.0 && s / s == 1.0;
    assert 0.0 * n == 0.0 && 1.0 * n == n;
  }

  /** What an output of length `w` gets differs from its exact proportion by less than one. */
  lemma ShareIsFair(p: int, w: int, sum: int, size: nat)
    requires sum > 0 && w >= 0
    ensures var slots := Share(p + w, sum, size) - Share(p, sum, size);
            && slots >= 0 && (w == 0 ==> slots == 0)
            && -1.0 < slots as real - Exact(w, sum, size) < 1.0
  {
    var s, n := sum as real, size as real;
    var a, b, d := p as real / s, (p + w) as real / s, w as real / s;
    QuotientsAdd(p as real, w as real, s);
    assert b * n == a * n + d * n;
    ShareGrows(p, p + w, sum, size);
  }

  /** Every slot belongs to the output whose share it is in. */
  ghost predicate Apportioned(pool: seq<int>, weights: seq<int>, n: nat, size: nat)
    requires n <= |pool| && Sum(weights) > 0
  {
    forall c :: 0 <= c < n ==> 0 <= pool[c] < |weights| && InShare(c, pool[c], weights, size)
  }

  ghost predicate InShare(c: nat, i: nat, weights: seq<int>, size: nat)
    requires i < |weights| && Sum(weights) > 0
  {
    Share(Sum(weights[..i]), Sum(weights), size) <= c < Share(Sum(weights[..i + 1]), Sum(weights), size)
  }

  lemma {:induction false} PrefixGrows(weights: seq<int>, i: nat, k: nat)
    requires NonNegative(weights) && i <= k <= |weights|
    ensures Sum(weights[..i]) <= Sum(weights[..k])
  {
    if i < k {
      PrefixGrows(weights, i, k - 1);
      SumPrefixStep(weights, k - 1);
    }
  }

  /** A slot is in the share of one output only, and later outputs have later slots. */
  lemma SharesAreOrdered(c: nat, i: nat, e: nat, k: nat, weights: seq<int>, size: nat)
    requires NonNegative(weights) && Sum(weights) > 0 && i < |weights| && k < |weights|
    requires InShare(c, i, weights, size) && InShare(e, k, weights, size) && c <= e
    ensures i <= k
  {
    if k < i {
      PrefixGrows(weights, k + 1, i);
      ShareGrows(Sum(weights[..k + 1]), Sum(weights[..i]), Sum(weights), size);
    }
  }

  lemma {:induction false} CountInterval(pool: seq<int>, i: int, lo: nat, hi: nat)
    requires lo <= hi && forall c :: 0 <= c < |pool| ==> (pool[c] == i <==> lo <= c < hi)
    ensures multiset(pool)[i] == (if hi <= |pool| then hi else |pool|) - (if lo <= |pool| then lo else |pool|)
  {
    if pool != [] {
      var front := pool[..|pool| - 1];
      CountInterval(front, i, lo, hi);
      assert pool == front + [pool[|pool| - 1]];
    }
  }

  /**
   In an apportioned pool the outputs come in order, each has its exact proportion of the slots up to
   less than one, and empty queues have none.
   */
  lemma PoolIsFair(pool: seq<int>, weights: seq<int>, size: nat, i: nat)
    requires |pool| == size && NonNegative(weights) && Sum(weights) > 0 && Apportioned(pool, weights, size, size)
    requires i < |weights|
    ensures forall c, e :: 0 <= c < e < size ==> pool[c] <= pool[e]
    ensures weights[i] == 0 ==> i !in pool
    ensures -1.0 < multiset(pool)[i] as real - Exact(weights[i], Sum(weights), size) < 1.0
  {
    hide Share, Exact;
    forall c, e | 0 <= c < e < size
      ensures pool[c] <= pool[e]
    {
      SharesAreOrdered(c, pool[c], e, pool[e], weights, size);
    }
    SlotsOfOutput(pool, weights, size, i);
    SumPrefixStep(weights, i);
    ShareIsFair(Sum(weights[..i]), weights[i], Sum(weights), size);
  }

  /** An output has exactly the slots of its share. */
  lemma SlotsOfOutput(pool: seq<int>, weights: seq<int>, size: nat, i: nat)
    requires |pool| == size && NonNegative(weights) && Sum(weights) > 0 && Apportioned(pool, weights, size, size)
    requires i < |weights|
    ensures multiset(pool)[i]
            == Share(Sum(weights[..i + 1]), Sum(weights), size) - Share(Sum(weights[..i]), Sum(weights), size)
  {
    hide Share;
    var sum := Sum(weights);
    var p, q := Sum(weights[..i]), Sum(weights[..i + 1]);
    PrefixGrows(weights, 0, i);
    PrefixGrows(weights, i, i + 1);
    PrefixGrows(weights, i + 1, |weights|);
    assert weights[..|weights|] == weights;
    ShareEnds(sum, size);
    ShareGrows(0, p, sum, size);
    ShareGrows(p, q, sum, size);
    ShareGrows(q, sum, sum, size);
    var lo, hi := Share(p, sum, size), Share(q, sum, size);
    forall c | 0 <= c < size
      ensures pool[c] == i <==> lo <= c < hi
    {
      if lo <= c < hi {
        SharesAreOrdered(c, pool[c], c, i, weights, size);
        SharesAreOrdered(c, i, c, pool[c], weights, size);
      }
    }
    CountInterval(pool, i, lo, hi);
  }

  // The slots of an output, in integers

  /** Slot `c` ends within the share of output `i`: the outputs before end earlier, and it does not end later. */
  ghost predicate OwnsSlot(weights: seq<int>, size: nat, c: nat, i: nat)
    requires i < |weights|
  {
    Sum(weights[..i]) * size < (c + 1) * Sum(weights) <= Sum(weights[..i + 1]) * size
  }

  /** Every slot of the pool holds the output that owns it. */
  ghost predicate IsPool(pool: seq<int>, weights: seq<int>, size: nat) {
    |pool| == size && forall c :: 0 <= c < size ==> 0 <= pool[c] < |weights| && OwnsSlot(weights, size, c, pool[c])
  }

  lemma ScaleUp(x: real, y: real, c: real)
    requires c > 0.0
    ensures x < y <==> x * c < y * c
  {
  }

  /** Where a share ends, without division. */
  lemma ShareBelow(p: int, sum: int, size: nat, c: nat)
    requires sum > 0
    ensures Share(p, sum, size) <= c <==> p * size < (c + 1) * sum
  {
    var x, s := Ratio(p, sum) * size as real, sum as real;
    assert x * s == p as real * size as real by {
      assert Ratio(p, sum) * s == p as real;
      ProductsCommute(Ratio(p, sum), size as real, s);
    }
    ScaleUp(x, (c + 1) as real, s);
    ProductAsReal(p, size);
    ProductAsReal(c + 1, sum);
  }

  lemma ProductsCommute(a: real, b: real, c: real)
    ensures a * b * c == a * c * b
  {
  }

  lemma ProductAsReal(a: int, b: int)
    ensures (a * b) as real == a as real * b as real
  {
  }

  lemma InShareIffOwns(c: nat, i: nat, weights: seq<int>, size: nat)
    requires i < |weights| && Sum(weights) > 0
    ensures InShare(c, i, weights, size) <==> OwnsSlot(weights, size, c, i)
  {
    ShareBelow(Sum(weights[..i]), Sum(weights), size, c);
    ShareBelow(Sum(weights[..i + 1]), Sum(weights), size, c);
  }

  lemma ApportionedIsPool(pool: seq<int>, weights: seq<int>, size: nat)
    requires |pool| == size && Sum(weights) > 0 && Apportioned(pool, weights, size, size)
    ensures IsPool(pool, weights, size)
  {
    hide InShare, OwnsSlot;
    forall c | 0 <= c < size
      ensures OwnsSlot(weights, size, c, pool[c])
    {
      InShareIffOwns(c, pool[c], weights, size);
    }
  }

  /** A slot has one owner. */
  lemma OwnerIsUnique(weights: seq<int>, size: nat, c: nat, i: nat, k: nat)
    requires NonNegative(weights) && Sum(weights) > 0 && i < |weights| && k < |weights|
    requires OwnsSlot(weights, size, c, i) && OwnsSlot(weights, size, c, k)
    ensures i == k
  {
    hide OwnsSlot, InShare;
    InShareIffOwns(c, i, weights, size);
    InShareIffOwns(c, k, weights, size);
    SharesAreOrdered(c, i, c, k, weights, size);
    SharesAreOrdered(c, k, c, i, weights, size);
  }

  lemma QuotientBounds(random: nat, ratio: nat, size: nat)
    requires ratio > 0 && size > 0
    ensures var q := random / ratio;
            && 0 <= q && q * ratio <= random < (q + 1) * ratio
            && (q >= size ==> (size - 1) * ratio <= random)
  {
    var q, r := random / ratio, random % ratio;
    assert random == q * ratio + r;
    if q >= size {
      TimesIsProduct(q, ratio);
      TimesIsProduct(size - 1, ratio);
      TimesAdd(size - 1, q - (size - 1), ratio);
    }
  }

  /** The slot a random number is scaled down to, the last one if it is too large. */
  function SlotOf(random: nat, ratio: nat, size: nat): (c: nat)
    requires ratio > 0 && size > 0
    ensures c < size && c * ratio <= random && (c < size - 1 ==> random < (c + 1) * ratio)
  {
    QuotientBounds(random, ratio, size);
    if random / ratio < size then random / ratio else size - 1
  }

  class QuantizedProposer {
    const poolSize: nat
    const outputNum: nat
    var pool: seq<int>
    var good: bool

    constructor (poolSize: nat, outputNum: nat)
      ensures this.poolSize == poolSize && this.outputNum == outputNum && !good && pool == Fill(poolSize, 0)
    {
      this.poolSize, this.outputNum := poolSize, outputNum;
      pool, good := Fill(poolSize, 0), false;
    }

    /** `operator=`: apportions the pool, or becomes unusable when there are no packets. */
    method Assign(weights: seq<int>)
      requires |weights| == outputNum && NonNegative(weights)
      modifies this
      ensures good <==> Sum(weights) > 0
      ensures good ==> |pool| == poolSize && Apportioned(pool, weights, poolSize, poolSize)
      ensures good ==> IsPool(pool, weights, poolSize)
      ensures !good ==> pool == old(pool)
    {
      var sum := Total(weights);
      SumNonNegative(weights);
      if sum == 0 {
        good := false;
        return;
      }
      hide Share, Ratio, Slots, Apportioned, IsPool;
      pool := Fill(poolSize, 0);
      var idx, cur: nat := 0.0, 0;
      NothingApportioned(pool, weights, poolSize);
      for i := 0 to outputNum
        invariant |pool| == poolSize && idx == Ratio(Sum(weights[..i]), sum)
        invariant sum == Sum(weights) > 0 && cur == Share(Sum(weights[..i]), sum, poolSize) <= poolSize
        invariant Apportioned(pool, weights, cur, poolSize)
      {
        SumPrefixStep(weights, i);
        RatiosAdd(Sum(weights[..i]), weights[i], sum);
        idx := idx + Ratio(weights[i], sum);
        var end := Slots(idx, poolSize);
        EndIsShare(idx, weights, i, sum, poolSize);
        FillSlots(cur, end, i, weights);
        cur := end;
      }
      assert weights[..outputNum] == weights;
      LastShare(weights, poolSize);
      FillSlots(cur, poolSize, outputNum - 1, weights);
      ApportionedIsPool(pool, weights, poolSize);
      good := true;
    }

    /** Gives the slots from `cur` up to `end`, which are in the share of output `i`, to that output. */
    method FillSlots(cur: nat, end: nat, i: nat, ghost weights: seq<int>)
      requires |pool| == poolSize && cur <= end <= poolSize && i < |weights| && Sum(weights) > 0
      requires Share(Sum(weights[..i]), Sum(weights), poolSize) <= cur
      requires end <= Share(Sum(weights[..i + 1]), Sum(weights), poolSize)
      requires Apportioned(pool, weights, cur, poolSize)
      modifies this`pool
      ensures |pool| == poolSize && Apportioned(pool, weights, end, poolSize)
    {
      hide Share;
      for c := cur to end
        invariant |pool| == poolSize && Apportioned(pool, weights, c, poolSize)
      {
        pool := pool[c := i];
      }
    }

    /** `sample`: the pool entry at a random number scaled down to the pool, or -1 when there are no packets. */
    method Sample(random: nat, ratio: nat) returns (out: int)
      requires ratio > 0 && (good ==> |pool| == poolSize > 0)
      ensures if good then out == pool[SlotOf(random, ratio, poolSize)] else out == -1
    {
      if !good {
        return -1;
      }
      var idx := random / ratio;
      if idx >= poolSize {
        idx := poolSize - 1;
      }
      return pool[idx];
    }

    static method Total(weights: seq<int>) returns (sum: int)
      ensures sum == Sum(weights)
    {
      sum := 0;
      for i := 0 to |weights|
        invariant sum == Sum(weights[..i])
      {
        SumPrefixStep(weights, i);
        sum := sum + weights[i];
      }
      assert weights[..|weights|] == weights;
    }
  }

  lemma NothingApportioned(pool: seq<int>, weights: seq<int>, size: nat)
    requires Sum(weights) > 0
    ensures Apportioned(pool, weights, 0, size)
    ensures Sum(weights[..0]) == 0 && Ratio(0, Sum(weights)) == 0.0 && Share(0, Sum(weights), size) == 0
  {
    ShareEnds(Sum(weights), size);
    assert weights[..0] == [];
  }

  /** The end computed for an output is its share's, and the assertion that it is within the pool holds. */
  lemma EndIsShare(idx: real, weights: seq<int>, i: nat, sum: int, size: nat)
    requires NonNegative(weights) && sum == Sum(weights) > 0 && i < |weights|
    requires idx == Ratio(Sum(weights[..i + 1]), sum)
    ensures Slots(idx, size) == Share(Sum(weights[..i + 1]), sum, size) <= size
    ensures Share(Sum(weights[..i]), sum, size) <= Share(Sum(weights[..i + 1]), sum, size)
  {
    hide Slots, Ratio;
    PrefixGrows(weights, i, i + 1);
    PrefixGrows(weights, i + 1, |weights|);
    assert weights[..|weights|] == weights;
    ShareEnds(sum, size);
    ShareGrows(Sum(weights[..i]), Sum(weights[..i + 1]), sum, size);
    ShareGrows(Sum(weights[..i + 1]), sum, sum, size);
  }

  lemma LastShare(weights: seq<int>, size: nat)
    requires NonNegative(weights) && Sum(weights) > 0
    ensures |weights| > 0
    ensures Share(Sum(weights[..|weights| - 1]), Sum(weights), size) <= size
    ensures Sum(weights[..|weights| - 1 + 1]) == Sum(weights) && Share(Sum(weights), Sum(weights), size) == size
  {
    assert weights != [];
    var n := |weights|;
    assert weights[..n] == weights;
    PrefixGrows(weights, n - 1, n);
    ShareEnds(Sum(weights), size);
    ShareGrows(Sum(weights[..n - 1]), Sum(weights), Sum(weights), size);
  }
}
