/** Availability bitmaps: one bit per time slot, in 64-bit words, 1 meaning available. */
module Availability {
  import opened Sums

  /** The number of bits a map has room for. */
  const SIZE := 1024
  const ALL_ONES: bv64 := 0xFFFF_FFFF_FFFF_FFFF

  predicate Bit(w: bv64, b: bv6) {
    (w >> b) & 1 == 1
  }

  /** The bits of both words. */
  function Both(x: bv64, y: bv64): bv64 {
    x & y
  }

  /** All bits but bit `b`. */
  function Without(w: bv64, b: bv6): bv64 {
    w & !((1 as bv64) << b)
  }

  lemma BitAnd(x: bv64, y: bv64, b: bv6)
    ensures Bit(x & y, b) <==> Bit(x, b) && Bit(y, b)
  {
  }

  lemma BitOfBoth(x: bv64, y: bv64, b: bv6)
    ensures Bit(Both(x, y), b) <==> Bit(x, b) && Bit(y, b)
  {
    hide Bit;
    BitAnd(x, y, b);
  }

  lemma BitCleared(w: bv64, b: bv6, c: bv6)
    ensures Bit(w & !((1 as bv64) << b), c) <==> Bit(w, c) && b != c
  {
  }

  lemma BitOfWithout(w: bv64, b: bv6, c: bv6)
    ensures Bit(Without(w, b), c) <==> Bit(w, c) && b != c
  {
    hide Bit;
    BitCleared(w, b, c);
  }

  lemma BitOfOnes(b: bv6)
    ensures Bit(ALL_ONES, b)
  {
  }

  /** The bit of slot `k` within its word. */
  function Index(k: nat): bv6 {
    (k % 64) as bv6
  }

  lemma IndexIsInjective(j: nat, k: nat)
    ensures Index(j) == Index(k) <==> j % 64 == k % 64
  {
    IndexRoundTrip(j);
    IndexRoundTrip(k);
  }

  lemma IndexRoundTrip(k: nat)
    ensures Index(k) as int == k % 64
  {
    var r := k % 64;
    assert (r as bv6) as int == r;
  }

  /** Slot `k` is available. */
  predicate Free(words: seq<bv64>, k: nat)
    requires k < 64 * |words|
  {
    Bit(words[k / 64], Index(k))
  }

  /** Clearing one bit makes one slot unavailable and no other. */
  lemma ClearOne(words: seq<bv64>, pos: nat, k: nat)
    requires pos < 64 * |words| && k < 64 * |words|
    ensures Free(words[pos / 64 := Without(words[pos / 64], Index(pos))], k) <==> Free(words, k) && k != pos
  {
    hide Bit, Without, Index;
    if k / 64 == pos / 64 {
      BitOfWithout(words[pos / 64], Index(pos), Index(k));
      IndexIsInjective(pos, k);
    }
  }

  /** `__builtin_ffsll`: one plus the index of the least significant 1-bit, or 0 if there is none. */
  method FindFirstSet(w: bv64) returns (r: nat)
    ensures r <= 64 && forall b :: 0 <= b < (if r == 0 then 64 else r - 1) ==> !Bit(w, Index(b))
    ensures r > 0 ==> Bit(w, Index(r - 1))
  {
    for b := 0 to 64
      invariant forall c :: 0 <= c < b ==> !Bit(w, Index(c))
    {
      if Bit(w, Index(b)) {
        return b + 1;
      }
    }
    return 0;
  }

  class AvailabilityMap {
    const asize: nat
    var words: seq<bv64>

    ghost predicate Valid()
      reads this
    {
      |words| == SIZE / 64 && asize <= |words|
    }

    /** Slot `k` is available. */
    ghost predicate IsFree(k: nat)
      requires Valid() && k < SIZE
      reads this
    {
      Free(words, k)
    }

    constructor (rsize: nat)
      requires 0 < rsize <= SIZE
      ensures Valid() && rsize <= 64 * asize < rsize + 64
      ensures forall k :: 0 <= k < 64 * asize ==> IsFree(k)
    {
      asize := rsize / 64 + if rsize % 64 != 0 then 1 else 0;
      words := Fill(SIZE / 64, 0);
      new;
      Reset();
    }

    /** Makes every slot available. */
    method Reset()
      requires Valid()
      modifies this
      ensures Valid() && forall k :: 0 <= k < 64 * asize ==> IsFree(k)
    {
      for i := 0 to asize
        invariant Valid() && forall x :: 0 <= x < i ==> words[x] == ALL_ONES
      {
        words := words[i := ALL_ONES];
      }
      forall k | 0 <= k < 64 * asize
        ensures IsFree(k)
      {
        BitOfOnes(Index(k));
      }
    }

    /** Makes slot `pos` unavailable and changes no other. */
    method Set(pos: nat)
      requires Valid() && pos < SIZE
      modifies this
      ensures Valid() && forall k :: 0 <= k < SIZE ==> (IsFree(k) <==> old(IsFree(k)) && k != pos)
    {
      hide Bit, Without, Index;
      ghost var before := words;
      words := words[pos / 64 := Without(words[pos / 64], Index(pos))];
      forall k | 0 <= k < SIZE
        ensures Free(words, k) <==> Free(before, k) && k != pos
      {
        ClearOne(before, pos, k);
      }
    }

    /** The first available slot, or -1 if there is none. */
    method Ffs() returns (f: int)
      requires Valid()
      ensures f == -1 <==> forall k :: 0 <= k < 64 * asize ==> !IsFree(k)
      ensures f != -1 ==> 0 <= f < 64 * asize && IsFree(f) && forall k :: 0 <= k < f ==> !IsFree(k)
    {
      var result: nat, i := 0, 0;
      while result == 0 && i < asize
        invariant i <= asize && result <= 64
        invariant result == 0 ==> forall k :: 0 <= k < 64 * i ==> !IsFree(k)
        invariant result > 0 ==> i > 0 && IsFree(64 * (i - 1) + result - 1)
                                 && forall k :: 0 <= k < 64 * (i - 1) + result - 1 ==> !IsFree(k)
        decreases asize - i
      {
        result := FindFirstSet(words[i]);
        ghost var end := 64 * i + if result == 0 then 64 else result - 1;
        forall k | 64 * i <= k < end
          ensures !IsFree(k)
        {
          assert k / 64 == i && k % 64 == k - 64 * i && Index(k) == Index(k - 64 * i);
        }
        if result > 0 {
          assert Index(end) == Index(result - 1) && end / 64 == i;
        }
        i := i + 1;
      }
      return if result == 0 then -1 else result + 64 * (i - 1) - 1;
    }

    /** The slots available in both maps. */
    method And(other: AvailabilityMap) returns (result: AvailabilityMap)
      requires Valid() && other.Valid() && 0 < asize
      ensures fresh(result) && result.Valid() && result.asize == if asize >= other.asize then asize else other.asize
      ensures forall k :: 0 <= k < 64 * result.asize ==> (result.IsFree(k) <==> IsFree(k) && other.IsFree(k))
    {
      hide Bit, Both, Index;
      var rasize := if asize >= other.asize then asize else other.asize;
      result := new AvailabilityMap(rasize * 64);
      for i := 0 to rasize
        invariant result.Valid() && forall x :: 0 <= x < i ==> result.words[x] == Both(words[x], other.words[x])
      {
        result.words := result.words[i := Both(words[i], other.words[i])];
      }
      forall k | 0 <= k < 64 * rasize
        ensures result.IsFree(k) <==> IsFree(k) && other.IsFree(k)
      {
        BitOfBoth(words[k / 64], other.words[k / 64], Index(k));
      }
    }
  }
}
