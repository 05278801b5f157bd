/** The cyclic scans iSLIP performs from its round-robin pointers. */
module RoundRobin {

  /** The port `d` places after `p` on a ring of `n` ports. */
  function Ahead(p: nat, d: nat, n: nat): nat
    requires p < n && d < n
  {
    if p + d < n then p + d else p + d - n
  }

  /** How many places `x` is after `p` on a ring of `n` ports. */
  function Distance(p: nat, x: nat, n: nat): nat
    requires p < n && x < n
  {
    if x >= p then x - p else x + n - p
  }

  /** The port after `p` on a ring of `n` ports, where a pointer moves to. */
  function Next(p: nat, n: nat): nat
    requires n > 0
  {
    (p + 1) % n
  }

  /** The first eligible port in cyclic order from `p`, skipping the first `from` places; -1 if none. */
  function FirstFrom(eligible: seq<bool>, p: nat, from: nat): (r: int)
    requires p < |eligible| && from <= |eligible|
    ensures r == -1 || (0 <= r < |eligible| && eligible[r])
    decreases |eligible| - from
  {
    if from == |eligible| then -1
    else if eligible[Ahead(p, from, |eligible|)] then Ahead(p, from, |eligible|)
    else
      FirstFrom(eligible, p, from + 1)
  }

  /** A scan fails only when nothing is eligible, and otherwise stops at the nearest eligible port. */
  lemma {:induction false} FirstFromIsNearest(eligible: seq<bool>, p: nat, from: nat)
    requires p < |eligible| && from <= |eligible|
    ensures var n, r := |eligible|, FirstFrom(eligible, p, from);
            && (r == -1 ==> forall x :: 0 <= x < n && from <= Distance(p, x, n) ==> !eligible[x])
            && (r != -1 ==>
                  && from <= Distance(p, r, n)
                  && forall x :: 0 <= x < n && eligible[x] && from <= Distance(p, x, n) ==>
                       Distance(p, r, n) <= Distance(p, x, n))
    decreases |eligible| - from
  {
    if from < |eligible| && !eligible[Ahead(p, from, |eligible|)] {
      FirstFromIsNearest(eligible, p, from + 1);
    }
  }

  /** The index the loops compute, `(k + pointer) % n`, is `k` places after the reduced pointer. */
  lemma ScanIndex(k: nat, pointer: nat, n: nat)
    requires k < n
    ensures (k + pointer) % n == Ahead(pointer % n, k, n)
  {
    var q := pointer / n;
    assert k + pointer == n * q + (k + pointer % n);
    ModShift(k + pointer % n, q, n);
    var y := k + pointer % n;
    if y < n {
      ModUnique(y, 0, y, n);
    } else {
      ModUnique(y, 1, y - n, n);
    }
  }

  lemma MultipleGap(n: int, z: int)
    requires n > 0
    ensures z >= 1 ==> n * z >= n
    ensures z <= -1 ==> n * z <= -n
  {
    if z >= 1 {
      assert n * z == n * (z - 1) + n;
    } else if z <= -1 {
      assert n * z == -(n * (-z - 1)) - n;
    }
  }

  lemma ModUnique(y: nat, q: nat, r: nat, n: nat)
    requires 0 <= r < n && y == n * q + r
    ensures y % n == r
  {
    var d, m := y / n, y % n;
    assert y == n * d + m;
    assert n * (d - q) == n * d - n * q == r - m;
    MultipleGap(n, d - q);
  }

  lemma ModShift(y: nat, q: nat, n: nat)
    requires n > 0
    ensures (n * q + y) % n == y % n
  {
    var d := y / n;
    assert n * q + y == n * (q + d) + y % n;
    ModUnique(n * q + y, q + d, y % n, n);
  }

  /** A pointer moved one past `k` has strictly less way to go to any other port not before `k`. */
  lemma PointerPasses(p: nat, k: nat, x: nat, n: nat)
    requires p < n && k < n && x < n && k != x
    requires Distance(p, k, n) <= Distance(p, x, n)
    ensures Next(k, n) < n && Distance(Next(k, n), x, n) < Distance(p, x, n)
  {
    ModUnique(k + 1, if k + 1 < n then 0 else 1, if k + 1 < n then k + 1 else 0, n);
  }

  /** The distance of a port is the number of steps that lead to it. */
  lemma DistanceIsSteps(pointer: nat, x: nat, n: nat)
    requires x < n
    ensures (Distance(pointer % n, x, n) + pointer) % n == x
  {
    ScanIndex(Distance(pointer % n, x, n), pointer, n);
  }
}
