/** Sums of integer vectors and matrices, the quantities `vector_sum` and `matrix_sum` fold. */
module Sums {

  function Sum(s: seq<int>): int {
    if s == [] then 0 else s[0] + Sum(s[1..])
  }

  function MatrixSum(m: seq<seq<int>>): int {
    if m == [] then 0 else Sum(m[0]) + MatrixSum(m[1..])
  }

  ghost predicate NonNegative(s: seq<int>) {
    forall i :: 0 <= i < |s| ==> s[i] >= 0
  }

  /** A rectangular matrix with `rows` rows of `cols` entries. */
  predicate IsGrid<T>(m: seq<seq<T>>, rows: nat, cols: nat) {
    |m| == rows && forall i :: 0 <= i < rows ==> |m[i]| == cols
  }

  ghost predicate IsLengthGrid(m: seq<seq<int>>, rows: nat, cols: nat) {
    IsGrid(m, rows, cols) && forall i, j :: 0 <= i < rows && 0 <= j < cols ==> m[i][j] >= 0
  }

  /** `n` copies of `v`. */
  function Fill<T>(n: nat, v: T): (r: seq<T>)
    ensures |r| == n && forall i :: 0 <= i < n ==> r[i] == v
  {
    seq(n, _ => v)
  }

  /** Two grids with the same entries are the same. */
  lemma GridsEqual<T>(a: seq<seq<T>>, b: seq<seq<T>>)
    requires |a| == |b| && forall i :: 0 <= i < |a| ==> |a[i]| == |b[i]|
    requires forall i, j :: 0 <= i < |a| && 0 <= j < |a[i]| ==> a[i][j] == b[i][j]
    ensures a == b
  {
    forall i | 0 <= i < |a|
      ensures a[i] == b[i]
    {
    }
  }

  lemma {:induction false} SumConcat(a: seq<int>, b: seq<int>)
    ensures Sum(a + b) == Sum(a) + Sum(b)
  {
    if a == [] {
      assert a + b == b;
    } else {
      SumConcat(a[1..], b);
      assert (a + b)[1..] == a[1..] + b;
    }
  }

  lemma SumPrefixStep(s: seq<int>, k: nat)
    requires k < |s|
    ensures Sum(s[..k + 1]) == Sum(s[..k]) + s[k]
  {
    SumConcat(s[..k], [s[k]]);
    assert s[..k + 1] == s[..k] + [s[k]];
  }

  lemma {:induction false} SumUpdate(s: seq<int>, i: nat, v: int)
    requires i < |s|
    ensures Sum(s[i := v]) == Sum(s) - s[i] + v
  {
    if i > 0 {
      SumUpdate(s[1..], i - 1, v);
      assert s[i := v][1..] == s[1..][i - 1 := v];
    }
  }

  lemma {:induction false} SumAdd(a: seq<int>, b: seq<int>, c: seq<int>)
    requires |a| == |b| == |c|
    requires forall i :: 0 <= i < |a| ==> c[i] == a[i] + b[i]
    ensures Sum(c) == Sum(a) + Sum(b)
  {
    if a != [] {
      SumAdd(a[1..], b[1..], c[1..]);
    }
  }

  lemma {:induction false} SumNonNegative(s: seq<int>)
    requires NonNegative(s)
    ensures Sum(s) >= 0
    ensures forall i :: 0 <= i < |s| ==> s[i] <= Sum(s)
    ensures Sum(s) == 0 <==> forall i :: 0 <= i < |s| ==> s[i] == 0
  {
    if s != [] {
      SumNonNegative(s[1..]);
      forall i | 0 <= i < |s|
        ensures s[i] <= Sum(s)
      {
        if i > 0 {
          assert s[i] == s[1..][i - 1];
        }
      }
      if Sum(s) == 0 {
        forall i | 0 <= i < |s|
          ensures s[i] == 0
        {
          if i > 0 {
            assert s[i] == s[1..][i - 1];
          }
        }
      }
    }
  }

  lemma {:induction false} SumZeros(s: seq<int>)
    requires forall i :: 0 <= i < |s| ==> s[i] == 0
    ensures Sum(s) == 0
  {
    if s != [] {
      SumZeros(s[1..]);
    }
  }

  lemma {:induction false} MatrixSumUpdate(m: seq<seq<int>>, i: nat, row: seq<int>)
    requires i < |m|
    ensures MatrixSum(m[i := row]) == MatrixSum(m) - Sum(m[i]) + Sum(row)
  {
    if i > 0 {
      MatrixSumUpdate(m[1..], i - 1, row);
      assert m[i := row][1..] == m[1..][i - 1 := row];
    }
  }

  /** A power of two. */
  predicate Pow2(w: nat) {
    w == 1 || (w > 1 && w % 2 == 0 && Pow2(w / 2))
  }

  /** Multiplication by repeated addition, which keeps the arithmetic of runs linear. */
  function Times(p: nat, z: nat): nat {
    if p == 0 then 0 else Times(p - 1, z) + z
  }

  lemma {:induction false} TimesIsProduct(p: nat, z: nat)
    ensures Times(p, z) == p * z
  {
    if p > 0 {
      TimesIsProduct(p - 1, z);
      assert p * z == (p - 1) * z + z;
    }
  }

  lemma {:induction false} TimesAdd(p: nat, q: nat, z: nat)
    ensures Times(p + q, z) == Times(p, z) + Times(q, z)
  {
    if q > 0 {
      TimesAdd(p, q - 1, z);
    }
  }
}
