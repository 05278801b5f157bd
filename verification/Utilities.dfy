/** The row and column sums of a matrix, which bound the rounds of its decompositions from below. */
module Utilities {
  import opened Decomposition
  import opened Sums

  /** `max_element`: the first of the largest entries. */
  method MaxElement(s: seq<int>) returns (largest: int)
    requires s != []
    ensures largest in s && forall k :: 0 <= k < |s| ==> s[k] <= largest
  {
    largest := s[0];
    for k := 1 to |s|
      invariant largest in s && forall x :: 0 <= x < k ==> s[x] <= largest
    {
      if s[k] > largest {
        largest := s[k];
      }
    }
  }

  method MaxRowSum(mat: seq<seq<int>>) returns (largest: int)
    requires mat != []
    ensures exists i :: 0 <= i < |mat| && largest == Sum(mat[i])
    ensures forall i :: 0 <= i < |mat| ==> Sum(mat[i]) <= largest
  {
    var rowSums := Fill(|mat|, 0);
    for row := 0 to |mat|
      invariant |rowSums| == |mat| && forall i :: 0 <= i < row ==> rowSums[i] == Sum(mat[i])
    {
      rowSums := rowSums[row := Sum(mat[row])];
    }
    largest := MaxElement(rowSums);
  }

  /** The largest column sum, or -1 without rows. */
  method MaxColumnSum(mat: seq<seq<int>>, ghost cols: nat) returns (largest: int)
    requires IsGrid(mat, |mat|, cols) && cols > 0
    ensures mat == [] ==> largest == -1
    ensures mat != [] ==> exists j :: 0 <= j < cols && largest == Sum(Column(mat, j))
    ensures mat != [] ==> forall j :: 0 <= j < cols ==> Sum(Column(mat, j)) <= largest
  {
    if |mat| == 0 {
      return -1;
    }
    var colSums := Fill(|mat[0]|, 0);
    for col := 0 to |mat[0]|
      invariant |colSums| == cols && forall j :: 0 <= j < col ==> colSums[j] == Sum(Column(mat, j))
    {
      var sum := 0;
      ghost var column := Column(mat, col);
      for row := 0 to |mat|
        invariant sum == Sum(column[..row])
      {
        SumPrefixStep(column, row);
        sum := sum + mat[row][col];
      }
      assert column[..|mat|] == column;
      colSums := colSums[col := sum];
    }
    largest := MaxElement(colSums);
  }

  /** The rounds of a complete decomposition are at least as many as both, and at most as many as packets. */
  lemma RoundsWithinBounds(q: seq<seq<int>>, rounds: seq<seq<int>>, inputs: nat, outputs: nat, rowSum: int,
      columnSum: int)
    requires IsLengthGrid(q, inputs, outputs) && Strips(q, rounds, inputs, outputs)
    requires MatrixSum(Remainder(q, rounds, inputs, outputs)) == 0
    requires exists i :: 0 <= i < inputs && rowSum == Sum(q[i])
    requires exists j :: 0 <= j < outputs && columnSum == Sum(Column(q, j))
    ensures rowSum <= |rounds| <= MatrixSum(q) && columnSum <= |rounds|
  {
    CompleteDecomposition(q, rounds, inputs, outputs);
  }
}
