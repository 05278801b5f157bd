/**
 Stripping matchings from a nonnegative matrix until nothing is left. Every round serves each row and
 each column at most once, so the rounds of a decomposition add up to the matrix, and their number
 is bounded by the largest row or column sum from below and by the total from above.
 */
module Decomposition {
  import opened Matchings
  import opened Sums
  import opened Voq

  /** A matching of one round: outputs differ, and every served queue has a packet. */
  ghost predicate IsRound(q: seq<seq<int>>, sched: seq<int>, inputs: nat, outputs: nat)
    requires IsGrid(q, inputs, outputs)
  {
    && IsMatchVector(sched, inputs, outputs) && IsPartialInjection(sched, outputs)
    && forall i :: 0 <= i < inputs && sched[i] != UNMATCHED ==> q[i][sched[i]] > 0
  }

  /** What the rounds leave of the matrix. */
  ghost function Remainder(q: seq<seq<int>>, rounds: seq<seq<int>>, inputs: nat, outputs: nat): (r: seq<seq<int>>)
    requires IsGrid(q, inputs, outputs) && forall x :: 0 <= x < |rounds| ==> |rounds[x]| == inputs
    ensures IsGrid(r, inputs, outputs)
  {
    if rounds == [] then q
    else Departed(Remainder(q, rounds[..|rounds| - 1], inputs, outputs), rounds[|rounds| - 1])
  }

  /** Every round is a nonempty matching on what the earlier rounds left. */
  ghost predicate Strips(q: seq<seq<int>>, rounds: seq<seq<int>>, inputs: nat, outputs: nat)
    requires IsGrid(q, inputs, outputs)
  {
    && (forall x :: 0 <= x < |rounds| ==> |rounds[x]| == inputs)
    && (rounds == [] ||
          var front, last := rounds[..|rounds| - 1], rounds[|rounds| - 1];
          && Strips(q, front, inputs, outputs)
          && IsRound(Remainder(q, front, inputs, outputs), last, inputs, outputs)
          && exists i :: 0 <= i < inputs && last[i] != UNMATCHED)
  }

  lemma StripsLengths(q: seq<seq<int>>, rounds: seq<seq<int>>, inputs: nat, outputs: nat)
    requires IsGrid(q, inputs, outputs) && Strips(q, rounds, inputs, outputs)
    ensures forall x :: 0 <= x < |rounds| ==> |rounds[x]| == inputs
  {
  }

  lemma StripsOneMore(q: seq<seq<int>>, rounds: seq<seq<int>>, sched: seq<int>, i: nat, inputs: nat, outputs: nat)
    requires IsGrid(q, inputs, outputs) && Strips(q, rounds, inputs, outputs)
    requires IsRound(Remainder(q, rounds, inputs, outputs), sched, inputs, outputs)
    requires i < inputs && sched[i] != UNMATCHED
    ensures Strips(q, rounds + [sched], inputs, outputs)
    ensures Remainder(q, rounds + [sched], inputs, outputs) == Departed(Remainder(q, rounds, inputs, outputs), sched)
  {
    assert (rounds + [sched])[..|rounds|] == rounds;
  }

  /** How many rounds serve entry (i, j). */
  function Served(rounds: seq<seq<int>>, i: nat, j: nat): nat
    requires forall x :: 0 <= x < |rounds| ==> i < |rounds[x]|
  {
    if rounds == [] then 0
    else Served(rounds[..|rounds| - 1], i, j) + if rounds[|rounds| - 1][i] == j then 1 else 0
  }

  /** The rounds and the remainder add up to the matrix, entry by entry. */
  lemma {:induction false} EntriesAddUp(q: seq<seq<int>>, rounds: seq<seq<int>>, i: nat, j: nat, inputs: nat,
      outputs: nat)
    requires IsLengthGrid(q, inputs, outputs) && Strips(q, rounds, inputs, outputs) && i < inputs && j < outputs
    ensures Remainder(q, rounds, inputs, outputs)[i][j] + Served(rounds, i, j) == q[i][j]
    ensures Remainder(q, rounds, inputs, outputs)[i][j] >= 0
  {
    if rounds != [] {
      EntriesAddUp(q, rounds[..|rounds| - 1], i, j, inputs, outputs);
    }
  }

  lemma RemainderIsLengths(q: seq<seq<int>>, rounds: seq<seq<int>>, inputs: nat, outputs: nat)
    requires IsLengthGrid(q, inputs, outputs) && Strips(q, rounds, inputs, outputs)
    ensures IsLengthGrid(Remainder(q, rounds, inputs, outputs), inputs, outputs)
  {
    forall i, j | 0 <= i < inputs && 0 <= j < outputs {
      EntriesAddUp(q, rounds, i, j, inputs, outputs);
    }
  }

  function Column(q: seq<seq<int>>, j: nat): (r: seq<int>)
    requires forall i :: 0 <= i < |q| ==> j < |q[i]|
    ensures |r| == |q| && forall i :: 0 <= i < |r| ==> r[i] == q[i][j]
  {
    seq(|q|, i requires 0 <= i < |q| => q[i][j])
  }

  /** A round takes at most one packet from a row. */
  lemma RoundTakesOneOfRow(q: seq<seq<int>>, sched: seq<int>, i: nat, inputs: nat, outputs: nat)
    requires IsGrid(q, inputs, outputs) && IsMatchVector(sched, inputs, outputs) && i < inputs
    ensures Sum(Departed(q, sched)[i]) >= Sum(q[i]) - 1
  {
    var d := sched[i];
    if d != UNMATCHED && q[i][d] != 0 {
      assert Departed(q, sched)[i] == q[i][d := q[i][d] - 1];
      SumUpdate(q[i], d, q[i][d] - 1);
    } else {
      assert Departed(q, sched)[i] == q[i];
    }
  }

  /** A round takes at most one packet from a column, because outputs differ. */
  lemma RoundTakesOneOfColumn(q: seq<seq<int>>, sched: seq<int>, j: nat, inputs: nat, outputs: nat)
    requires IsGrid(q, inputs, outputs) && IsMatchVector(sched, inputs, outputs) && j < outputs
    requires IsPartialInjection(sched, outputs)
    ensures Sum(Column(Departed(q, sched), j)) >= Sum(Column(q, j)) - 1
  {
    var before, after := Column(q, j), Column(Departed(q, sched), j);
    if i :| 0 <= i < inputs && sched[i] == j && q[i][j] != 0 {
      assert after == before[i := before[i] - 1];
      SumUpdate(before, i, before[i] - 1);
    } else {
      assert after == before;
    }
  }

  /** A decomposition needs at least as many rounds as any row or column has packets. */
  lemma {:induction false} RoundsCoverRowsAndColumns(q: seq<seq<int>>, rounds: seq<seq<int>>, i: nat, j: nat,
      inputs: nat, outputs: nat)
    requires IsGrid(q, inputs, outputs) && Strips(q, rounds, inputs, outputs) && i < inputs && j < outputs
    ensures Sum(Remainder(q, rounds, inputs, outputs)[i]) >= Sum(q[i]) - |rounds|
    ensures Sum(Column(Remainder(q, rounds, inputs, outputs), j)) >= Sum(Column(q, j)) - |rounds|
  {
    if rounds != [] {
      var front, last := rounds[..|rounds| - 1], rounds[|rounds| - 1];
      RoundsCoverRowsAndColumns(q, front, i, j, inputs, outputs);
      var rest := Remainder(q, front, inputs, outputs);
      RoundTakesOneOfRow(rest, last, i, inputs, outputs);
      RoundTakesOneOfColumn(rest, last, j, inputs, outputs);
    }
  }

  /** The entries of the first `w` columns. */
  function Left(q: seq<seq<int>>, w: nat): (r: seq<seq<int>>)
    requires forall i :: 0 <= i < |q| ==> w <= |q[i]|
    ensures |r| == |q| && forall i :: 0 <= i < |r| ==> r[i] == q[i][..w]
  {
    seq(|q|, i requires 0 <= i < |q| => q[i][..w])
  }

  /** How many entries of a matching are outputs below `w`. */
  function CountBelow(sched: seq<int>, w: nat): nat {
    if sched == [] then 0
    else CountBelow(sched[..|sched| - 1], w) + if 0 <= sched[|sched| - 1] < w then 1 else 0
  }

  lemma {:induction false} CountBelowPositive(sched: seq<int>, w: nat, i: nat)
    requires i < |sched| && 0 <= sched[i] < w
    ensures CountBelow(sched, w) > 0
  {
    if i < |sched| - 1 {
      CountBelowPositive(sched[..|sched| - 1], w, i);
    }
  }

  lemma {:induction false} CountBelowZero(sched: seq<int>, w: nat)
    requires forall i :: 0 <= i < |sched| ==> !(0 <= sched[i] < w)
    ensures CountBelow(sched, w) == 0
  {
    if sched != [] {
      CountBelowZero(sched[..|sched| - 1], w);
    }
  }

  /** A round takes from the first `w` columns as many packets as it serves outputs there. */
  lemma {:induction false} RoundTakes(q: seq<seq<int>>, sched: seq<int>, k: nat, w: nat, inputs: nat, outputs: nat)
    requires IsGrid(q, inputs, outputs) && IsRound(q, sched, inputs, outputs) && k <= inputs && w <= outputs
    ensures MatrixSum(Left(DepartedBelow(q, sched, k, inputs, outputs), w))
            == MatrixSum(Left(q, w)) - CountBelow(sched[..k], w)
  {
    if k > 0 {
      RoundTakes(q, sched, k - 1, w, inputs, outputs);
      assert sched[..k][..k - 1] == sched[..k - 1];
      var p, r := DepartedBelow(q, sched, k - 1, inputs, outputs), DepartedBelow(q, sched, k, inputs, outputs);
      var d := sched[k - 1];
      if d != UNMATCHED {
        var row := p[k - 1][..w];
        assert p[k - 1] == q[k - 1];
        if d < w {
          var row' := row[d := row[d] - 1];
          assert r[k - 1][..w] == row';
          assert Left(r, w) == Left(p, w)[k - 1 := row'];
          SumUpdate(row, d, row[d] - 1);
          MatrixSumUpdate(Left(p, w), k - 1, row');
        } else {
          assert r[k - 1][..w] == row;
          assert Left(r, w) == Left(p, w);
        }
      }
    }
  }

  lemma RoundTakesAll(q: seq<seq<int>>, sched: seq<int>, w: nat, inputs: nat, outputs: nat)
    requires IsGrid(q, inputs, outputs) && IsRound(q, sched, inputs, outputs) && w <= outputs
    ensures MatrixSum(Left(Departed(q, sched), w)) == MatrixSum(Left(q, w)) - CountBelow(sched, w)
  {
    RoundTakes(q, sched, inputs, w, inputs, outputs);
    DepartedBelowAll(q, sched, inputs, outputs);
    assert sched[..inputs] == sched;
  }

  lemma LeftAll(q: seq<seq<int>>, inputs: nat, outputs: nat)
    requires IsGrid(q, inputs, outputs)
    ensures Left(q, outputs) == q
  {
    forall i | 0 <= i < inputs
      ensures Left(q, outputs)[i] == q[i]
    {
    }
  }

  /** Every round takes at least one packet, so there are at most as many rounds as packets. */
  lemma {:induction false} RoundsBoundedByTotal(q: seq<seq<int>>, rounds: seq<seq<int>>, inputs: nat, outputs: nat)
    requires IsGrid(q, inputs, outputs) && Strips(q, rounds, inputs, outputs)
    ensures MatrixSum(Remainder(q, rounds, inputs, outputs)) + |rounds| <= MatrixSum(q)
  {
    if rounds != [] {
      var front, last := rounds[..|rounds| - 1], rounds[|rounds| - 1];
      RoundsBoundedByTotal(q, front, inputs, outputs);
      var rest := Remainder(q, front, inputs, outputs);
      RoundTakesAll(rest, last, outputs, inputs, outputs);
      LeftAll(rest, inputs, outputs);
      LeftAll(Departed(rest, last), inputs, outputs);
      var i :| 0 <= i < inputs && last[i] != UNMATCHED;
      CountBelowPositive(last, outputs, i);
    }
  }

  lemma {:induction false} MatrixSumNonNegative(m: seq<seq<int>>)
    requires forall i :: 0 <= i < |m| ==> NonNegative(m[i])
    ensures MatrixSum(m) >= 0
    ensures MatrixSum(m) == 0 <==> forall i :: 0 <= i < |m| ==> Zero(m[i])
  {
    if m != [] {
      SumNonNegative(m[0]);
      MatrixSumNonNegative(m[1..]);
      assert forall i :: 0 < i < |m| ==> m[i] == m[1..][i - 1];
      assert Zero(m[0]) <==> Sum(m[0]) == 0;
    }
  }

  ghost predicate Zero(row: seq<int>) {
    forall d :: 0 <= d < |row| ==> row[d] == 0
  }

  /**
   A complete decomposition: the matchings add up to the matrix, there are at least as many as the
   largest row or column sum, and at most as many as packets.
   */
  lemma CompleteDecomposition(q: seq<seq<int>>, rounds: seq<seq<int>>, inputs: nat, outputs: nat)
    requires IsLengthGrid(q, inputs, outputs) && Strips(q, rounds, inputs, outputs)
    requires MatrixSum(Remainder(q, rounds, inputs, outputs)) == 0
    ensures forall i, j :: 0 <= i < inputs && 0 <= j < outputs ==> Served(rounds, i, j) == q[i][j]
    ensures forall i :: 0 <= i < inputs ==> |rounds| >= Sum(q[i])
    ensures forall j :: 0 <= j < outputs ==> |rounds| >= Sum(Column(q, j))
    ensures |rounds| <= MatrixSum(q)
  {
    var rest := Remainder(q, rounds, inputs, outputs);
    RemainderIsLengths(q, rounds, inputs, outputs);
    MatrixSumNonNegative(rest);
    RoundsBoundedByTotal(q, rounds, inputs, outputs);
    forall i, j | 0 <= i < inputs && 0 <= j < outputs
      ensures Served(rounds, i, j) == q[i][j]
    {
      EntriesAddUp(q, rounds, i, j, inputs, outputs);
      assert Zero(rest[i]);
    }
    forall i | 0 <= i < inputs
      ensures |rounds| >= Sum(q[i])
    {
      assert Zero(rest[i]);
      SumZeros(rest[i]);
      RowCovered(q, rounds, i, inputs, outputs);
    }
    forall j | 0 <= j < outputs
      ensures |rounds| >= Sum(Column(q, j))
    {
      forall i | 0 <= i < inputs
        ensures Column(rest, j)[i] == 0
      {
        assert Zero(rest[i]);
      }
      SumZeros(Column(rest, j));
      if inputs > 0 {
        RoundsCoverRowsAndColumns(q, rounds, 0, j, inputs, outputs);
      }
    }
  }

  lemma {:induction false} RowCovered(q: seq<seq<int>>, rounds: seq<seq<int>>, i: nat, inputs: nat, outputs: nat)
    requires IsGrid(q, inputs, outputs) && Strips(q, rounds, inputs, outputs) && i < inputs
    ensures Sum(Remainder(q, rounds, inputs, outputs)[i]) >= Sum(q[i]) - |rounds|
  {
    if outputs > 0 {
      RoundsCoverRowsAndColumns(q, rounds, i, 0, inputs, outputs);
    } else {
      assert q[i] == [] && Remainder(q, rounds, inputs, outputs)[i] == [];
    }
  }
}
