/** The edge-colouring scheduler `EdgeColorDoubleMax`: rounds of proposing and accepting until the matrix is empty. */
module EdgeColoring {
  import opened Decomposition
  import opened DoubleMax
  import opened Matchings
  import opened MaxTrees
  import opened Sums
  import opened Voq

  /** How `schedule` ends: with its rounds, or in the assertion that a round must match something. */
  datatype Outcome = Decomposed(rounds: nat, schedules: seq<seq<int>>) | AssertionFailed

  /** No output appears twice. */
  ghost predicate NoRepeats(s: seq<int>) {
    forall i, k :: 0 <= i < k < |s| && 0 <= s[i] < |s| ==> s[i] != s[k]
  }

  /**
   `matching_size`: the number of entries that are ports below the size of the vector itself, or -1 if
   one of them repeats. Outputs beyond the number of inputs are not counted.
   */
  method MatchingSize(s: seq<int>) returns (result: int)
    ensures NoRepeats(s) ==> result == CountBelow(s, |s|)
    ensures !NoRepeats(s) ==> result == -1
  {
    var visited := Fill(|s|, false);
    result := 0;
    for i := 0 to |s|
      invariant |visited| == |s| && result == CountBelow(s[..i], |s|)
      invariant forall x :: 0 <= x < |s| ==> (visited[x] <==> exists k :: 0 <= k < i && s[k] == x)
      invariant forall j, k :: 0 <= j < k < i && 0 <= s[j] < |s| ==> s[j] != s[k]
    {
      assert s[..i + 1][..i] == s[..i];
      if 0 <= s[i] < |s| {
        if visited[s[i]] {
          return -1;
        }
        result := result + 1;
        visited := visited[s[i] := true];
      }
    }
    assert s[..|s|] == s;
  }

  /** Every packet is destined to an output whose number is also an input's. */
  ghost predicate BigColumnsEmpty(q: seq<seq<int>>, inputs: nat, outputs: nat)
    requires IsGrid(q, inputs, outputs)
  {
    forall i, j :: 0 <= i < inputs && inputs <= j < outputs ==> q[i][j] == 0
  }

  /** The number of columns that `matching_size` counts. */
  function Counted(inputs: nat, outputs: nat): nat {
    if inputs <= outputs then inputs else outputs
  }

  /** Counted packets are all packets exactly when the big columns are empty. */
  lemma CountedIsTotal(q: seq<seq<int>>, inputs: nat, outputs: nat)
    requires IsLengthGrid(q, inputs, outputs)
    ensures var counted := MatrixSum(Left(q, Counted(inputs, outputs)));
            counted <= MatrixSum(q) && (counted == MatrixSum(q) <==> BigColumnsEmpty(q, inputs, outputs))
  {
    CountedRows(q, 0, inputs, outputs);
    assert q[0..] == q && Left(q, Counted(inputs, outputs))[0..] == Left(q, Counted(inputs, outputs));
  }

  lemma {:induction false} CountedRows(q: seq<seq<int>>, k: nat, inputs: nat, outputs: nat)
    requires IsLengthGrid(q, inputs, outputs) && k <= inputs
    ensures var w := Counted(inputs, outputs);
            && MatrixSum(Left(q, w)[k..]) <= MatrixSum(q[k..])
            && (MatrixSum(Left(q, w)[k..]) == MatrixSum(q[k..])
                <==> forall i, j :: k <= i < inputs && inputs <= j < outputs ==> q[i][j] == 0)
    decreases inputs - k
  {
    var w := Counted(inputs, outputs);
    if k < inputs {
      CountedRows(q, k + 1, inputs, outputs);
      assert q[k..][1..] == q[k + 1..] && Left(q, w)[k..][1..] == Left(q, w)[k + 1..];
      var row := q[k];
      assert row == row[..w] + row[w..];
      SumConcat(row[..w], row[w..]);
      SumNonNegative(row[w..]);
      assert forall j :: w <= j < outputs ==> row[j] == row[w..][j - w];
    }
  }

  /** The packets `schedule` still expects: the counted ones that are left and all that are never counted. */
  ghost function Expected(q: seq<seq<int>>, rest: seq<seq<int>>, inputs: nat, outputs: nat): int
    requires IsGrid(q, inputs, outputs) && IsGrid(rest, inputs, outputs)
  {
    var w := Counted(inputs, outputs);
    MatrixSum(Left(rest, w)) + MatrixSum(q) - MatrixSum(Left(q, w))
  }

  lemma {:induction false} CountWithinOutputs(sched: seq<int>, inputs: nat, outputs: nat)
    requires forall i :: 0 <= i < |sched| ==> sched[i] < outputs
    ensures CountBelow(sched, inputs) == CountBelow(sched, Counted(inputs, outputs))
  {
    if sched != [] {
      CountWithinOutputs(sched[..|sched| - 1], inputs, outputs);
    }
  }

  /** A round lowers the expectation by the size of its matching. */
  lemma RoundLowersExpectation(q: seq<seq<int>>, rest: seq<seq<int>>, sched: seq<int>, inputs: nat, outputs: nat)
    requires IsGrid(q, inputs, outputs) && IsGrid(rest, inputs, outputs) && IsRound(rest, sched, inputs, outputs)
    ensures NoRepeats(sched)
    ensures Expected(q, Departed(rest, sched), inputs, outputs)
            == Expected(q, rest, inputs, outputs) - CountBelow(sched, inputs)
  {
    CountWithinOutputs(sched, inputs, outputs);
    RoundTakesAll(rest, sched, Counted(inputs, outputs), inputs, outputs);
  }

  /** What is left is never negative, and what is left of an empty big column is empty. */
  lemma ExpectationMeans(q: seq<seq<int>>, rounds: seq<seq<int>>, inputs: nat, outputs: nat)
    requires IsLengthGrid(q, inputs, outputs) && Strips(q, rounds, inputs, outputs)
    ensures var rest := Remainder(q, rounds, inputs, outputs);
            && MatrixSum(Left(rest, Counted(inputs, outputs))) >= 0
            && IsLengthGrid(rest, inputs, outputs)
            && Expected(q, rest, inputs, outputs) >= 0
            && (BigColumnsEmpty(q, inputs, outputs) ==> Expected(q, rest, inputs, outputs) == MatrixSum(rest))
            && (Expected(q, rest, inputs, outputs) == 0 ==> BigColumnsEmpty(q, inputs, outputs) && MatrixSum(rest) == 0)
  {
    var rest := Remainder(q, rounds, inputs, outputs);
    RemainderIsLengths(q, rounds, inputs, outputs);
    CountedIsTotal(q, inputs, outputs);
    CountedIsTotal(rest, inputs, outputs);
    MatrixSumNonNegative(Left(rest, Counted(inputs, outputs)));
    if BigColumnsEmpty(q, inputs, outputs) {
      forall i, j | 0 <= i < inputs && inputs <= j < outputs
        ensures rest[i][j] == 0
      {
        EntriesAddUp(q, rounds, i, j, inputs, outputs);
      }
    }
  }

  /** As long as packets are left and none is outside the counted columns, a round matches a counted output. */
  lemma RoundCounts(q: seq<seq<int>>, rounds: seq<seq<int>>, sched: seq<int>, cutoff: int, inputs: nat, outputs: nat)
    requires IsLengthGrid(q, inputs, outputs) && Strips(q, rounds, inputs, outputs)
    requires RoundDone(Remainder(q, rounds, inputs, outputs), cutoff, sched, inputs, outputs)
    requires cutoff != 0 && BigColumnsEmpty(q, inputs, outputs)
    requires Expected(q, Remainder(q, rounds, inputs, outputs), inputs, outputs) > 0
    ensures CountBelow(sched, inputs) > 0
  {
    var rest := Remainder(q, rounds, inputs, outputs);
    ExpectationMeans(q, rounds, inputs, outputs);
    MatrixSumNonNegative(rest);
    var i :| 0 <= i < inputs && !Zero(rest[i]);
    var d :| 0 <= d < outputs && rest[i][d] != 0;
    var k :| 0 <= k < inputs && sched[k] != UNMATCHED;
    EntriesAddUp(q, rounds, k, sched[k], inputs, outputs);
    CountBelowPositive(sched, inputs, k);
  }

  /** A positive count means that something was matched. */
  lemma {:induction false} CountedIsMatched(sched: seq<int>, w: nat)
    requires CountBelow(sched, w) > 0
    ensures exists i :: 0 <= i < |sched| && 0 <= sched[i] < w
  {
    if forall i :: 0 <= i < |sched| ==> !(0 <= sched[i] < w) {
      CountBelowZero(sched, w);
    }
  }

  /** The state of `schedule` between rounds. */
  ghost predicate InProgress(q: seq<seq<int>>, cutoff: int, rounds: seq<seq<int>>, rest: seq<seq<int>>, packets: int,
      inputs: nat, outputs: nat)
    requires IsGrid(q, inputs, outputs)
  {
    && Strips(q, rounds, inputs, outputs) && AllRoundsDone(q, cutoff, rounds, inputs, outputs)
    && rest == Remainder(q, rounds, inputs, outputs)
    && packets == Expected(q, rest, inputs, outputs) <= MatrixSum(q)
    && (cutoff == 0 ==> rounds == [])
  }

  lemma NoRoundsYet(q: seq<seq<int>>, cutoff: int, inputs: nat, outputs: nat)
    requires IsLengthGrid(q, inputs, outputs)
    ensures InProgress(q, cutoff, [], q, MatrixSum(q), inputs, outputs)
  {
  }

  lemma InProgressBounds(q: seq<seq<int>>, cutoff: int, rounds: seq<seq<int>>, rest: seq<seq<int>>, packets: int,
      inputs: nat, outputs: nat)
    requires IsLengthGrid(q, inputs, outputs) && InProgress(q, cutoff, rounds, rest, packets, inputs, outputs)
    ensures 0 <= packets <= MatrixSum(q)
  {
    ExpectationMeans(q, rounds, inputs, outputs);
  }

  /** A round that counted something is progress; one that did not shows that the decomposition cannot succeed. */
  lemma RoundAdvances(q: seq<seq<int>>, cutoff: int, rounds: seq<seq<int>>, rest: seq<seq<int>>, packets: int,
      sched: seq<int>, inputs: nat, outputs: nat)
    requires IsLengthGrid(q, inputs, outputs) && InProgress(q, cutoff, rounds, rest, packets, inputs, outputs)
    requires packets > 0
    requires IsGrid(rest, inputs, outputs) && RoundDone(rest, cutoff, sched, inputs, outputs)
    ensures NoRepeats(sched) && |sched| == inputs
    ensures CountBelow(sched, inputs) <= 0 ==> !(cutoff != 0 && BigColumnsEmpty(q, inputs, outputs))
    ensures CountBelow(sched, inputs) > 0 ==>
      InProgress(q, cutoff, rounds + [sched], Departed(rest, sched), packets - CountBelow(sched, inputs), inputs,
                 outputs)
  {
    hide Strips, AllRoundsDone, Remainder, RoundDone, Expected, NoRepeats, Departed, BigColumnsEmpty;
    RoundIsRound(rest, cutoff, sched, inputs, outputs);
    RoundLowersExpectation(q, rest, sched, inputs, outputs);
    if CountBelow(sched, inputs) > 0 {
      CountedIsMatched(sched, inputs);
      OneMoreRound(q, cutoff, rounds, sched, inputs, outputs);
    } else if cutoff != 0 && BigColumnsEmpty(q, inputs, outputs) {
      RoundCounts(q, rounds, sched, cutoff, inputs, outputs);
    }
  }

  /** No packet expected: everything has been served. */
  lemma Finished(q: seq<seq<int>>, cutoff: int, rounds: seq<seq<int>>, rest: seq<seq<int>>, packets: int, inputs: nat,
      outputs: nat)
    requires IsLengthGrid(q, inputs, outputs) && InProgress(q, cutoff, rounds, rest, packets, inputs, outputs)
    requires packets <= 0
    ensures Strips(q, rounds, inputs, outputs) && AllRoundsDone(q, cutoff, rounds, inputs, outputs)
    ensures rest == Remainder(q, rounds, inputs, outputs) && MatrixSum(rest) == 0
    ensures IsGrid(rest, inputs, outputs) && forall i :: 0 <= i < inputs ==> Zero(rest[i])
    ensures MatrixSum(q) == 0 || (cutoff != 0 && BigColumnsEmpty(q, inputs, outputs))
  {
    ExpectationMeans(q, rounds, inputs, outputs);
    MatrixSumNonNegative(rest);
  }

  class Scheduler {
    const numInputs: nat
    const numOutputs: nat
    const cutoff: int
    const inputQueues: seq<MaxPropose>
    var schedule: seq<int>
    var inputAvailability: seq<int>
    var outputAvailability: seq<int>

    /** The proposers are distinct objects. */
    ghost predicate Shape()
      reads this
    {
      && numInputs > 0 && numOutputs > 0 && |inputQueues| == numInputs
      && (forall i, k :: 0 <= i < k < numInputs ==> inputQueues[i] != inputQueues[k])
      && (forall i :: 0 <= i < numInputs ==> inputQueues[i].numOutputs == numOutputs)
      && |schedule| == numInputs == |inputAvailability| && |outputAvailability| == numOutputs
    }

    /** The proposers hold exactly the rows of `q`. */
    ghost predicate Holds(q: seq<seq<int>>)
      reads this, inputQueues
    {
      && Shape() && IsLengthGrid(q, numInputs, numOutputs)
      && forall i :: 0 <= i < numInputs ==> inputQueues[i].Holds(q[i])
    }

    /** Ready for a round: all ports available, nothing scheduled. */
    ghost predicate Ready()
      reads this
    {
      && schedule == Fill(numInputs, UNMATCHED)
      && inputAvailability == Fill(numInputs, 1) && outputAvailability == Fill(numOutputs, 1)
    }

    constructor (numInputs: nat, numOutputs: nat, cutoff: int)
      requires numInputs > 0 && numOutputs > 0
      ensures this.numInputs == numInputs && this.numOutputs == numOutputs && this.cutoff == cutoff
      ensures Holds(Fill(numInputs, Fill(numOutputs, 0))) && Ready() && fresh(inputQueues)
    {
      var queues: seq<MaxPropose> := [];
      for i := 0 to numInputs
        invariant |queues| == i && fresh(queues)
        invariant forall x, y :: 0 <= x < y < i ==> queues[x] != queues[y]
        invariant forall x :: 0 <= x < i ==> queues[x].numOutputs == numOutputs && queues[x].Holds(Fill(numOutputs, 0))
      {
        var fresh_ := new MaxPropose(numOutputs);
        queues := queues + [fresh_];
      }
      this.numInputs := numInputs;
      this.numOutputs := numOutputs;
      this.cutoff := cutoff;
      inputQueues := queues;
      schedule := Fill(numInputs, UNMATCHED);
      inputAvailability := Fill(numInputs, 1);
      outputAvailability := Fill(numOutputs, 1);
    }

    method Reset()
      requires Shape()
      modifies this
      ensures Shape() && Ready()
    {
      inputAvailability := Fill(numInputs, 1);
      outputAvailability := Fill(numOutputs, 1);
      schedule := Fill(numInputs, UNMATCHED);
    }

    /** Takes over a new matrix. */
    method HandleArrivals(weights: seq<seq<int>>, ghost q: seq<seq<int>>)
      requires Holds(q) && IsLengthGrid(weights, numInputs, numOutputs)
      modifies this, inputQueues
      ensures Holds(weights) && Ready()
    {
      Reset();
      for i := 0 to numInputs
        invariant Shape() && Ready()
        invariant forall x :: 0 <= x < numInputs ==> inputQueues[x].Holds(if x < i then weights[x] else q[x])
      {
        inputQueues[i].Assign(weights[i]);
      }
    }

    /** Step 1: every input with packets proposes to its longest queue's output. */
    method Propose(ghost q: seq<seq<int>>) returns (accepts: seq<seq<int>>)
      requires Holds(q)
      ensures accepts == KeptProposals(q, cutoff, numInputs, numInputs, numOutputs)
      ensures AreKept(accepts, q, cutoff, numOutputs)
    {
      hide Represents, IsLongest, AreKept;
      accepts := Fill(numOutputs, []);
      for inp := 0 to numInputs
        invariant accepts == KeptProposals(q, cutoff, inp, numInputs, numOutputs)
      {
        var length := inputQueues[inp].GetQueueLength(q[inp]);
        SumNonNegative(q[inp]);
        if length == 0 {
          continue;
        }
        var out := inputQueues[inp].Sample(q[inp]);
        assert q[inp][out] > 0;
        FavouriteIs(q[inp], out);
        if AcceptsMore(cutoff, |accepts[out]|) {
          accepts := accepts[out := accepts[out] + [inp]];
        }
      }
      KeptProposalsExactly(q, cutoff, numInputs, numOutputs);
    }

    /** The lengths the comparison of output `out` looks at. */
    method Keys(out: nat, ghost q: seq<seq<int>>) returns (key: seq<int>)
      requires Holds(q) && out < numOutputs
      ensures |key| == numInputs && forall i :: 0 <= i < numInputs ==> key[i] == q[i][out]
    {
      key := [];
      for i := 0 to numInputs
        invariant |key| == i && forall x :: 0 <= x < i ==> key[x] == q[x][out]
      {
        var length := inputQueues[i].GetPacketNumber(out, q[i]);
        key := key + [length];
      }
    }

    /** Pairs an input with an output and takes the packet off the matrix. */
    method MatchElement(inp: nat, out: nat, ghost q: seq<seq<int>>)
      requires IsLengthGrid(q, numInputs, numOutputs) && |schedule| == |q| && Holds(Departed(q, schedule))
      requires inp < numInputs && out < numOutputs && schedule[inp] == UNMATCHED && q[inp][out] > 0
      modifies this, inputQueues
      ensures Shape() && schedule == old(schedule)[inp := out] && Holds(Departed(q, schedule))
      ensures inputAvailability == old(inputAvailability)[inp := old(inputAvailability)[inp] - 1]
      ensures outputAvailability == old(outputAvailability)[out := old(outputAvailability)[out] - 1]
    {
      ghost var now := Departed(q, schedule);
      DepartedOneMore(q, schedule, inp, out, numInputs, numOutputs);
      inputAvailability := inputAvailability[inp := inputAvailability[inp] - 1];
      outputAvailability := outputAvailability[out := outputAvailability[out] - 1];
      schedule := schedule[inp := out];
      inputQueues[inp].Increment(out, -1, now[inp]);
      forall i | 0 <= i < numInputs
        ensures inputQueues[i].Holds(Departed(q, schedule)[i])
      {
      }
    }

    /** Output `out` goes through its sorted proposals: the first is free and is matched, then the output is taken. */
    method AcceptFirst(order: seq<int>, out: nat, ghost q: seq<seq<int>>)
      requires IsLengthGrid(q, numInputs, numOutputs) && |schedule| == |q| && Holds(Departed(q, schedule))
      requires out < numOutputs && outputAvailability[out] == 1
      requires order != [] && AreInputs(order, numInputs) && inputAvailability[order[0]] == 1
      requires schedule[order[0]] == UNMATCHED && q[order[0]][out] > 0
      modifies this, inputQueues
      ensures Shape() && |schedule| == |q| && Holds(Departed(q, schedule))
      ensures schedule == old(schedule)[order[0] := out]
      ensures inputAvailability == old(inputAvailability)[order[0] := 0]
      ensures outputAvailability == old(outputAvailability)[out := 0]
    {
      hide Represents;
      for x := 0 to |order|
        invariant x <= 1 && Shape() && |schedule| == |q| && Holds(Departed(q, schedule))
        invariant x == 0 ==> schedule == old(schedule)
        invariant x == 0 ==>
          inputAvailability == old(inputAvailability) && outputAvailability == old(outputAvailability)
        invariant x == 1 ==> schedule == old(schedule)[order[0] := out]
        invariant x == 1 ==> inputAvailability == old(inputAvailability)[order[0] := 0]
        invariant x == 1 ==> outputAvailability == old(outputAvailability)[out := 0]
      {
        if outputAvailability[out] == 0 {
          break;
        }
        var inp := order[x];
        if inputAvailability[inp] == 0 {
          continue;
        }
        MatchElement(inp, out, q);
      }
    }

    /** Output `out` sorts the proposals it kept by length and accepts. */
    method AcceptOne(out: nat, kept: seq<int>, ghost accepts: seq<seq<int>>, ghost q: seq<seq<int>>)
      requires IsLengthGrid(q, numInputs, numOutputs) && |schedule| == |q| && Holds(Departed(q, schedule))
      requires out < numOutputs && Kept(q, accepts, cutoff, numInputs, numInputs, numOutputs)
      requires kept == accepts[out] != []
      requires AcceptedBelow(q, accepts, schedule, inputAvailability, outputAvailability, out, numInputs, numOutputs)
      modifies this, inputQueues
      ensures Shape() && |schedule| == |q| && Holds(Departed(q, schedule))
      ensures AcceptedBelow(q, accepts, schedule, inputAvailability, outputAvailability, out + 1, numInputs, numOutputs)
    {
      hide Represents, Winner;
      var key := Keys(out, Departed(q, schedule));
      var order := SortProposals(kept, key);
      OrderedHead(kept, order, key);
      KeysAgree(q, accepts, out, key, order[0]);
      BestAccepted(q, accepts, schedule, inputAvailability, outputAvailability, out, order[0], cutoff, numInputs,
          numOutputs);
      AcceptFirst(order, out, q);
    }

    /** The keys are the original lengths for every proposer, because none of them has been matched yet. */
    lemma KeysAgree(q: seq<seq<int>>, accepts: seq<seq<int>>, out: nat, key: seq<int>, best: nat)
      requires IsGrid(q, numInputs, numOutputs) && |schedule| == |q| && out < numOutputs
      requires Kept(q, accepts, cutoff, numInputs, numInputs, numOutputs)
      requires AcceptedBelow(q, accepts, schedule, inputAvailability, outputAvailability, out, numInputs, numOutputs)
      requires |key| == numInputs && forall i :: 0 <= i < numInputs ==> key[i] == Departed(q, schedule)[i][out]
      requires best in accepts[out] && best < numInputs
      requires forall x :: 0 <= x < |accepts[out]| ==> !Before(accepts[out][x], best, key)
      ensures Winner(q, accepts[out], best, out)
    {
      forall x | 0 <= x < |accepts[out]|
        ensures key[accepts[out][x]] == q[accepts[out][x]][out]
      {
        var i := accepts[out][x];
        assert IsLongest(q[i], out);
        assert schedule[i] == UNMATCHED;
      }
    }

    /** One round. */
    method Qps(ghost q: seq<seq<int>>)
      requires Holds(q) && Ready()
      modifies this, inputQueues
      ensures Shape() && IsGrid(q, numInputs, numOutputs) && RoundDone(q, cutoff, schedule, numInputs, numOutputs)
      ensures Holds(Departed(q, schedule))
    {
      hide Represents, Winner, RoundDone;
      var accepts := Propose(q);
      KeptProposalsAreKept(q, cutoff, numInputs, numInputs, numOutputs);
      GridsEqual(Departed(q, schedule), q);
      for out := 0 to numOutputs
        invariant |schedule| == |q| && Holds(Departed(q, schedule))
        invariant AcceptedBelow(q, accepts, schedule, inputAvailability, outputAvailability, out, numInputs, numOutputs)
      {
        if accepts[out] == [] {
          PassedOver(q, accepts, schedule, inputAvailability, outputAvailability, out, numInputs, numOutputs);
          continue;
        }
        AcceptOne(out, accepts[out], accepts, q);
      }
      AllAccepted(q, schedule, inputAvailability, outputAvailability, cutoff, numInputs, numOutputs);
    }

    /** The closing assertions: no queue is left. */
    method AllEmpty(ghost q: seq<seq<int>>) returns (empty: bool)
      requires Holds(q)
      ensures empty <==> forall i :: 0 <= i < numInputs ==> Zero(q[i])
    {
      hide Represents;
      empty := true;
      for i := 0 to numInputs
        invariant empty <==> forall x :: 0 <= x < i ==> Zero(q[x])
      {
        var none := inputQueues[i].IsEmpty(q[i]);
        empty := empty && none;
      }
    }

    /** Steps 1 and 2 and the size of the matching they found. */
    method Round(packets: int, ghost weights: seq<seq<int>>, ghost schedules: seq<seq<int>>, ghost rest: seq<seq<int>>)
      returns (size: int)
      requires Holds(rest) && Ready() && IsLengthGrid(weights, numInputs, numOutputs) && packets > 0
      requires InProgress(weights, cutoff, schedules, rest, packets, numInputs, numOutputs)
      modifies this, inputQueues
      ensures Shape() && |rest| == |schedule| && Holds(Departed(rest, schedule))
      ensures size <= 0 ==> !(cutoff != 0 && BigColumnsEmpty(weights, numInputs, numOutputs))
      ensures size > 0 ==>
        InProgress(weights, cutoff, schedules + [schedule], Departed(rest, schedule), packets - size, numInputs,
            numOutputs)
    {
      hide Represents, RoundDone, InProgress, Departed;
      Qps(rest);
      RoundAdvances(weights, cutoff, schedules, rest, packets, schedule, numInputs, numOutputs);
      size := MatchingSize(schedule);
    }

    /**
     Decomposes a matrix: rounds until the packet counter reaches zero. The assertion of a positive
     matching size fails exactly when there are packets but the cutoff is zero or some of them is
     destined to an output that `matching_size` does not count.
     */
    method Schedule(weights: seq<seq<int>>, ghost q: seq<seq<int>>) returns (r: Outcome)
      requires Holds(q) && IsLengthGrid(weights, numInputs, numOutputs)
      modifies this, inputQueues
      ensures r.Decomposed? <==>
        MatrixSum(weights) == 0 || (cutoff != 0 && BigColumnsEmpty(weights, numInputs, numOutputs))
      ensures r.Decomposed? ==>
        && |r.schedules| == r.rounds && Strips(weights, r.schedules, numInputs, numOutputs)
        && AllRoundsDone(weights, cutoff, r.schedules, numInputs, numOutputs)
        && MatrixSum(Remainder(weights, r.schedules, numInputs, numOutputs)) == 0
    {
      hide Represents, Strips, AllRoundsDone, InProgress, Departed;
      var round: nat, packets, schedules := 0, MatrixSum(weights), [];
      HandleArrivals(weights, q);
      ghost var rest := weights;
      NoRoundsYet(weights, cutoff, numInputs, numOutputs);
      while packets > 0
        invariant round == |schedules| && Ready() && Holds(rest)
        invariant InProgress(weights, cutoff, schedules, rest, packets, numInputs, numOutputs)
        decreases packets
      {
        InProgressBounds(weights, cutoff, schedules, rest, packets, numInputs, numOutputs);
        var size := Round(packets, weights, schedules, rest);
        if size <= 0 {
          return AssertionFailed;
        }
        packets := packets - size;
        round := round + 1;
        schedules, rest := schedules + [schedule], Departed(rest, schedule);
        Reset();
      }
      Finished(weights, cutoff, schedules, rest, packets, numInputs, numOutputs);
      var empty := AllEmpty(rest);
      if !empty {
        return AssertionFailed;
      }
      return Decomposed(round, schedules);
    }
  }

  /** A packet for an output beyond the inputs, at a cutoff that accepts: the condition fails. */
  lemma BigColumnFails()
    ensures IsLengthGrid([[0, 1]], 1, 2)
    ensures !(MatrixSum([[0, 1]]) == 0 || (1 != 0 && BigColumnsEmpty([[0, 1]], 1, 2)))
  {
    assert [[0, 1]][0][1] == 1;
    assert Sum([0, 1]) == 1 && MatrixSum([[0, 1]]) == 1;
  }

  /** So scheduling one packet from the only input to the second output runs into the assertion. */
  method ScheduleBigColumn() returns (r: Outcome)
    ensures r == AssertionFailed
  {
    var scheduler := new Scheduler(1, 2, 1);
    BigColumnFails();
    r := scheduler.Schedule([[0, 1]], Fill(1, Fill(2, 0)));
  }
}
