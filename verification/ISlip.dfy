/** The iSLIP scheduler: iterative request, grant and accept with round-robin pointers. */
module ISlip {
  import opened ISlipSpec
  import opened Matchings
  import opened RoundRobin
  import opened Sums
  import opened Tracking
  import opened Voq

  class Scheduler {
    const numInputs: nat
    const numOutputs: nat
    const iterations: nat
    var grantPointers: seq<int>
    var acceptPointer: seq<int>
    var queueStatus: seq<seq<bool>>
    var inMatch: seq<int>
    var outMatch: seq<int>

    ghost predicate Valid()
      reads this
    {
      && numInputs > 0 && numOutputs > 0
      && |inMatch| == numInputs && |outMatch| == numOutputs
      && State(inMatch, outMatch, grantPointers, acceptPointer).Valid()
      && IsGrid(queueStatus, numInputs, numOutputs)
    }

    /** The matching and the pointers as the specification sees them. */
    ghost function View(): State
      reads this
    {
      State(inMatch, outMatch, grantPointers, acceptPointer)
    }

    constructor (numInputs: nat, numOutputs: nat, iterations: nat, grantPointers: seq<int>, acceptPointer: seq<int>)
      requires numInputs > 0 && numOutputs > 0 && iterations > 0
      requires |grantPointers| == numOutputs && |acceptPointer| == numInputs
      requires forall o :: 0 <= o < numOutputs ==> grantPointers[o] >= 0
      requires forall i :: 0 <= i < numInputs ==> acceptPointer[i] >= 0
      ensures Valid() && View() == Unmatched(grantPointers, acceptPointer)
      ensures this.numInputs == numInputs && this.numOutputs == numOutputs && this.iterations == iterations
      ensures forall s, d :: 0 <= s < numInputs && 0 <= d < numOutputs ==> !queueStatus[s][d]
    {
      this.numInputs := numInputs;
      this.numOutputs := numOutputs;
      this.iterations := iterations;
      this.grantPointers := grantPointers;
      this.acceptPointer := acceptPointer;
      inMatch := Fill(numInputs, UNMATCHED);
      outMatch := Fill(numOutputs, UNMATCHED);
      queueStatus := Fill(numInputs, Fill(numOutputs, false));
    }

    method HandleArrivals(arrivals: seq<Pair>)
      requires Valid() && InRange(Live(arrivals), numInputs, numOutputs)
      modifies this`queueStatus
      ensures Valid() && queueStatus == Marked(old(queueStatus), Live(arrivals))
    {
      var k := 0;
      ghost var live := Live(arrivals);
      LiveAt(arrivals, 0);
      while k < |arrivals| && arrivals[k].0 != SENTINEL
        invariant 0 <= k <= |live|
        invariant IsGrid(queueStatus, numInputs, numOutputs)
        invariant queueStatus == Marked(old(queueStatus), live[..k])
      {
        LiveAt(arrivals, k);
        var (s, d) := arrivals[k];
        MarkedStep(old(queueStatus), live[..k], (s, d));
        queueStatus := SetAt(queueStatus, s, d, true);
        k := k + 1;
      }
      LiveAt(arrivals, k);
      assert live[..k] == live;
    }

    method HandleDepartures(lengths: seq<seq<int>>)
      requires Valid() && IsGrid(lengths, numInputs, numOutputs)
      modifies this`queueStatus
      ensures Valid() && queueStatus == Cleared(old(queueStatus), inMatch, lengths, numInputs)
    {
      for s := 0 to numInputs
        invariant IsGrid(queueStatus, numInputs, numOutputs)
        invariant queueStatus == Cleared(old(queueStatus), inMatch, lengths, s)
      {
        var d := inMatch[s];
        if d != UNMATCHED && lengths[s][d] == 1 {
          queueStatus := SetAt(queueStatus, s, d, false);
        }
      }
    }

    /** The input output `out` grants: the first requesting one in cyclic order from its pointer. */
    method Pick(out: nat) returns (choice: int)
      requires Valid() && out < numOutputs && outMatch[out] == UNMATCHED
      ensures choice == GrantOf(View(), queueStatus, out)
    {
      choice := UNMATCHED;
      var inputOffset := grantPointers[out];
      ghost var eligible := Requesting(View(), queueStatus, out);
      ghost var p := inputOffset % numInputs;
      var k := 0;
      while k < numInputs
        invariant 0 <= k <= numInputs && choice == UNMATCHED
        invariant FirstFrom(eligible, p, k) == FirstFrom(eligible, p, 0)
      {
        var input := (k + inputOffset) % numInputs;
        ScanIndex(k, inputOffset, numInputs);
        if inMatch[input] == UNMATCHED && queueStatus[input][out] {
          choice := input;
          break;
        }
        k := k + 1;
      }
    }

    /** The request and grant half of an iteration. */
    method Grant() returns (check: seq<int>)
      requires Valid()
      ensures check == Checks(View(), queueStatus)
    {
      check := Fill(numOutputs, UNMATCHED);
      for out := 0 to numOutputs
        invariant |check| == numOutputs && check[..out] == Grants(View(), queueStatus, out)
        invariant forall o :: out <= o < numOutputs ==> check[o] == UNMATCHED
      {
        if outMatch[out] == UNMATCHED {
          var choice := Pick(out);
          check := check[out := choice];
        }
        assert check[..out + 1] == check[..out] + [check[out]];
      }
      assert check[..numOutputs] == check;
    }

    /** The output input `inp` accepts: the first granting one in cyclic order from its pointer. */
    method Choose(check: seq<int>, inp: nat) returns (choice: int)
      requires numOutputs > 0 && |check| == numOutputs && inp < |acceptPointer| && acceptPointer[inp] >= 0
      ensures choice == FirstFrom(Granting(check, inp), acceptPointer[inp] % numOutputs, 0)
    {
      choice := UNMATCHED;
      var outputOffset := acceptPointer[inp];
      ghost var granting := Granting(check, inp);
      ghost var p := outputOffset % numOutputs;
      var k := 0;
      while k < numOutputs
        invariant 0 <= k <= numOutputs && choice == UNMATCHED
        invariant FirstFrom(granting, p, k) == FirstFrom(granting, p, 0)
      {
        var output := (k + outputOffset) % numOutputs;
        ScanIndex(k, outputOffset, numOutputs);
        if check[output] == inp {
          choice := output;
          break;
        }
        k := k + 1;
      }
    }

    /** The accept half of an iteration; `first` is true in iteration 0, when the pointers move. */
    method Accept(check: seq<int>, first: bool)
      requires Valid() && MatchesRequests(View(), queueStatus)
      requires check == Checks(View(), queueStatus)
      modifies this`inMatch, this`outMatch, this`grantPointers, this`acceptPointer
      ensures Valid() && View() == Iterate(old(View()), queueStatus, first)
      ensures IsIteration(old(View()), queueStatus, first, View())
      ensures MatchesRequests(View(), queueStatus)
    {
      hide IsIteration;
      ghost var s := View();
      ghost var acc := Accepts(s, check, numInputs);
      AcceptsAreProper(s, queueStatus);
      for inp := 0 to numInputs
        invariant View() == AcceptedBelow(s, acc, first, inp)
      {
        ghost var before := View();
        assert acc[inp] == AcceptOf(s, check, inp) by { AcceptAt(s, check, numInputs, inp); }
        assert inMatch[inp] == s.inMatch[inp] && acceptPointer[inp] == s.accept[inp] by {
          AcceptedAtOnce(s, check, acc, first, inp);
        }
        if inMatch[inp] != UNMATCHED {
          continue;
        }
        var output := Choose(check, inp);
        assert output == acc[inp];
        if output != UNMATCHED {
          assert inMatch[inp] == UNMATCHED && outMatch[output] == UNMATCHED by {
            AcceptedAtOnce(s, check, acc, first, inp);
          }
          inMatch := inMatch[inp := output];
          outMatch := outMatch[output := inp];
          if first {
            acceptPointer := acceptPointer[inp := Next(output, numOutputs)];
            grantPointers := grantPointers[output := Next(inp, numInputs)];
          }
          assert View() == AcceptStep(before, inp, output, first);
        }
      }
      IterateKeepsMatching(s, queueStatus, first);
      IterateIsIteration(s, queueStatus, first);
    }

    /** The iterations of one slot. */
    method MatchPorts()
      requires Valid() && MatchesRequests(View(), queueStatus)
      modifies this`inMatch, this`outMatch, this`grantPointers, this`acceptPointer
      ensures Valid() && View() == AfterIterations(old(View()), queueStatus, iterations)
    {
      for it := 0 to iterations
        invariant Valid() && View() == AfterIterations(old(View()), queueStatus, it)
      {
        var check := Grant();
        Accept(check, it == 0);
      }
    }

    /**
     One slot: mark the arrivals, match from scratch in `iterations` rounds, clear the queues that
     are about to empty. `lengths` is what the switch reports while the scheduler runs.
     */
    method Schedule(arrivals: seq<Pair>, lengths: seq<seq<int>>)
      requires Valid() && InRange(Live(arrivals), numInputs, numOutputs)
      requires IsGrid(lengths, numInputs, numOutputs)
      modifies this
      ensures Valid()
      ensures var status := Marked(old(queueStatus), Live(arrivals));
              && Unmatched(old(grantPointers), old(acceptPointer)).Valid()
              && View() == AfterIterations(Unmatched(old(grantPointers), old(acceptPointer)), status, iterations)
              && queueStatus == Cleared(status, inMatch, lengths, numInputs)
    {
      HandleArrivals(arrivals);
      inMatch := Fill(numInputs, UNMATCHED);
      outMatch := Fill(numOutputs, UNMATCHED);
      assert View() == Unmatched(old(grantPointers), old(acceptPointer));
      MatchPorts();
      HandleDepartures(lengths);
    }

    method Init(lengths: seq<seq<int>>)
      requires Valid() && IsGrid(lengths, numInputs, numOutputs)
      requires IsLengthGrid(lengths, numInputs, numOutputs)
      modifies this`queueStatus
      ensures Valid() && queueStatus == NonEmpty(lengths)
    {
      for s := 0 to numInputs
        invariant IsGrid(queueStatus, numInputs, numOutputs)
        invariant forall x, y :: 0 <= x < s && 0 <= y < numOutputs ==> queueStatus[x][y] == (lengths[x][y] > 0)
      {
        for d := 0 to numOutputs
          invariant IsGrid(queueStatus, numInputs, numOutputs)
          invariant forall x, y :: 0 <= x < s && 0 <= y < numOutputs ==> queueStatus[x][y] == (lengths[x][y] > 0)
          invariant forall y :: 0 <= y < d ==> queueStatus[s][y] == (lengths[s][y] > 0)
        {
          queueStatus := SetAt(queueStatus, s, d, lengths[s][d] != 0);
        }
      }
      GridsEqual(queueStatus, NonEmpty(lengths));
    }

    method Reset()
      requires Valid()
      modifies this`grantPointers, this`acceptPointer, this`queueStatus
      ensures Valid()
      ensures grantPointers == Fill(numOutputs, 0) && acceptPointer == Fill(numInputs, 0)
      ensures queueStatus == Fill(numInputs, Fill(numOutputs, false))
    {
      grantPointers := Fill(numOutputs, 0);
      acceptPointer := Fill(numInputs, 0);
      for s := 0 to numInputs
        invariant grantPointers == Fill(numOutputs, 0) && acceptPointer == Fill(numInputs, 0)
        invariant IsGrid(queueStatus, numInputs, numOutputs)
        invariant forall x, y :: 0 <= x < s && 0 <= y < numOutputs ==> !queueStatus[x][y]
      {
        for d := 0 to numOutputs
          invariant grantPointers == Fill(numOutputs, 0) && acceptPointer == Fill(numInputs, 0)
          invariant IsGrid(queueStatus, numInputs, numOutputs)
          invariant forall x, y :: 0 <= x < s && 0 <= y < numOutputs ==> !queueStatus[x][y]
          invariant forall y :: 0 <= y < d ==> !queueStatus[s][y]
        {
          queueStatus := SetAt(queueStatus, s, d, false);
        }
      }
      GridsEqual(queueStatus, Fill(numInputs, Fill(numOutputs, false)));
    }
  }
}
