/** The iPOC scheduler: each input proposes the longer of two random nonempty queues, and outputs prefer longer ones. */
module Ipoc {
  import opened Matchings
  import opened SerenaSpec
  import opened Sums
  import opened Tracking
  import opened Voq

  /** A list without duplicates of exactly the outputs that are set in a row. */
  ghost predicate Lists(list: seq<int>, row: seq<bool>) {
    && (forall x, y :: 0 <= x < y < |list| ==> list[x] != list[y])
    && (forall x :: 0 <= x < |list| ==> 0 <= list[x] < |row| && row[list[x]])
    && (forall d :: 0 <= d < |row| && row[d] ==> d in list)
  }

  ghost predicate ListsAll(lists: seq<seq<int>>, status: seq<seq<bool>>) {
    |lists| == |status| && forall s :: 0 <= s < |lists| ==> Lists(lists[s], status[s])
  }

  lemma ListAppend(list: seq<int>, row: seq<bool>, d: nat)
    requires Lists(list, row) && d < |row| && d !in list
    ensures Lists(list + [d], row[d := true])
  {
    assert (list + [d])[|list|] == d;
    forall e | 0 <= e < |row| && row[d := true][e]
      ensures e in list + [d]
    {
    }
  }

  lemma ListErase(list: seq<int>, row: seq<bool>, x: nat)
    requires Lists(list, row) && x < |list|
    ensures Lists(list[..x] + list[x + 1..], row[list[x] := false])
  {
    var r := list[..x] + list[x + 1..];
    forall d | 0 <= d < |row| && row[list[x] := false][d]
      ensures d in r
    {
      var y :| 0 <= y < |list| && list[y] == d;
      assert if y < x then r[y] == d else r[y - 1] == d;
    }
  }

  /** An arrival enters the lists unless it is there already. */
  lemma MarkOne(lists: seq<seq<int>>, status: seq<seq<bool>>, s: nat, d: nat, inputs: nat, outputs: nat)
    requires IsGrid(status, inputs, outputs) && ListsAll(lists, status) && s < inputs && d < outputs
    ensures ListsAll(if d in lists[s] then lists else lists[s := lists[s] + [d]], MarkedOne(status, (s, d)))
  {
    assert MarkedOne(status, (s, d)) == status[s := status[s][d := true]];
    if d in lists[s] {
      assert status[s][d := true] == status[s];
    } else {
      ListAppend(lists[s], status[s], d);
    }
  }

  lemma ListedAt(lists: seq<seq<int>>, status: seq<seq<bool>>, s: nat, d: nat, inputs: nat, outputs: nat)
    requires IsGrid(status, inputs, outputs) && ListsAll(lists, status) && s < inputs && d < outputs && status[s][d]
    ensures d in lists[s]
  {
  }

  /** A queue that becomes empty leaves its list. */
  lemma ClearOne(lists: seq<seq<int>>, status: seq<seq<bool>>, s: nat, x: nat, inputs: nat, outputs: nat)
    requires IsGrid(status, inputs, outputs) && ListsAll(lists, status) && s < inputs && x < |lists[s]|
    ensures 0 <= lists[s][x] < outputs
    ensures ListsAll(lists[s := lists[s][..x] + lists[s][x + 1..]], SetAt(status, s, lists[s][x], false))
  {
    ListErase(lists[s], status[s], x);
  }

  /** `std::find`: where a value is first, or the length. */
  method Find(list: seq<int>, v: int) returns (it: nat)
    ensures it <= |list| && (it < |list| ==> list[it] == v) && (it == |list| <==> v !in list)
  {
    it := 0;
    while it < |list|
      invariant it <= |list| && forall x :: 0 <= x < it ==> list[x] != v
    {
      if list[it] == v {
        return;
      }
      it := it + 1;
    }
  }

  // Proposals

  /** The longer of the two sampled queues of an input, the second if they are equal; none without packets. */
  function Proposal(list: seq<int>, lengths: seq<int>, first: nat, second: nat): (r: int)
    requires forall x :: 0 <= x < |list| ==> 0 <= list[x] < |lengths|
    ensures r == UNMATCHED <==> list == []
    ensures r != UNMATCHED ==> r in list
  {
    if list == [] then UNMATCHED
    else
      var x, y := list[first % |list|], list[second % |list|];
      if lengths[x] > lengths[y] then x else y
  }

  /** `p` is one of the two sampled queues and as long as both; of two equally long ones it is the second. */
  ghost predicate IsProposal(p: int, list: seq<int>, lengths: seq<int>, first: nat, second: nat)
    requires forall x :: 0 <= x < |list| ==> 0 <= list[x] < |lengths|
  {
    if list == [] then p == UNMATCHED
    else
      var x, y := list[first % |list|], list[second % |list|];
      && (p == x || p == y) && lengths[x] <= lengths[p] && lengths[y] <= lengths[p]
      && (lengths[x] == lengths[y] ==> p == y)
  }

  lemma ProposalIsLonger(list: seq<int>, lengths: seq<int>, first: nat, second: nat, p: int)
    requires forall x :: 0 <= x < |list| ==> 0 <= list[x] < |lengths|
    ensures IsProposal(p, list, lengths, first, second) <==> p == Proposal(list, lengths, first, second)
  {
  }

  /** The proposals of all inputs. */
  ghost predicate AreProposals(proposals: seq<int>, lengths: seq<seq<int>>, inputs: nat, outputs: nat)
    requires IsGrid(lengths, inputs, outputs)
  {
    |proposals| == inputs && forall s :: 0 <= s < inputs ==>
      proposals[s] == UNMATCHED || (0 <= proposals[s] < outputs && lengths[s][proposals[s]] > 0)
  }

  /** What an input with this list and these lengths proposes: nothing exactly if it has no packets. */
  ghost predicate IsChosen(p: int, list: seq<int>, lengths: seq<int>, first: nat, second: nat) {
    && (forall x :: 0 <= x < |list| ==> 0 <= list[x] < |lengths|) && IsProposal(p, list, lengths, first, second)
    && (p == UNMATCHED <==> forall d :: 0 <= d < |lengths| ==> lengths[d] == 0)
    && (p == UNMATCHED || (0 <= p < |lengths| && lengths[p] > 0))
  }

  /** The proposals of the first `k` inputs. */
  lemma {:induction false} ChooseProposals(lists: seq<seq<int>>, lengths: seq<seq<int>>, first: seq<nat>,
      second: seq<nat>, k: nat, inputs: nat, outputs: nat)
    returns (proposals: seq<int>)
    requires IsLengthGrid(lengths, inputs, outputs) && ListsAll(lists, NonEmpty(lengths))
    requires |first| == |second| == inputs && k <= inputs
    ensures |proposals| == k
    ensures forall s :: 0 <= s < k ==> IsChosen(proposals[s], lists[s], lengths[s], first[s], second[s])
  {
    if k == 0 {
      return [];
    }
    hide IsChosen;
    var rest := ChooseProposals(lists, lengths, first, second, k - 1, inputs, outputs);
    var p := ChooseProposal(lists[k - 1], lengths[k - 1], first[k - 1], second[k - 1], NonEmpty(lengths)[k - 1]);
    proposals := rest + [p];
  }

  lemma ChooseProposal(list: seq<int>, lengths: seq<int>, first: nat, second: nat, row: seq<bool>) returns (p: int)
    requires |row| == |lengths| && NonNegative(lengths) && Lists(list, row)
    requires forall d :: 0 <= d < |row| ==> row[d] == (lengths[d] > 0)
    ensures IsChosen(p, list, lengths, first, second)
  {
    p := Proposal(list, lengths, first, second);
    ProposalIsLonger(list, lengths, first, second, p);
    if list != [] {
      var x :| 0 <= x < |list| && list[x] == p;
      assert row[p];
    }
  }

  /** Computing the proposal gives the chosen one. */
  lemma ChosenIs(p: int, list: seq<int>, lengths: seq<int>, first: nat, second: nat)
    requires IsChosen(p, list, lengths, first, second)
    ensures forall x :: 0 <= x < |list| ==> 0 <= list[x] < |lengths|
    ensures p == Proposal(list, lengths, first, second) && (p == UNMATCHED <==> list == [])
  {
    ProposalIsLonger(list, lengths, first, second, p);
  }

  /**
   After the first `k` inputs of the order every output is matched to the first of its longest proposers
   so far, and an input is matched to the output it proposed to or not at all.
   */
  ghost predicate LongestWins(order: seq<int>, k: nat, proposals: seq<int>, lengths: seq<seq<int>>, inMatch: seq<int>,
      outMatch: seq<int>, inputs: nat, outputs: nat)
    requires IsGrid(lengths, inputs, outputs) && AreProposals(proposals, lengths, inputs, outputs)
    requires IsFull(order) && |order| == inputs && k <= inputs
  {
    && |inMatch| == inputs && |outMatch| == outputs && IsMatching(inMatch, outMatch)
    && (forall s :: 0 <= s < inputs && inMatch[s] != UNMATCHED ==> inMatch[s] == proposals[s] && s in order[..k])
    && (forall x :: 0 <= x < k && proposals[order[x]] != UNMATCHED ==>
        Beaten(order, x, proposals, lengths, outMatch, inputs, outputs))
    && (forall o, x :: 0 <= o < outputs && 0 <= x < k && outMatch[o] == order[x] ==>
        FirstOfLongest(order, x, o, proposals, lengths))
  }

  /** The output that the `x`-th input proposed to is matched to an input with a queue at least as long. */
  ghost predicate Beaten(order: seq<int>, x: nat, proposals: seq<int>, lengths: seq<seq<int>>, outMatch: seq<int>,
      inputs: nat, outputs: nat)
    requires IsGrid(lengths, inputs, outputs) && |outMatch| == outputs && x < |order| && |proposals| == inputs
    requires 0 <= order[x] < inputs && 0 <= proposals[order[x]] < outputs
  {
    var s := order[x];
    var winner := outMatch[proposals[s]];
    0 <= winner < inputs && lengths[winner][proposals[s]] >= lengths[s][proposals[s]]
  }

  /** Every proposer before the `x`-th input has a shorter queue for the output. */
  ghost predicate FirstOfLongest(order: seq<int>, x: nat, o: int, proposals: seq<int>, lengths: seq<seq<int>>)
    requires x < |order| && |proposals| == |lengths| && forall y :: 0 <= y <= x ==> 0 <= order[y] < |proposals|
    requires 0 <= o && forall s :: 0 <= s < |lengths| ==> o < |lengths[s]|
  {
    forall y :: 0 <= y < x && proposals[order[y]] == o ==> lengths[order[y]][o] < lengths[order[x]][o]
  }

  /** Whether the proposal of the next input is accepted. */
  predicate Wins(s: nat, o: nat, lengths: seq<seq<int>>, outMatch: seq<int>)
    requires s < |lengths| && o < |lengths[s]| && o < |outMatch|
    requires outMatch[o] == UNMATCHED || (0 <= outMatch[o] < |lengths| && o < |lengths[outMatch[o]]|)
  {
    outMatch[o] == UNMATCHED || lengths[s][o] > lengths[outMatch[o]][o]
  }

  /** The inputs' side of the matching after the displaced input, if any, is marked as unmatched. */
  function Displaced(inMatch: seq<int>, s: nat, o: nat, loser: int): (r: seq<int>)
    requires s < |inMatch| && (loser == UNMATCHED || 0 <= loser < |inMatch|)
    ensures |r| == |inMatch|
    ensures forall i :: 0 <= i < |r| ==> r[i] == if i == s then o else if i == loser then UNMATCHED else inMatch[i]
  {
    (if loser != UNMATCHED then inMatch[loser := UNMATCHED] else inMatch)[s := o]
  }

  lemma NextIsNew(order: seq<int>, k: nat)
    requires IsFull(order) && k < |order|
    ensures order[k] !in order[..k] && order[..k + 1] == order[..k] + [order[k]]
  {
  }

  lemma StaysBeaten(order: seq<int>, x: nat, proposals: seq<int>, lengths: seq<seq<int>>, outMatch: seq<int>, s: nat,
      o: nat, inputs: nat, outputs: nat)
    requires IsGrid(lengths, inputs, outputs) && |outMatch| == outputs && x < |order| && |proposals| == inputs
    requires 0 <= order[x] < inputs && 0 <= proposals[order[x]] < outputs && s < inputs && o < outputs
    requires outMatch[o] == UNMATCHED || 0 <= outMatch[o] < inputs
    requires Wins(s, o, lengths, outMatch) && Beaten(order, x, proposals, lengths, outMatch, inputs, outputs)
    ensures Beaten(order, x, proposals, lengths, outMatch[o := s], inputs, outputs)
  {
  }

  /** A winner beats everybody who came before. */
  lemma WinnerIsFirst(order: seq<int>, k: nat, o: nat, proposals: seq<int>, lengths: seq<seq<int>>, outMatch: seq<int>,
      inputs: nat, outputs: nat)
    requires IsGrid(lengths, inputs, outputs) && |outMatch| == outputs && |proposals| == inputs == |order|
    requires k < inputs && o < outputs
    requires forall x :: 0 <= x < inputs ==> 0 <= order[x] < inputs
    requires forall x :: 0 <= x < inputs ==> proposals[x] == UNMATCHED || 0 <= proposals[x] < outputs
    requires outMatch[o] == UNMATCHED || 0 <= outMatch[o] < inputs
    requires forall x :: 0 <= x < k && proposals[order[x]] != UNMATCHED ==>
      Beaten(order, x, proposals, lengths, outMatch, inputs, outputs)
    requires Wins(order[k], o, lengths, outMatch)
    ensures FirstOfLongest(order, k, o, proposals, lengths)
    ensures proposals[order[k]] == o ==> Beaten(order, k, proposals, lengths, outMatch[o := order[k]], inputs, outputs)
  {
    forall y | 0 <= y < k && proposals[order[y]] == o
      ensures lengths[order[y]][o] < lengths[order[k]][o]
    {
      assert Beaten(order, y, proposals, lengths, outMatch, inputs, outputs);
    }
  }

  /** An input that wins displaces the shorter one. */
  lemma WinStep(order: seq<int>, k: nat, proposals: seq<int>, lengths: seq<seq<int>>, inMatch: seq<int>,
      outMatch: seq<int>, inputs: nat, outputs: nat)
    requires IsGrid(lengths, inputs, outputs) && AreProposals(proposals, lengths, inputs, outputs)
    requires IsFull(order) && |order| == inputs && k < inputs
    requires LongestWins(order, k, proposals, lengths, inMatch, outMatch, inputs, outputs)
    requires var o := proposals[order[k]]; o != UNMATCHED && Wins(order[k], o, lengths, outMatch)
    ensures var o := proposals[order[k]];
            LongestWins(order, k + 1, proposals, lengths, Displaced(inMatch, order[k], o, outMatch[o]),
                outMatch[o := order[k]], inputs, outputs)
  {
    hide Beaten, FirstOfLongest;
    var s, o := order[k], proposals[order[k]];
    var inMatch', outMatch' := Displaced(inMatch, s, o, outMatch[o]), outMatch[o := s];
    NextIsNew(order, k);
    assert inMatch[s] == UNMATCHED;
    assert IsMatching(inMatch', outMatch');
    WinnerIsFirst(order, k, o, proposals, lengths, outMatch, inputs, outputs);
    forall x | 0 <= x < k && proposals[order[x]] != UNMATCHED
      ensures Beaten(order, x, proposals, lengths, outMatch', inputs, outputs)
    {
      StaysBeaten(order, x, proposals, lengths, outMatch, s, o, inputs, outputs);
    }
    forall e, x | 0 <= e < outputs && 0 <= x < k + 1 && outMatch'[e] == order[x]
      ensures FirstOfLongest(order, x, e, proposals, lengths)
    {
      if e == o {
        assert x == k;
      } else {
        assert x < k;
      }
    }
  }

  /** An input without proposal, or whose proposal is no longer than the one accepted, changes nothing. */
  lemma LoseStep(order: seq<int>, k: nat, proposals: seq<int>, lengths: seq<seq<int>>, inMatch: seq<int>,
      outMatch: seq<int>, inputs: nat, outputs: nat)
    requires IsGrid(lengths, inputs, outputs) && AreProposals(proposals, lengths, inputs, outputs)
    requires IsFull(order) && |order| == inputs && k < inputs
    requires LongestWins(order, k, proposals, lengths, inMatch, outMatch, inputs, outputs)
    requires var o := proposals[order[k]]; o != UNMATCHED ==> !Wins(order[k], o, lengths, outMatch)
    ensures LongestWins(order, k + 1, proposals, lengths, inMatch, outMatch, inputs, outputs)
  {
    NextIsNew(order, k);
    forall e, x | 0 <= e < outputs && 0 <= x < k + 1 && outMatch[e] == order[x]
      ensures FirstOfLongest(order, x, e, proposals, lengths)
    {
      assert inMatch[order[x]] == e;
      if x == k {
        assert false;
      }
    }
    forall x | 0 <= x < k + 1 && proposals[order[x]] != UNMATCHED
      ensures Beaten(order, x, proposals, lengths, outMatch, inputs, outputs)
    {
      if x < k {
        assert Beaten(order, x, proposals, lengths, outMatch, inputs, outputs);
      }
    }
  }

  lemma NobodyYet(order: seq<int>, proposals: seq<int>, lengths: seq<seq<int>>, inputs: nat, outputs: nat)
    requires IsGrid(lengths, inputs, outputs) && AreProposals(proposals, lengths, inputs, outputs)
    requires IsFull(order) && |order| == inputs
    ensures LongestWins(order, 0, proposals, lengths, Fill(inputs, UNMATCHED), Fill(outputs, UNMATCHED), inputs,
                        outputs)
  {
  }

  lemma WinnersInRange(order: seq<int>, k: nat, proposals: seq<int>, lengths: seq<seq<int>>, inMatch: seq<int>,
      outMatch: seq<int>, inputs: nat, outputs: nat)
    requires IsGrid(lengths, inputs, outputs) && AreProposals(proposals, lengths, inputs, outputs)
    requires IsFull(order) && |order| == inputs && k <= inputs
    requires LongestWins(order, k, proposals, lengths, inMatch, outMatch, inputs, outputs)
    ensures |inMatch| == inputs && |outMatch| == outputs
    ensures forall o :: 0 <= o < outputs ==> outMatch[o] == UNMATCHED || 0 <= outMatch[o] < inputs
  {
  }

  class Scheduler {
    const numInputs: nat
    const numOutputs: nat
    var nonEmptyVoqs: seq<seq<int>>
    var inMatch: seq<int>
    var outMatch: seq<int>

    constructor (numInputs: nat, numOutputs: nat)
      ensures this.numInputs == numInputs && this.numOutputs == numOutputs
      ensures nonEmptyVoqs == Fill(numInputs, []) && inMatch == Fill(numInputs, UNMATCHED)
      ensures outMatch == Fill(numOutputs, UNMATCHED)
    {
      this.numInputs, this.numOutputs := numInputs, numOutputs;
      nonEmptyVoqs := Fill(numInputs, []);
      inMatch, outMatch := Fill(numInputs, UNMATCHED), Fill(numOutputs, UNMATCHED);
    }

    /** Forgets all queues. */
    method Reset()
      requires |nonEmptyVoqs| == numInputs
      modifies this`nonEmptyVoqs
      ensures nonEmptyVoqs == Fill(numInputs, [])
    {
      nonEmptyVoqs := Fill(numInputs, []);
    }

    /** Starts from the nonempty queues of a switch. */
    method Init(lengths: seq<seq<int>>)
      requires nonEmptyVoqs == Fill(numInputs, []) && IsGrid(lengths, numInputs, numOutputs)
      modifies this`nonEmptyVoqs
      ensures ListsAll(nonEmptyVoqs, NonEmpty(lengths))
    {
      for s := 0 to numInputs
        invariant |nonEmptyVoqs| == numInputs
        invariant forall x :: 0 <= x < s ==> Lists(nonEmptyVoqs[x], NonEmpty(lengths)[x])
        invariant forall x :: s <= x < numInputs ==> nonEmptyVoqs[x] == []
      {
        var list := NonEmptyOf(lengths[s]);
        nonEmptyVoqs := nonEmptyVoqs[s := list];
      }
    }

    /** The nonempty queues of one input, in order. */
    static method NonEmptyOf(lengths: seq<int>) returns (list: seq<int>)
      ensures forall row: seq<bool> :: |row| == |lengths| && (forall d :: 0 <= d < |row| ==>
        row[d] == (lengths[d] > 0)) ==> Lists(list, row)
    {
      list := [];
      for d := 0 to |lengths|
        invariant forall x, y :: 0 <= x < y < |list| ==> list[x] != list[y]
        invariant forall x :: 0 <= x < |list| ==> 0 <= list[x] < d && lengths[list[x]] > 0
        invariant forall e :: 0 <= e < d && lengths[e] > 0 ==> e in list
      {
        if lengths[d] > 0 {
          ghost var was := list;
          list := list + [d];
          assert list[|was|] == d;
        }
      }
    }

    /** Arrivals enter the lists unless they are there already. */
    method HandleArrivals(arrivals: seq<Pair>, ghost status: seq<seq<bool>>)
      requires IsGrid(status, numInputs, numOutputs) && ListsAll(nonEmptyVoqs, status)
      requires InRange(Live(arrivals), numInputs, numOutputs)
      modifies this`nonEmptyVoqs
      ensures ListsAll(nonEmptyVoqs, Marked(status, Live(arrivals)))
    {
      hide Lists, MarkedOne;
      ghost var live := Live(arrivals);
      LiveAt(arrivals, 0);
      var k := 0;
      while k < |arrivals|
        invariant k <= |live| && ListsAll(nonEmptyVoqs, Marked(status, live[..k]))
        invariant k <= |arrivals|
        decreases |arrivals| - k
      {
        LiveAt(arrivals, k);
        if arrivals[k].0 == SENTINEL {
          break;
        }
        MarkedStep(status, live[..k], live[k]);
        var s, d := arrivals[k].0, arrivals[k].1;
        MarkOne(nonEmptyVoqs, Marked(status, live[..k]), s, d, numInputs, numOutputs);
        var it := Find(nonEmptyVoqs[s], d);
        if it == |nonEmptyVoqs[s]| {
          nonEmptyVoqs := nonEmptyVoqs[s := nonEmptyVoqs[s] + [d]];
        }
        k := k + 1;
      }
      LiveAt(arrivals, k);
      assert live[..k] == live;
    }

    /** Inputs propose in the given order; a longer queue displaces a shorter one. */
    method Match(order: seq<int>, first: seq<nat>, second: seq<nat>, lengths: seq<seq<int>>, ghost proposals: seq<int>)
      requires IsGrid(lengths, numInputs, numOutputs) && ListsAll(nonEmptyVoqs, NonEmpty(lengths))
      requires IsFull(order) && |order| == |first| == |second| == numInputs && |proposals| == numInputs
      requires forall s :: 0 <= s < numInputs ==>
        IsChosen(proposals[s], nonEmptyVoqs[s], lengths[s], first[s], second[s])
      requires AreProposals(proposals, lengths, numInputs, numOutputs)
      modifies this`inMatch, this`outMatch
      ensures LongestWins(order, numInputs, proposals, lengths, inMatch, outMatch, numInputs, numOutputs)
    {
      inMatch, outMatch := Fill(numInputs, UNMATCHED), Fill(numOutputs, UNMATCHED);
      NobodyYet(order, proposals, lengths, numInputs, numOutputs);
      hide LongestWins, IsChosen, Proposal, Lists;
      for k := 0 to numInputs
        invariant LongestWins(order, k, proposals, lengths, inMatch, outMatch, numInputs, numOutputs)
      {
        WinnersInRange(order, k, proposals, lengths, inMatch, outMatch, numInputs, numOutputs);
        var inp := order[k];
        ChosenIs(proposals[inp], nonEmptyVoqs[inp], lengths[inp], first[inp], second[inp]);
        if nonEmptyVoqs[inp] == [] {
          LoseStep(order, k, proposals, lengths, inMatch, outMatch, numInputs, numOutputs);
          continue;
        }
        var o := Proposal(nonEmptyVoqs[inp], lengths[inp], first[inp], second[inp]);
        if Wins(inp, o, lengths, outMatch) {
          WinStep(order, k, proposals, lengths, inMatch, outMatch, numInputs, numOutputs);
          inMatch := Displaced(inMatch, inp, o, outMatch[o]);
          outMatch := outMatch[o := inp];
        } else {
          LoseStep(order, k, proposals, lengths, inMatch, outMatch, numInputs, numOutputs);
        }
      }
    }

    /** A listed queue leaves its list. */
    method Drop(s: nat, d: nat, ghost status: seq<seq<bool>>)
      requires IsGrid(status, numInputs, numOutputs) && ListsAll(nonEmptyVoqs, status)
      requires s < numInputs && d < numOutputs && status[s][d]
      modifies this`nonEmptyVoqs
      ensures ListsAll(nonEmptyVoqs, SetAt(status, s, d, false))
    {
      hide Lists;
      ListedAt(nonEmptyVoqs, status, s, d, numInputs, numOutputs);
      var it := Find(nonEmptyVoqs[s], d);
      ClearOne(nonEmptyVoqs, status, s, it, numInputs, numOutputs);
      nonEmptyVoqs := nonEmptyVoqs[s := nonEmptyVoqs[s][..it] + nonEmptyVoqs[s][it + 1..]];
    }

    /** Matched queues that are about to become empty leave the lists. */
    method HandleDepartures(lengths: seq<seq<int>>)
      requires IsGrid(lengths, numInputs, numOutputs) && ListsAll(nonEmptyVoqs, NonEmpty(lengths))
      requires IsMatchVector(inMatch, numInputs, numOutputs)
      modifies this`nonEmptyVoqs
      ensures ListsAll(nonEmptyVoqs, Cleared(NonEmpty(lengths), inMatch, lengths, numInputs))
    {
      hide Lists, ListsAll;
      for s := 0 to numInputs
        invariant ListsAll(nonEmptyVoqs, Cleared(NonEmpty(lengths), inMatch, lengths, s))
        invariant forall x :: s <= x < numInputs ==>
          Cleared(NonEmpty(lengths), inMatch, lengths, s)[x] == NonEmpty(lengths)[x]
      {
        ghost var status := Cleared(NonEmpty(lengths), inMatch, lengths, s);
        var d := inMatch[s];
        if d != UNMATCHED && lengths[s][d] == 1 {
          Drop(s, d, status);
        }
      }
    }

    /**
     One slot: arrivals, a matching on nonempty queues in which every proposal is beaten by one at least
     as long, and departures. The lists hold the nonempty queues again when the switch has made the departures.
     */
    method Schedule(arrivals: seq<Pair>, lengths: seq<seq<int>>, order: seq<int>, first: seq<nat>, second: seq<nat>,
        ghost before: seq<seq<int>>)
      returns (ghost lists: seq<seq<int>>, ghost proposals: seq<int>)
      requires IsLengthGrid(before, numInputs, numOutputs) && ListsAll(nonEmptyVoqs, NonEmpty(before))
      requires InRange(Live(arrivals), numInputs, numOutputs) && lengths == Enqueued(before, Live(arrivals))
      requires IsFull(order) && |order| == |first| == |second| == numInputs
      modifies this
      ensures IsGrid(lengths, numInputs, numOutputs) && AreProposals(proposals, lengths, numInputs, numOutputs)
      ensures ListsAll(lists, NonEmpty(lengths))
      ensures forall s :: 0 <= s < numInputs ==>
        IsChosen(proposals[s], lists[s], lengths[s], first[s], second[s])
      ensures LongestWins(order, numInputs, proposals, lengths, inMatch, outMatch, numInputs, numOutputs)
      ensures ListsAll(nonEmptyVoqs, NonEmpty(Departed(lengths, inMatch)))
    {
      SlotKeepsLengths(before, Live(arrivals), Fill(numInputs, UNMATCHED), numInputs, numOutputs);
      HandleArrivals(arrivals, NonEmpty(before));
      MarkedTracks(before, Live(arrivals), numInputs, numOutputs);
      lists := nonEmptyVoqs;
      proposals := ChooseProposals(lists, lengths, first, second, numInputs, numInputs, numOutputs);
      Match(order, first, second, lengths, proposals);
      HandleDepartures(lengths);
      ClearedTracks(lengths, inMatch, numInputs, numOutputs);
    }
  }
}
