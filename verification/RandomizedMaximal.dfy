/** The randomized maximal scheduler: an indexed edge set with swap-remove, and a greedy pass over a shuffle. */
module RandomizedMaximal {
  import opened Matchings
  import opened Sums
  import opened Tracking
  import opened Voq

  /** A shuffle rearranges a list in any way. */
  ghost predicate Shuffles(shuffle: seq<Pair> -> seq<Pair>) {
    forall es: seq<Pair> :: multiset(shuffle(es)) == multiset(es)
  }

  /** A permutation of a list has the same members. */
  lemma SameMembers(a: seq<Pair>, b: seq<Pair>)
    requires multiset(a) == multiset(b)
    ensures forall p: Pair :: p in a <==> p in b
    ensures |a| == |b|
  {
    forall p: Pair
      ensures p in a <==> p in b
    {
      assert p in a <==> p in multiset(a);
      assert p in b <==> p in multiset(b);
    }
    assert |a| == |multiset(a)| && |b| == |multiset(b)|;
  }

  /** The dense prefix of the edge list and the index matrix are inverse to each other. */
  ghost predicate Inverse(edges: seq<Pair>, edgeNum: int, index: seq<seq<int>>, inputs: nat, outputs: nat) {
    && 0 <= edgeNum <= |edges|
    && IsGrid(index, inputs, outputs)
    && (forall k :: 0 <= k < edgeNum ==>
          0 <= edges[k].0 < inputs && 0 <= edges[k].1 < outputs && index[edges[k].0][edges[k].1] == k)
    && (forall s, d :: 0 <= s < inputs && 0 <= d < outputs && index[s][d] != -1 ==>
          0 <= index[s][d] < edgeNum && edges[index[s][d]] == (s, d))
  }

  /** Which edges are in the set. */
  function Present(index: seq<seq<int>>): (r: seq<seq<bool>>)
    ensures |r| == |index| && forall s :: 0 <= s < |r| ==> |r[s]| == |index[s]|
    ensures forall s, d :: 0 <= s < |r| && 0 <= d < |r[s]| ==> r[s][d] == (index[s][d] != -1)
  {
    seq(|index|, s requires 0 <= s < |index| =>
      seq(|index[s]|, d requires 0 <= d < |index[s]| => index[s][d] != -1))
  }

  /** Changing whether one edge has an index changes its presence only. */
  lemma PresentSet(index: seq<seq<int>>, s: nat, d: nat, v: int)
    requires s < |index| && d < |index[s]|
    ensures Present(SetAt(index, s, d, v)) == SetAt(Present(index), s, d, v != -1)
  {
    GridsEqual(Present(SetAt(index, s, d, v)), SetAt(Present(index), s, d, v != -1));
  }

  /** Setting an entry to what it is changes nothing. */
  lemma SetSame<T>(m: seq<seq<T>>, s: nat, d: nat)
    requires s < |m| && d < |m[s]|
    ensures SetAt(m, s, d, m[s][d]) == m
  {
    GridsEqual(SetAt(m, s, d, m[s][d]), m);
  }

  /** Filling the hole at `i` with the last edge keeps list and index inverse. */
  lemma SwapRemove(edges: seq<Pair>, edgeNum: int, index: seq<seq<int>>, i: nat, last: Pair, gone: Pair, inputs: nat,
      outputs: nat)
    requires Inverse(edges, edgeNum, index, inputs, outputs) && i < edgeNum - 1
    requires last == edges[edgeNum - 1] && gone == edges[i]
    ensures Inverse(edges[i := last], edgeNum - 1, SetAt(SetAt(index, last.0, last.1, i), gone.0, gone.1, -1),
                    inputs, outputs)
  {
    var edges', index' := edges[i := last], SetAt(SetAt(index, last.0, last.1, i), gone.0, gone.1, -1);
    forall k | 0 <= k < edgeNum - 1
      ensures 0 <= edges'[k].0 < inputs && 0 <= edges'[k].1 < outputs && index'[edges'[k].0][edges'[k].1] == k
    {
      assert edges[k] != gone || k == i;
    }
    forall s, d | 0 <= s < inputs && 0 <= d < outputs && index'[s][d] != -1
      ensures 0 <= index'[s][d] < edgeNum - 1 && edges'[index'[s][d]] == (s, d)
    {
      assert index[s][d] != -1;
    }
  }

  /** ... and removes that one edge from the set. */
  lemma SwapRemovePresent(index: seq<seq<int>>, i: nat, last: Pair, gone: Pair, inputs: nat, outputs: nat)
    requires IsGrid(index, inputs, outputs)
    requires 0 <= last.0 < inputs && 0 <= last.1 < outputs && index[last.0][last.1] != -1
    requires 0 <= gone.0 < inputs && 0 <= gone.1 < outputs
    ensures Present(SetAt(SetAt(index, last.0, last.1, i), gone.0, gone.1, -1))
            == SetAt(Present(index), gone.0, gone.1, false)
  {
    PresentSet(index, last.0, last.1, i);
    SetSame(Present(index), last.0, last.1);
    PresentSet(SetAt(index, last.0, last.1, i), gone.0, gone.1, -1);
  }

  /** Dropping the last edge does too. */
  lemma RemoveLast(edges: seq<Pair>, edgeNum: int, index: seq<seq<int>>, gone: Pair, inputs: nat, outputs: nat)
    requires Inverse(edges, edgeNum, index, inputs, outputs) && edgeNum > 0 && gone == edges[edgeNum - 1]
    ensures Inverse(edges, edgeNum - 1, SetAt(index, gone.0, gone.1, -1), inputs, outputs)
    ensures Present(SetAt(index, gone.0, gone.1, -1)) == SetAt(Present(index), gone.0, gone.1, false)
  {
    PresentSet(index, gone.0, gone.1, -1);
  }

  /** A new edge goes to the end. */
  lemma AddLast(edges: seq<Pair>, edgeNum: int, index: seq<seq<int>>, s: nat, d: nat, inputs: nat, outputs: nat)
    requires Inverse(edges, edgeNum, index, inputs, outputs) && s < inputs && d < outputs && index[s][d] == -1
    ensures Inverse(if edgeNum == |edges| then edges + [(s, d)] else edges[edgeNum := (s, d)],
                    edgeNum + 1, SetAt(index, s, d, edgeNum), inputs, outputs)
    ensures Present(SetAt(index, s, d, edgeNum)) == SetAt(Present(index), s, d, true)
  {
    PresentSet(index, s, d, edgeNum);
  }

  /** The matching so far: valid, of the given size, on listed edges, and blocking every edge seen. */
  ghost predicate GreedyMatching(order: seq<Pair>, k: nat, inMatch: seq<int>, outMatch: seq<int>, size: nat)
    requires InRange(order, |inMatch|, |outMatch|) && k <= |order|
  {
    && IsMatching(inMatch, outMatch) && Size(inMatch) == size
    && (forall x :: 0 <= x < k ==> inMatch[order[x].0] != UNMATCHED || outMatch[order[x].1] != UNMATCHED)
    && (forall i :: 0 <= i < |inMatch| && inMatch[i] != UNMATCHED ==> (i, inMatch[i]) in order)
  }

  lemma GreedyTakes(order: seq<Pair>, k: nat, inMatch: seq<int>, outMatch: seq<int>, size: nat)
    requires InRange(order, |inMatch|, |outMatch|) && k < |order|
    requires GreedyMatching(order, k, inMatch, outMatch, size)
    requires inMatch[order[k].0] == UNMATCHED && outMatch[order[k].1] == UNMATCHED
    ensures GreedyMatching(order, k + 1, inMatch[order[k].0 := order[k].1], outMatch[order[k].1 := order[k].0],
                           size + 1)
  {
    var (s, d) := order[k];
    SizeUpdate(inMatch, s, d);
  }

  /** A full-size matching blocks every edge, so the pass may stop early. */
  lemma FullSizeBlocks(order: seq<Pair>, k: nat, inMatch: seq<int>, outMatch: seq<int>, size: nat)
    requires InRange(order, |inMatch|, |outMatch|) && k <= |order|
    requires GreedyMatching(order, k, inMatch, outMatch, size) && (size == |inMatch| || size == |outMatch|)
    ensures GreedyMatching(order, |order|, inMatch, outMatch, size)
  {
    MatchedPortsAgree(inMatch, outMatch);
    SizeBounds(inMatch);
    SizeBounds(outMatch);
  }

  /** The greedy pass over the first `k` edges, without early exit. */
  ghost function GreedyPass(order: seq<Pair>, k: nat, inputs: nat, outputs: nat): (r: (seq<int>, seq<int>))
    requires InRange(order, inputs, outputs) && k <= |order|
    ensures |r.0| == inputs && |r.1| == outputs
  {
    if k == 0 then (Fill(inputs, UNMATCHED), Fill(outputs, UNMATCHED))
    else
      var (a, b) := GreedyPass(order, k - 1, inputs, outputs);
      var (s, d) := order[k - 1];
      if a[s] == UNMATCHED && b[d] == UNMATCHED then (a[s := d], b[d := s]) else (a, b)
  }

  /** Once all edges are blocked, the rest of the pass changes nothing. */
  lemma {:induction false} BlockedPass(order: seq<Pair>, k: nat, n: nat, inputs: nat, outputs: nat)
    requires InRange(order, inputs, outputs) && k <= n <= |order|
    requires var (a, b) := GreedyPass(order, k, inputs, outputs);
             forall x :: 0 <= x < |order| ==> a[order[x].0] != UNMATCHED || b[order[x].1] != UNMATCHED
    ensures GreedyPass(order, n, inputs, outputs) == GreedyPass(order, k, inputs, outputs)
  {
    if k < n {
      BlockedPass(order, k, n - 1, inputs, outputs);
    }
  }

  /** Edge `e` is matched and shares a port with edge `f`. */
  ghost predicate Blocks(e: Pair, f: Pair, inMatch: seq<int>)
    requires 0 <= e.0 < |inMatch|
  {
    inMatch[e.0] == e.1 && (e.0 == f.0 || e.1 == f.1)
  }

  /** The edge is matched, or an earlier one blocks it. */
  ghost predicate TakenOrBlocked(order: seq<Pair>, x: nat, inMatch: seq<int>)
    requires x < |order| && forall y :: 0 <= y <= x ==> 0 <= order[y].0 < |inMatch|
  {
    inMatch[order[x].0] == order[x].1 || exists y :: 0 <= y < x && Blocks(order[y], order[x], inMatch)
  }

  /** Edges are matched first come, first served: only matched edges that came before keep an edge out. */
  ghost predicate FirstComeFirstServed(order: seq<Pair>, k: nat, inMatch: seq<int>, outMatch: seq<int>)
    requires InRange(order, |inMatch|, |outMatch|) && k <= |order|
  {
    && IsMatching(inMatch, outMatch)
    && (forall i :: 0 <= i < |inMatch| && inMatch[i] != UNMATCHED ==> (i, inMatch[i]) in order[..k])
    && (forall x :: 0 <= x < k ==> TakenOrBlocked(order, x, inMatch))
  }

  lemma ServedOneMore(order: seq<Pair>, k: nat, inMatch: seq<int>, outMatch: seq<int>)
    requires InRange(order, |inMatch|, |outMatch|) && k < |order|
    requires FirstComeFirstServed(order, k, inMatch, outMatch)
    ensures var (s, d) := order[k];
            if inMatch[s] == UNMATCHED && outMatch[d] == UNMATCHED
            then FirstComeFirstServed(order, k + 1, inMatch[s := d], outMatch[d := s])
            else FirstComeFirstServed(order, k + 1, inMatch, outMatch)
  {
    var (s, d) := order[k];
    assert order[..k + 1] == order[..k] + [(s, d)];
    if inMatch[s] == UNMATCHED && outMatch[d] == UNMATCHED {
      var more := inMatch[s := d];
      forall x | 0 <= x < k
        ensures TakenOrBlocked(order, x, more)
      {
        assert TakenOrBlocked(order, x, inMatch);
        if y :| 0 <= y < x && Blocks(order[y], order[x], inMatch) {
          assert Blocks(order[y], order[x], more);
        }
      }
    } else {
      var blocker := if inMatch[s] != UNMATCHED then (s, inMatch[s]) else (outMatch[d], d);
      assert blocker in order[..k];
      var y :| 0 <= y < k && order[y] == blocker;
      assert Blocks(order[y], order[k], inMatch);
    }
  }

  /** The greedy pass is first come, first served. */
  lemma {:induction false} PassServes(order: seq<Pair>, k: nat, inputs: nat, outputs: nat)
    requires InRange(order, inputs, outputs) && k <= |order|
    ensures var r := GreedyPass(order, k, inputs, outputs); FirstComeFirstServed(order, k, r.0, r.1)
  {
    if k > 0 {
      hide FirstComeFirstServed;
      PassServes(order, k - 1, inputs, outputs);
      var r := GreedyPass(order, k - 1, inputs, outputs);
      ServedOneMore(order, k - 1, r.0, r.1);
    } else {
      assert order[..0] == [];
    }
  }

  lemma {:induction false} ServedAlike(order: seq<Pair>, k: nat, a: seq<int>, b: seq<int>, a': seq<int>, b': seq<int>)
    requires |a| == |a'| && |b| == |b'| && InRange(order, |a|, |b|) && k <= |order|
    requires FirstComeFirstServed(order, |order|, a, b) && FirstComeFirstServed(order, |order|, a', b')
    ensures forall x :: 0 <= x < k ==> (a[order[x].0] == order[x].1 <==> a'[order[x].0] == order[x].1)
  {
    if k > 0 {
      ServedAlike(order, k - 1, a, b, a', b');
      assert TakenOrBlocked(order, k - 1, a) && TakenOrBlocked(order, k - 1, a');
    }
  }

  /** The order leaves no choice of matching. */
  lemma ServedIsUnique(order: seq<Pair>, a: seq<int>, b: seq<int>, a': seq<int>, b': seq<int>)
    requires |a| == |a'| && |b| == |b'| && InRange(order, |a|, |b|)
    requires FirstComeFirstServed(order, |order|, a, b) && FirstComeFirstServed(order, |order|, a', b')
    ensures a == a'
  {
    ServedAlike(order, |order|, a, b, a', b');
    forall i | 0 <= i < |a|
      ensures a[i] == a'[i]
    {
      assert order[..|order|] == order;
      assert a[i] != UNMATCHED ==> (i, a[i]) in order;
      assert a'[i] != UNMATCHED ==> (i, a'[i]) in order;
    }
  }

  /** A pass over exactly the present edges ends in a maximal matching. */
  lemma GreedyIsMaximal(order: seq<Pair>, inMatch: seq<int>, outMatch: seq<int>, size: nat, present: seq<seq<bool>>)
    requires InRange(order, |inMatch|, |outMatch|) && GreedyMatching(order, |order|, inMatch, outMatch, size)
    requires IsGrid(present, |inMatch|, |outMatch|)
    requires forall s, d :: 0 <= s < |inMatch| && 0 <= d < |outMatch| ==> ((s, d) in order <==> present[s][d])
    ensures IsMaximal(inMatch, outMatch, present)
    ensures forall i :: 0 <= i < |inMatch| && inMatch[i] != UNMATCHED ==> present[i][inMatch[i]]
  {
    forall s, d | 0 <= s < |inMatch| && 0 <= d < |outMatch| && present[s][d]
      ensures inMatch[s] != UNMATCHED || outMatch[d] != UNMATCHED
    {
      assert (s, d) in order;
      var k :| 0 <= k < |order| && order[k] == (s, d);
    }
  }

  /** A rearrangement of the dense prefix holds exactly the present edges. */
  lemma OrderHoldsEdges(edges: seq<Pair>, edgeNum: int, index: seq<seq<int>>, order: seq<Pair>, inputs: nat,
      outputs: nat)
    requires Inverse(edges, edgeNum, index, inputs, outputs) && multiset(order) == multiset(edges[..edgeNum])
    ensures InRange(order, inputs, outputs)
    ensures forall s, d :: 0 <= s < inputs && 0 <= d < outputs ==> ((s, d) in order <==> Present(index)[s][d])
  {
    var prefix := edges[..edgeNum];
    SameMembers(order, prefix);
    forall k | 0 <= k < |order|
      ensures 0 <= order[k].0 < inputs && 0 <= order[k].1 < outputs
    {
      assert order[k] in prefix;
    }
    forall s, d | 0 <= s < inputs && 0 <= d < outputs
      ensures (s, d) in order <==> Present(index)[s][d]
    {
      if index[s][d] != -1 {
        assert prefix[index[s][d]] == (s, d);
      }
    }
  }

  /** Every present edge is listed once. */
  ghost predicate AreEdges(listed: seq<Pair>, present: seq<seq<bool>>, inputs: nat, outputs: nat)
    requires IsGrid(present, inputs, outputs)
  {
    && InRange(listed, inputs, outputs) && (forall x, y :: 0 <= x < y < |listed| ==> listed[x] != listed[y])
    && (forall s, d :: 0 <= s < inputs && 0 <= d < outputs ==> ((s, d) in listed <==> present[s][d]))
  }

  lemma EdgesAreListed(edges: seq<Pair>, edgeNum: int, index: seq<seq<int>>, inputs: nat, outputs: nat)
    requires Inverse(edges, edgeNum, index, inputs, outputs)
    ensures AreEdges(edges[..edgeNum], Present(index), inputs, outputs)
  {
    OrderHoldsEdges(edges, edgeNum, index, edges[..edgeNum], inputs, outputs);
  }

  class Scheduler {
    const numInputs: nat
    const numOutputs: nat
    var edges: seq<Pair>
    var edgeNum: int
    var index: seq<seq<int>>
    var inMatch: seq<int>
    var outMatch: seq<int>

    ghost predicate Valid()
      reads this
    {
      Inverse(edges, edgeNum, index, numInputs, numOutputs) && |inMatch| == numInputs && |outMatch| == numOutputs
    }

    constructor (numInputs: nat, numOutputs: nat)
      ensures Valid() && this.numInputs == numInputs && this.numOutputs == numOutputs
      ensures Present(index) == Fill(numInputs, Fill(numOutputs, false))
    {
      this.numInputs := numInputs;
      this.numOutputs := numOutputs;
      edges := [];
      edgeNum := 0;
      index := Fill(numInputs, Fill(numOutputs, -1));
      inMatch := Fill(numInputs, UNMATCHED);
      outMatch := Fill(numOutputs, UNMATCHED);
      new;
      GridsEqual(Present(index), Fill(numInputs, Fill(numOutputs, false)));
    }

    method Insert(source: nat, destination: nat)
      requires Valid() && source < numInputs && destination < numOutputs
      modifies this`edges, this`edgeNum, this`index
      ensures Valid() && Present(index) == SetAt(old(Present(index)), source, destination, true)
    {
      if index[source][destination] == -1 {
        AddLast(edges, edgeNum, index, source, destination, numInputs, numOutputs);
        if edgeNum == |edges| {
          edges := edges + [(source, destination)];
        } else {
          edges := edges[edgeNum := (source, destination)];
        }
        index := SetAt(index, source, destination, edgeNum);
        edgeNum := edgeNum + 1;
      } else {
        SetSame(Present(index), source, destination);
      }
    }

    method Erase(source: nat, destination: nat)
      requires Valid() && source < numInputs && destination < numOutputs
      modifies this`edges, this`edgeNum, this`index
      ensures Valid() && Present(index) == SetAt(old(Present(index)), source, destination, false)
    {
      var i := index[source][destination];
      var last := edgeNum - 1;
      if i != -1 {
        assert last >= 0 && edges[i] == (source, destination);
        if i != last {
          var (s, t) := edges[last];
          SwapRemove(edges, edgeNum, index, i, (s, t), (source, destination), numInputs, numOutputs);
          SwapRemovePresent(index, i, (s, t), (source, destination), numInputs, numOutputs);
          edges := edges[i := (s, t)];
          index := SetAt(index, s, t, i);
        } else {
          RemoveLast(edges, edgeNum, index, (source, destination), numInputs, numOutputs);
        }
        index := SetAt(index, source, destination, -1);
        edgeNum := edgeNum - 1;
      } else {
        SetSame(Present(index), source, destination);
      }
    }

    method HandleArrivals(arrivals: seq<Pair>)
      requires Valid() && InRange(Live(arrivals), numInputs, numOutputs)
      modifies this`edges, this`edgeNum, this`index
      ensures Valid() && Present(index) == Marked(old(Present(index)), Live(arrivals))
    {
      var k := 0;
      ghost var live, before := Live(arrivals), Present(index);
      LiveAt(arrivals, 0);
      while k < |arrivals| && arrivals[k].0 != SENTINEL
        invariant 0 <= k <= |live| <= |arrivals| && Valid()
        invariant Present(index) == Marked(before, live[..k])
      {
        LiveAt(arrivals, k);
        var (s, d) := arrivals[k];
        MarkedStep(before, live[..k], (s, d));
        Insert(s, d);
        k := k + 1;
      }
      LiveAt(arrivals, k);
      assert live[..k] == live;
    }

    method HandleDepartures(lengths: seq<seq<int>>)
      requires Valid() && IsGrid(lengths, numInputs, numOutputs) && IsMatching(inMatch, outMatch)
      modifies this`edges, this`edgeNum, this`index
      ensures Valid() && Present(index) == Cleared(old(Present(index)), inMatch, lengths, numInputs)
    {
      ghost var before := Present(index);
      for s := 0 to numInputs
        invariant Valid() && Present(index) == Cleared(before, inMatch, lengths, s)
      {
        var d := inMatch[s];
        if d != UNMATCHED && lengths[s][d] == 1 {
          Erase(s, d);
        }
      }
    }

    /** The greedy pass with its early exit: whatever the order, no edge is left with both ends free. */
    method Greedy(order: seq<Pair>) returns (matchSize: nat)
      requires |inMatch| == numInputs && |outMatch| == numOutputs && InRange(order, numInputs, numOutputs)
      requires inMatch == Fill(numInputs, UNMATCHED) && outMatch == Fill(numOutputs, UNMATCHED)
      modifies this`inMatch, this`outMatch
      ensures |inMatch| == numInputs && |outMatch| == numOutputs
      ensures GreedyMatching(order, |order|, inMatch, outMatch, matchSize)
      ensures (inMatch, outMatch) == GreedyPass(order, |order|, numInputs, numOutputs)
    {
      matchSize := 0;
      SizeBounds(inMatch);
      for k := 0 to |order|
        invariant |inMatch| == numInputs && |outMatch| == numOutputs
        invariant GreedyMatching(order, k, inMatch, outMatch, matchSize)
        invariant (inMatch, outMatch) == GreedyPass(order, k, numInputs, numOutputs)
      {
        var (s, d) := order[k];
        if inMatch[s] == UNMATCHED && outMatch[d] == UNMATCHED {
          GreedyTakes(order, k, inMatch, outMatch, matchSize);
          inMatch := inMatch[s := d];
          outMatch := outMatch[d := s];
          matchSize := matchSize + 1;
          if matchSize == if numOutputs < numInputs then numOutputs else numInputs {
            FullSizeBlocks(order, k + 1, inMatch, outMatch, matchSize);
            BlockedPass(order, k + 1, |order|, numInputs, numOutputs);
            return;
          }
        }
      }
    }

    /** Shuffles the edges and matches them greedily. */
    method MatchPorts(copied: seq<Pair>, shuffle: seq<Pair> -> seq<Pair>) returns (ghost order: seq<Pair>)
      requires Valid() && Shuffles(shuffle) && copied == edges[..edgeNum]
      requires inMatch == Fill(numInputs, UNMATCHED) && outMatch == Fill(numOutputs, UNMATCHED)
      modifies this`inMatch, this`outMatch
      ensures Valid() && IsMatching(inMatch, outMatch) && IsMaximal(inMatch, outMatch, Present(index))
      ensures forall i :: 0 <= i < numInputs && inMatch[i] != UNMATCHED ==> Present(index)[i][inMatch[i]]
      ensures forall s, d :: 0 <= s < numInputs && 0 <= d < numOutputs ==> ((s, d) in order <==> Present(index)[s][d])
      ensures InRange(order, numInputs, numOutputs) && order == shuffle(copied)
      ensures FirstComeFirstServed(order, |order|, inMatch, outMatch)
    {
      var shuffled := shuffle(copied);
      order := shuffled;
      OrderHoldsEdges(edges, edgeNum, index, order, numInputs, numOutputs);
      var matchSize := Greedy(shuffled);
      PassServes(order, |order|, numInputs, numOutputs);
      GreedyIsMaximal(order, inMatch, outMatch, matchSize, Present(index));
    }

    /** One slot: the matching is maximal over the nonempty queues for every shuffle. */
    method Schedule(arrivals: seq<Pair>, lengths: seq<seq<int>>, shuffle: seq<Pair> -> seq<Pair>)
      returns (ghost listed: seq<Pair>)
      requires Valid() && InRange(Live(arrivals), numInputs, numOutputs)
      requires IsGrid(lengths, numInputs, numOutputs) && Shuffles(shuffle)
      modifies this
      ensures Valid() && IsMatching(inMatch, outMatch)
      ensures var present := Marked(old(Present(index)), Live(arrivals));
              && IsMaximal(inMatch, outMatch, present)
              && (forall i :: 0 <= i < numInputs && inMatch[i] != UNMATCHED ==> present[i][inMatch[i]])
              && Present(index) == Cleared(present, inMatch, lengths, numInputs)
              && AreEdges(listed, present, numInputs, numOutputs)
      ensures InRange(shuffle(listed), numInputs, numOutputs)
      ensures FirstComeFirstServed(shuffle(listed), |shuffle(listed)|, inMatch, outMatch)
    {
      HandleArrivals(arrivals);
      var copied := edges[..edgeNum];
      listed := copied;
      inMatch := Fill(numInputs, UNMATCHED);
      outMatch := Fill(numOutputs, UNMATCHED);
      ghost var present := Present(index);
      OrderHoldsEdges(edges, edgeNum, index, copied, numInputs, numOutputs);
      EdgesAreListed(edges, edgeNum, index, numInputs, numOutputs);
      if edgeNum == 0 {
        ClearedUnmatched(present, inMatch, lengths, numInputs);
        SameMembers(shuffle(listed), listed);
        return;
      }
      hide AreEdges, FirstComeFirstServed;
      ghost var _ := MatchPorts(copied, shuffle);
      HandleDepartures(lengths);
    }

    method Init(lengths: seq<seq<int>>)
      requires Valid() && Present(index) == Fill(numInputs, Fill(numOutputs, false))
      requires IsGrid(lengths, numInputs, numOutputs)
      modifies this`edges, this`edgeNum, this`index
      ensures Valid() && Present(index) == NonEmpty(lengths)
    {
      for src := 0 to numInputs
        invariant Valid()
        invariant forall s, d :: 0 <= s < numInputs && 0 <= d < numOutputs ==>
          Present(index)[s][d] == (s < src && lengths[s][d] > 0)
      {
        for dst := 0 to numOutputs
          invariant Valid()
          invariant forall s, d :: 0 <= s < numInputs && 0 <= d < numOutputs ==>
            Present(index)[s][d] == ((s < src || (s == src && d < dst)) && lengths[s][d] > 0)
        {
          if lengths[src][dst] > 0 {
            Insert(src, dst);
          }
        }
      }
      GridsEqual(Present(index), NonEmpty(lengths));
    }
  }
}
