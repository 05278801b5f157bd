/** The queue-proportional sampling scheduler. Shuffles and draws are parameters, so they are arbitrary. */
module Qps {
  import opened Matchings
  import opened QpsSpec
  import opened Sums
  import opened SumTrees
  import opened Voq

  class Scheduler {
    const numInputs: nat
    const numOutputs: nat
    const iterations: nat
    const withoutReplacement: bool
    const acceptPolicy: AcceptPolicy
    const leftStart: nat
    var bst: seq<seq<int>>
    var inMatch: seq<int>
    var outMatch: seq<int>

    ghost predicate Shape()
      reads this
    {
      && numInputs > 0 && numOutputs > 0 && iterations > 0 && Pow2(leftStart) && numOutputs <= leftStart
      && |inMatch| == numInputs && |outMatch| == numOutputs && |bst| == numInputs
    }

    /** The trees represent exactly the queues `q`. */
    ghost predicate Tracks(q: seq<seq<int>>)
      reads this
    {
      Shape() && IsGrid(q, numInputs, numOutputs) && RepresentsAll(bst, leftStart, q)
    }

    constructor (numInputs: nat, numOutputs: nat, iterations: nat, acceptPolicy: AcceptPolicy, withoutReplacement: bool)
      requires numInputs > 0 && numOutputs > 0 && iterations > 0
      ensures Tracks(Fill(numInputs, Fill(numOutputs, 0)))
      ensures this.numInputs == numInputs && this.numOutputs == numOutputs && this.iterations == iterations
      ensures this.acceptPolicy == acceptPolicy && this.withoutReplacement == withoutReplacement
    {
      this.numInputs := numInputs;
      this.numOutputs := numOutputs;
      this.iterations := iterations;
      this.acceptPolicy := acceptPolicy;
      this.withoutReplacement := withoutReplacement;
      leftStart := LeastPow2(numOutputs);
      bst := Fill(numInputs, Fill(2 * LeastPow2(numOutputs), 0));
      inMatch := Fill(numInputs, UNMATCHED);
      outMatch := Fill(numOutputs, UNMATCHED);
    }

    /** Changes one queue length in the trees. */
    method Change(s: nat, d: nat, delta: int, ghost q: seq<seq<int>>)
      requires Tracks(q) && s < numInputs && d < numOutputs && q[s][d] + delta >= 0
      modifies this`bst
      ensures Tracks(SetAt(q, s, d, q[s][d] + delta))
    {
      RepresentedLeaf(bst[s], leftStart, q[s], d);
      var t := Update(bst[s], leftStart, d + leftStart, delta);
      RepresentsUpdated(bst[s], leftStart, q[s], d, t, delta);
      bst := bst[s := t];
    }

    /** One arrival. */
    method AddPacket(p: Pair, ghost q: seq<seq<int>>)
      requires Tracks(q) && 0 <= p.0 < numInputs && 0 <= p.1 < numOutputs
      modifies this`bst
      ensures Tracks(Bumped(q, p))
    {
      RepresentedLeaf(bst[p.0], leftStart, q[p.0], p.1);
      Change(p.0, p.1, 1, q);
    }

    method HandleArrivals(arrivals: seq<Pair>, ghost q: seq<seq<int>>)
      requires Tracks(q) && InRange(Live(arrivals), numInputs, numOutputs)
      modifies this`bst
      ensures Tracks(Enqueued(q, Live(arrivals)))
    {
      var k := 0;
      ghost var live := Live(arrivals);
      LiveAt(arrivals, 0);
      while k < |arrivals| && arrivals[k].0 != SENTINEL
        invariant 0 <= k <= |live| <= |arrivals| && Tracks(Enqueued(q, live[..k]))
      {
        LiveAt(arrivals, k);
        EnqueuedStep(q, live[..k], arrivals[k]);
        AddPacket(arrivals[k], Enqueued(q, live[..k]));
        k := k + 1;
      }
      LiveAt(arrivals, k);
      assert live[..k] == live;
    }

    method HandleDepartures(lengths: seq<seq<int>>)
      requires Tracks(lengths) && IsMatchVector(inMatch, numInputs, numOutputs)
      modifies this`bst
      ensures Tracks(Departed(lengths, inMatch))
    {
      hide Represents;
      for s := 0 to numInputs
        invariant Tracks(DepartedBelow(lengths, inMatch, s, numInputs, numOutputs))
      {
        var d := inMatch[s];
        ghost var now := DepartedBelow(lengths, inMatch, s, numInputs, numOutputs);
        if d != UNMATCHED {
          RepresentedLeaf(bst[s], leftStart, now[s], d);
          if lengths[s][d] > 0 {
            Change(s, d, -1, now);
          }
        }
      }
      DepartedBelowAll(lengths, inMatch, numInputs, numOutputs);
    }

    /** Samples an output in proportion to the queue lengths of `source`. */
    method Sampling(source: nat, draw: real, ghost now: seq<seq<int>>) returns (out: int)
      requires Tracks(now) && source < numInputs && bst[source][1] > 0 && 0.0 <= draw < 1.0
      ensures 0 <= out < numOutputs && now[source][out] > 0 && SampledBy(now[source], draw, out)
      ensures Sum(now[source][..out]) as real <= draw * (Sum(now[source]) as real) < Sum(now[source][..out + 1]) as real
    {
      hide Scaled, SampledBy;
      SampledQueue(bst[source], leftStart, now[source], draw);
      out := Search(bst[source], 1, Scaled(draw, bst[source][1])) - leftStart;
    }

    /** Step 1: every free input with packets proposes to a sampled output. */
    method Propose(order: seq<int>, draws: seq<real>, lengths: seq<seq<int>>, ghost now: seq<seq<int>>)
      returns (requests: seq<int>, lastCheck: seq<int>)
      requires Tracks(now) && IsGrid(lengths, numInputs, numOutputs)
      requires IsOrder(order, numInputs) && AreDraws(draws, numInputs)
      ensures Proposed(acceptPolicy, lengths, now, draws, inMatch, outMatch, order, requests, lastCheck, numInputs,
                       numOutputs)
      ensures BeatsEarlier(acceptPolicy, lengths, order, requests, lastCheck, numInputs, numOutputs)
      ensures KeepsPreferred(acceptPolicy, lengths, order, outMatch, requests, lastCheck, numInputs, numOutputs)
    {
      hide SampledBy, BeatsEarlier, KeepsPreferred;
      requests := Fill(numInputs, UNMATCHED);
      lastCheck := Fill(numOutputs, UNMATCHED);
      NothingBeaten(lengths, requests, lastCheck);
      for i := 0 to numInputs
        invariant Proposed(acceptPolicy, lengths, now, draws, inMatch, outMatch, order[..i], requests, lastCheck,
                           numInputs, numOutputs)
        invariant BeatsEarlier(acceptPolicy, lengths, order[..i], requests, lastCheck, numInputs, numOutputs)
      {
        var inp := order[i];
        assert order[..i + 1] == order[..i] + [inp];
        assert inp !in order[..i];
        RepresentedRoot(bst[inp], leftStart, now[inp]);
        if bst[inp][1] == 0 || inMatch[inp] != UNMATCHED {
          SkippedBeatsEarlier(acceptPolicy, lengths, now, draws, inMatch, outMatch, order[..i], requests, lastCheck,
                              inp, numInputs, numOutputs);
          SkipStep(acceptPolicy, lengths, now, draws, inMatch, outMatch, order[..i], requests, lastCheck, inp,
                   numInputs, numOutputs);
          continue;
        }
        var out := Sampling(inp, draws[inp], now);
        StillBeatsEarlier(acceptPolicy, lengths, now, draws, inMatch, outMatch, order[..i], requests, lastCheck, inp,
                          out, numInputs, numOutputs);
        ProposeStep(acceptPolicy, lengths, now, draws, inMatch, outMatch, order[..i], requests, lastCheck, inp, out,
                    numInputs, numOutputs);
        requests := requests[inp := out];
        if outMatch[out] != UNMATCHED {
          continue;
        }
        if lastCheck[out] != UNMATCHED {
          if Beats(acceptPolicy, lengths, out, inp, lastCheck[out]) {
            lastCheck := lastCheck[out := inp];
          }
        } else {
          lastCheck := lastCheck[out := inp];
        }
      }
      assert order[..numInputs] == order;
      KeptArePreferred(acceptPolicy, lengths, now, draws, inMatch, outMatch, order, requests, lastCheck, numInputs,
                       numOutputs);
    }

    lemma NothingBeaten(lengths: seq<seq<int>>, requests: seq<int>, lastCheck: seq<int>)
      requires IsGrid(lengths, numInputs, numOutputs) && |requests| == numInputs && |lastCheck| == numOutputs
      ensures BeatsEarlier(acceptPolicy, lengths, [], requests, lastCheck, numInputs, numOutputs)
    {
    }

    /** Step 2: every output with a kept proposal from a free input accepts it. */
    method Accept(requests: seq<int>, lastCheck: seq<int>)
      requires |inMatch| == numInputs == |requests| && |outMatch| == numOutputs == |lastCheck|
      requires forall d :: 0 <= d < numOutputs && lastCheck[d] != UNMATCHED ==>
        0 <= lastCheck[d] < numInputs && requests[lastCheck[d]] == d && inMatch[lastCheck[d]] == UNMATCHED
      modifies this`inMatch, this`outMatch
      ensures Accepted(requests, lastCheck, old(inMatch), old(outMatch), numOutputs, inMatch, outMatch)
    {
      for out := 0 to numOutputs
        invariant Accepted(requests, lastCheck, old(inMatch), old(outMatch), out, inMatch, outMatch)
      {
        var inp := lastCheck[out];
        if inp != UNMATCHED && inMatch[inp] == UNMATCHED {
          outMatch := outMatch[out := inp];
          inMatch := inMatch[inp := out];
        }
      }
    }

    /** Empties a queue in the trees, checking that it held what the switch reports. */
    method RemoveVOQ(s: nat, d: nat, lengths: seq<seq<int>>, ghost saved: seq<Saved>) returns (was: int)
      requires IsGrid(lengths, numInputs, numOutputs) && Tracks(Without(lengths, saved))
      requires RecordsRemovals(saved, lengths)
      requires s < numInputs && d < numOutputs && Without(lengths, saved)[s][d] > 0
      modifies this`bst
      ensures was == lengths[s][d] && RecordsRemovals(saved + [Saved(s, d, was)], lengths)
      ensures Without(lengths, saved + [Saved(s, d, was)]) == SetAt(Without(lengths, saved), s, d, 0)
      ensures Tracks(Without(lengths, saved + [Saved(s, d, was)]))
    {
      ghost var now := Without(lengths, saved);
      RepresentedLeaf(bst[s], leftStart, now[s], d);
      var t;
      t, was := Remove(bst[s], leftStart, d + leftStart);
      RepresentsUpdated(bst[s], leftStart, now[s], d, t, -was);
      RemoveOne(lengths, saved, s, d);
      assert was == lengths[s][d];
      bst := bst[s := t];
    }

    /** Removes the queues of rejected proposals, remembering their lengths. */
    method RemoveRejected(requests: seq<int>, lengths: seq<seq<int>>, saved: seq<Saved>) returns (saved': seq<Saved>)
      requires IsGrid(lengths, numInputs, numOutputs) && Tracks(Without(lengths, saved))
      requires RecordsRemovals(saved, lengths)
      requires |requests| == numInputs
      requires forall s :: 0 <= s < numInputs && requests[s] != UNMATCHED ==>
        0 <= requests[s] < numOutputs && Without(lengths, saved)[s][requests[s]] > 0
      modifies this`bst
      ensures Tracks(Without(lengths, saved')) && RecordsRemovals(saved', lengths)
      ensures RejectedRemoved(Without(lengths, saved), requests, inMatch, numInputs, Without(lengths, saved'))
    {
      saved' := saved;
      ghost var now := Without(lengths, saved);
      for s := 0 to numInputs
        invariant Tracks(Without(lengths, saved')) && RecordsRemovals(saved', lengths)
        invariant RejectedRemoved(now, requests, inMatch, s, Without(lengths, saved'))
      {
        if inMatch[s] == UNMATCHED {
          var out := requests[s];
          if out != UNMATCHED {
            assert Without(lengths, saved')[s] == now[s];
            var was := RemoveVOQ(s, out, lengths, saved');
            saved' := saved' + [Saved(s, out, was)];
          }
        }
      }
    }

    /** Puts all removed queues back. */
    method RestoreVOQ(saved: seq<Saved>, ghost lengths: seq<seq<int>>)
      requires IsGrid(lengths, numInputs, numOutputs) && Tracks(Without(lengths, saved))
      requires RecordsRemovals(saved, lengths)
      modifies this`bst
      ensures Tracks(lengths)
    {
      for k := 0 to |saved|
        invariant RecordsRemovals(saved[k..], lengths) && Tracks(Without(lengths, saved[k..]))
      {
        ghost var rest := saved[k..];
        assert rest[0] == saved[k] && rest[1..] == saved[k + 1..];
        RestoreOne(lengths, rest);
        assert saved[k].length > 0;
        Change(saved[k].source, saved[k].destination, saved[k].length, Without(lengths, rest));
      }
    }

    /** Every matched queue has a packet to send. */
    ghost predicate MatchedNonEmpty(lengths: seq<seq<int>>)
      requires IsGrid(lengths, numInputs, numOutputs) && |inMatch| == numInputs && IsMatching(inMatch, outMatch)
      requires |outMatch| == numOutputs
      reads this
    {
      forall s :: 0 <= s < numInputs && inMatch[s] != UNMATCHED ==> lengths[s][inMatch[s]] > 0
    }

    /** The state between two rounds of a slot. */
    ghost predicate Between(lengths: seq<seq<int>>, saved: seq<Saved>, rounds: nat)
      reads this
    {
      && IsGrid(lengths, numInputs, numOutputs) && Tracks(Without(lengths, saved)) && RecordsRemovals(saved, lengths)
      && IsMatching(inMatch, outMatch)
      && MatchedNonEmpty(lengths)
      && (withoutReplacement ==> RoundsDone(lengths, Without(lengths, saved), inMatch, outMatch, rounds, numInputs,
          numOutputs))
    }

    /** The matching and the queues in the trees. */
    ghost function Now(now: seq<seq<int>>): MatchState
      reads this
    {
      MatchState(inMatch, outMatch, now)
    }

    /** One round: propose, accept and, without replacement, remove the rejected. */
    method Round(order: seq<int>, draws: seq<real>, lengths: seq<seq<int>>, saved: seq<Saved>, ghost rounds: nat)
      returns (saved': seq<Saved>)
      requires Between(lengths, saved, rounds) && IsOrder(order, numInputs) && AreDraws(draws, numInputs)
      modifies this`bst, this`inMatch, this`outMatch
      ensures Between(lengths, saved', rounds + 1)
      ensures IsRound(acceptPolicy, withoutReplacement, lengths, old(Now(Without(lengths, saved))),
                      Now(Without(lengths, saved')), order, draws, numInputs, numOutputs)
    {
      hide Represents, SampledBy, BeatsEarlier;
      ghost var now, inMatch0, outMatch0 := Without(lengths, saved), inMatch, outMatch;
      var requests, lastCheck := Propose(order, draws, lengths, now);
      Accept(requests, lastCheck);
      RoundEffect(acceptPolicy, lengths, now, draws, inMatch0, outMatch0, order, requests, lastCheck,
                  inMatch, outMatch, numInputs, numOutputs);
      NowIsPart(lengths, saved);
      assert MatchedNonEmpty(lengths);
      saved' := saved;
      if withoutReplacement && iterations > 0 {
        saved' := RemoveRejected(requests, lengths, saved);
        assert RoundOutcome(now, inMatch0, outMatch0, requests, inMatch, outMatch, numInputs, numOutputs);
        RoundAdvances(lengths, now, inMatch0, outMatch0, requests, Without(lengths, saved'), inMatch, outMatch,
                      rounds, numInputs, numOutputs);
      }
    }

    /** What is left of a queue is nothing or all of it. */
    lemma NowIsPart(lengths: seq<seq<int>>, saved: seq<Saved>)
      requires IsGrid(lengths, numInputs, numOutputs)
      ensures forall s, d :: 0 <= s < numInputs && 0 <= d < numOutputs ==>
        Without(lengths, saved)[s][d] == 0 || Without(lengths, saved)[s][d] == lengths[s][d]
    {
      forall s, d | 0 <= s < numInputs && 0 <= d < numOutputs {
        WithoutEntries(lengths, saved, s, d);
      }
    }

    /** All rounds of a slot, from an empty matching, with the removed queues restored at the end. */
    method MatchPorts(lengths: seq<seq<int>>, orders: seq<seq<int>>, draws: seq<seq<real>>)
      returns (ghost trace: seq<MatchState>)
      requires Tracks(lengths) && |orders| == iterations == |draws|
      requires forall it :: 0 <= it < iterations ==> IsOrder(orders[it], numInputs) && AreDraws(draws[it], numInputs)
      requires inMatch == Fill(numInputs, UNMATCHED) && outMatch == Fill(numOutputs, UNMATCHED)
      modifies this`bst, this`inMatch, this`outMatch
      ensures Tracks(lengths) && bst == old(bst)
      ensures |trace| == iterations + 1
      ensures IsTrace(acceptPolicy, withoutReplacement, lengths, trace, orders, draws, numInputs, numOutputs)
      ensures inMatch == trace[iterations].inMatch && outMatch == trace[iterations].outMatch
      ensures IsMatching(inMatch, outMatch)
      ensures forall s :: 0 <= s < numInputs && inMatch[s] != UNMATCHED ==> lengths[s][inMatch[s]] > 0
      ensures withoutReplacement && (iterations >= numInputs || iterations >= numOutputs) ==>
        IsMaximal(inMatch, outMatch, NonEmpty(lengths))
    {
      hide Represents, QpsSpec.IsRound;
      var saved: seq<Saved> := [];
      trace := [Now(lengths)];
      for it := 0 to iterations
        invariant Between(lengths, saved, it)
        invariant |trace| == it + 1 && trace[it] == Now(Without(lengths, saved))
        invariant IsTrace(acceptPolicy, withoutReplacement, lengths, trace, orders, draws, numInputs, numOutputs)
      {
        saved := Round(orders[it], draws[it], lengths, saved, it);
        TraceStep(acceptPolicy, withoutReplacement, lengths, trace, Now(Without(lengths, saved)), orders, draws,
                  numInputs, numOutputs);
        trace := trace + [Now(Without(lengths, saved))];
      }
      if withoutReplacement && (iterations >= numInputs || iterations >= numOutputs) {
        RoundsSuffice(lengths, Without(lengths, saved), inMatch, outMatch, iterations, numInputs, numOutputs);
      }
      RestoreVOQ(saved, lengths);
      forall s | 0 <= s < numInputs
        ensures bst[s] == old(bst[s])
      {
        RepresentationIsUnique(bst[s], old(bst[s]), leftStart, lengths[s]);
      }
    }

    /** One slot. `q` are the lengths before the arrivals, `lengths` what the switch reports after them. */
    method Schedule(arrivals: seq<Pair>, lengths: seq<seq<int>>, orders: seq<seq<int>>, draws: seq<seq<real>>,
        ghost q: seq<seq<int>>)
      returns (ghost trace: seq<MatchState>)
      requires Tracks(q) && InRange(Live(arrivals), numInputs, numOutputs)
      requires IsGrid(lengths, numInputs, numOutputs) && lengths == Enqueued(q, Live(arrivals))
      requires |orders| == iterations == |draws|
      requires forall it :: 0 <= it < iterations ==> IsOrder(orders[it], numInputs) && AreDraws(draws[it], numInputs)
      modifies this`bst, this`inMatch, this`outMatch
      ensures Shape() && IsMatching(inMatch, outMatch) && Tracks(Departed(lengths, inMatch))
      ensures |trace| == iterations + 1
      ensures IsTrace(acceptPolicy, withoutReplacement, lengths, trace, orders, draws, numInputs, numOutputs)
      ensures inMatch == trace[iterations].inMatch && outMatch == trace[iterations].outMatch
      ensures forall s :: 0 <= s < numInputs && inMatch[s] != UNMATCHED ==> lengths[s][inMatch[s]] > 0
      ensures withoutReplacement && (iterations >= numInputs || iterations >= numOutputs) ==>
        IsMaximal(inMatch, outMatch, NonEmpty(lengths))
    {
      HandleArrivals(arrivals, q);
      inMatch := Fill(numInputs, UNMATCHED);
      outMatch := Fill(numOutputs, UNMATCHED);
      trace := MatchPorts(lengths, orders, draws);
      HandleDepartures(lengths);
    }

    /** Starts from the queues of a switch. */
    method Init(lengths: seq<seq<int>>)
      requires Tracks(Fill(numInputs, Fill(numOutputs, 0))) && IsLengthGrid(lengths, numInputs, numOutputs)
      modifies this`bst
      ensures Tracks(lengths)
    {
      ghost var q := Fill(numInputs, Fill(numOutputs, 0));
      for s := 0 to numInputs
        invariant Tracks(q)
        invariant forall x, y :: 0 <= x < numInputs && 0 <= y < numOutputs ==>
          q[x][y] == if x < s then lengths[x][y] else 0
      {
        for d := 0 to numOutputs
          invariant Tracks(q)
          invariant forall x, y :: 0 <= x < numInputs && 0 <= y < numOutputs ==>
            q[x][y] == if x < s || (x == s && y < d) then lengths[x][y] else 0
        {
          if lengths[s][d] > 0 {
            Change(s, d, lengths[s][d], q);
            q := SetAt(q, s, d, lengths[s][d]);
          }
        }
      }
      GridsEqual(q, lengths);
    }
  }
}
