/** The choices of a slot determine it: orders, draws and the policy leave no freedom to the rounds. */
module QpsDeterminism {
  import opened Matchings
  import opened QpsSpec
  import opened Sums

  lemma {:induction false} PrefixSumsGrow(row: seq<int>, d: nat, e: nat)
    requires NonNegative(row) && d <= e <= |row|
    ensures Sum(row[..d]) <= Sum(row[..e])
  {
    if d < e {
      PrefixSumsGrow(row, d, e - 1);
      SumPrefixStep(row, e - 1);
    }
  }

  /** The intervals of two outputs do not meet, so a draw samples one output only. */
  lemma SampledOnce(row: seq<int>, u: real, d: int, e: int)
    requires NonNegative(row) && SampledBy(row, u, d) && SampledBy(row, u, e)
    ensures d == e
  {
    hide Scaled;
    if d < e {
      PrefixSumsGrow(row, d + 1, e);
    } else if e < d {
      PrefixSumsGrow(row, e + 1, d);
    }
  }

  /** The proposals of a round do not depend on which of them are kept. */
  lemma SameRequests(policy: AcceptPolicy, q: seq<seq<int>>, a: MatchState, order: seq<int>, draws: seq<real>,
      requests: seq<int>, lastCheck: seq<int>, requests': seq<int>, lastCheck': seq<int>, inputs: nat, outputs: nat)
    requires IsGrid(q, inputs, outputs) && IsMatchState(a, inputs, outputs) && IsLengthGrid(a.now, inputs, outputs)
    requires IsOrder(order, inputs) && |draws| == inputs
    requires Proposed(policy, q, a.now, draws, a.inMatch, a.outMatch, order, requests, lastCheck, inputs, outputs)
    requires Proposed(policy, q, a.now, draws, a.inMatch, a.outMatch, order, requests', lastCheck', inputs, outputs)
    ensures requests == requests'
  {
    hide SampledBy, Beats;
    forall s | 0 <= s < inputs
      ensures requests[s] == requests'[s]
    {
      assert s in order;
      if requests[s] != UNMATCHED && requests'[s] != UNMATCHED {
        SampledOnce(a.now[s], draws[s], requests[s], requests'[s]);
      }
    }
  }

  /** An output keeps the one proposal that beats all before it and is beaten by none. */
  lemma SameKept(policy: AcceptPolicy, q: seq<seq<int>>, a: MatchState, order: seq<int>, draws: seq<real>,
      requests: seq<int>, lastCheck: seq<int>, lastCheck': seq<int>, inputs: nat, outputs: nat, d: nat)
    requires IsGrid(q, inputs, outputs) && IsMatchState(a, inputs, outputs)
    requires IsOrder(order, inputs) && |draws| == inputs && d < outputs
    requires Proposed(policy, q, a.now, draws, a.inMatch, a.outMatch, order, requests, lastCheck, inputs, outputs)
    requires Proposed(policy, q, a.now, draws, a.inMatch, a.outMatch, order, requests, lastCheck', inputs, outputs)
    requires BeatsEarlier(policy, q, order, requests, lastCheck, inputs, outputs)
    requires BeatsEarlier(policy, q, order, requests, lastCheck', inputs, outputs)
    ensures lastCheck[d] == lastCheck'[d]
  {
    hide SampledBy, Beats;
    if lastCheck[d] != UNMATCHED && lastCheck'[d] != UNMATCHED {
      var x :| 0 <= x < inputs && order[x] == lastCheck[d];
      var y :| 0 <= y < inputs && order[y] == lastCheck'[d];
      assert x == y;
    }
  }

  lemma AcceptedOnce(requests: seq<int>, lastCheck: seq<int>, inMatch: seq<int>, outMatch: seq<int>, b: MatchState,
      c: MatchState)
    requires Accepted(requests, lastCheck, inMatch, outMatch, |lastCheck|, b.inMatch, b.outMatch)
    requires Accepted(requests, lastCheck, inMatch, outMatch, |lastCheck|, c.inMatch, c.outMatch)
    ensures b.inMatch == c.inMatch && b.outMatch == c.outMatch
  {
  }

  lemma RemovedOnce(now: seq<seq<int>>, requests: seq<int>, inMatch: seq<int>, b: seq<seq<int>>, c: seq<seq<int>>)
    requires |requests| == |inMatch| == |now| == |b| == |c|
    requires RejectedRemoved(now, requests, inMatch, |now|, b) && RejectedRemoved(now, requests, inMatch, |now|, c)
    ensures b == c
  {
  }

  lemma ChosenRoundIsDetermined(policy: AcceptPolicy, q: seq<seq<int>>, a: MatchState, b: MatchState, c: MatchState,
      order: seq<int>, draws: seq<real>, requests: seq<int>, lastCheck: seq<int>, requests': seq<int>,
      lastCheck': seq<int>, inputs: nat, outputs: nat)
    requires IsGrid(q, inputs, outputs) && IsMatchState(a, inputs, outputs) && IsLengthGrid(a.now, inputs, outputs)
    requires IsOrder(order, inputs) && |draws| == inputs
    requires Proposed(policy, q, a.now, draws, a.inMatch, a.outMatch, order, requests, lastCheck, inputs, outputs)
    requires Proposed(policy, q, a.now, draws, a.inMatch, a.outMatch, order, requests', lastCheck', inputs, outputs)
    requires BeatsEarlier(policy, q, order, requests, lastCheck, inputs, outputs)
    requires BeatsEarlier(policy, q, order, requests', lastCheck', inputs, outputs)
    requires Accepted(requests, lastCheck, a.inMatch, a.outMatch, outputs, b.inMatch, b.outMatch)
    requires Accepted(requests', lastCheck', a.inMatch, a.outMatch, outputs, c.inMatch, c.outMatch)
    ensures requests == requests' && b.inMatch == c.inMatch && b.outMatch == c.outMatch
  {
    assert |lastCheck| == |lastCheck'| == outputs;
    SameRequests(policy, q, a, order, draws, requests, lastCheck, requests', lastCheck', inputs, outputs);
    hide Proposed, BeatsEarlier, Accepted;
    forall d | 0 <= d < outputs
      ensures lastCheck[d] == lastCheck'[d]
    {
      SameKept(policy, q, a, order, draws, requests, lastCheck, lastCheck', inputs, outputs, d);
    }
    assert lastCheck == lastCheck';
    AcceptedOnce(requests, lastCheck, a.inMatch, a.outMatch, b, c);
  }

  /** Two rounds from one state with the same order, draws and policy end in the same state. */
  lemma RoundIsDetermined(policy: AcceptPolicy, withoutReplacement: bool, q: seq<seq<int>>, a: MatchState,
      b: MatchState, c: MatchState, order: seq<int>, draws: seq<real>, inputs: nat, outputs: nat)
    requires IsGrid(q, inputs, outputs) && IsMatchState(a, inputs, outputs) && IsLengthGrid(a.now, inputs, outputs)
    requires IsMatchState(b, inputs, outputs) && IsMatchState(c, inputs, outputs)
    requires IsOrder(order, inputs) && |draws| == inputs
    requires IsRound(policy, withoutReplacement, q, a, b, order, draws, inputs, outputs)
    requires IsRound(policy, withoutReplacement, q, a, c, order, draws, inputs, outputs)
    ensures b == c
  {
    hide IsRound, Proposed, BeatsEarlier, Accepted, RejectedRemoved;
    var requests, lastCheck := ChoicesOf(policy, withoutReplacement, q, a, b, order, draws, inputs, outputs);
    var requests', lastCheck' := ChoicesOf(policy, withoutReplacement, q, a, c, order, draws, inputs, outputs);
    ChosenRoundIsDetermined(policy, q, a, b, c, order, draws, requests, lastCheck, requests', lastCheck', inputs,
                            outputs);
    if withoutReplacement {
      RemovedOnce(a.now, requests, b.inMatch, b.now, c.now);
    }
  }

  /** No round makes a length negative. */
  lemma RoundKeepsLengths(policy: AcceptPolicy, withoutReplacement: bool, q: seq<seq<int>>, a: MatchState,
      b: MatchState, order: seq<int>, draws: seq<real>, inputs: nat, outputs: nat)
    requires IsGrid(q, inputs, outputs) && IsMatchState(a, inputs, outputs) && IsLengthGrid(a.now, inputs, outputs)
    requires IsMatchState(b, inputs, outputs) && IsOrder(order, inputs) && |draws| == inputs
    requires IsRound(policy, withoutReplacement, q, a, b, order, draws, inputs, outputs)
    ensures IsLengthGrid(b.now, inputs, outputs)
  {
    hide BeatsEarlier, Accepted;
  }

  lemma NextIsDetermined(policy: AcceptPolicy, withoutReplacement: bool, q: seq<seq<int>>, trace: seq<MatchState>,
      other: seq<MatchState>, it: nat, order: seq<int>, draws: seq<real>, inputs: nat, outputs: nat)
    requires IsGrid(q, inputs, outputs) && it + 1 < |trace| && it + 1 < |other| && trace[it] == other[it]
    requires IsLengthGrid(trace[it].now, inputs, outputs) && IsOrder(order, inputs) && AreDraws(draws, inputs)
    requires RoundAt(policy, withoutReplacement, q, trace, it, order, draws, inputs, outputs)
    requires RoundAt(policy, withoutReplacement, q, other, it, order, draws, inputs, outputs)
    ensures trace[it + 1] == other[it + 1] && IsLengthGrid(trace[it + 1].now, inputs, outputs)
  {
    hide IsRound;
    var a, b, c := trace[it], trace[it + 1], other[it + 1];
    RoundIsDetermined(policy, withoutReplacement, q, a, b, c, order, draws, inputs, outputs);
    RoundKeepsLengths(policy, withoutReplacement, q, a, b, order, draws, inputs, outputs);
  }

  /** All choices of a slot determine all its states. */
  lemma {:induction false} TraceIsDetermined(policy: AcceptPolicy, withoutReplacement: bool, q: seq<seq<int>>,
      trace: seq<MatchState>, other: seq<MatchState>, orders: seq<seq<int>>, draws: seq<seq<real>>, it: nat,
      inputs: nat, outputs: nat)
    requires IsLengthGrid(q, inputs, outputs) && AreChoices(orders, draws, inputs)
    requires |trace| == |other| <= |orders| + 1 && it < |trace|
    requires IsTrace(policy, withoutReplacement, q, trace, orders, draws, inputs, outputs)
    requires IsTrace(policy, withoutReplacement, q, other, orders, draws, inputs, outputs)
    ensures trace[it] == other[it] && IsLengthGrid(trace[it].now, inputs, outputs)
  {
    hide RoundAt, IsOrder, AreDraws;
    if it > 0 {
      TraceIsDetermined(policy, withoutReplacement, q, trace, other, orders, draws, it - 1, inputs, outputs);
      NextIsDetermined(policy, withoutReplacement, q, trace, other, it - 1, orders[it - 1], draws[it - 1], inputs,
                       outputs);
    }
  }
}
