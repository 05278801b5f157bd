/**
 How many rounds QPS needs. Without replacement, as many as the smaller side has ports; with replacement,
 one round is enough when one side has a single port, and otherwise no number is.
 */
module QpsTightness {
  import opened Matchings
  import opened QpsSpec
  import opened Sums

  // What every trace keeps

  /** What is left of a queue is nothing or all of it. */
  ghost predicate IsPart(now: seq<seq<int>>, q: seq<seq<int>>) {
    && |now| == |q| && (forall s :: 0 <= s < |q| ==> |now[s]| == |q[s]|)
    && forall s, d :: 0 <= s < |q| && 0 <= d < |q[s]| ==> now[s][d] == 0 || now[s][d] == q[s][d]
  }

  ghost predicate KeepsPairs(a: MatchState, b: MatchState, inputs: nat, outputs: nat)
    requires IsMatchState(a, inputs, outputs) && IsMatchState(b, inputs, outputs)
  {
    && (forall s :: 0 <= s < inputs && a.inMatch[s] != UNMATCHED ==> b.inMatch[s] == a.inMatch[s])
    && (forall d :: 0 <= d < outputs && a.outMatch[d] != UNMATCHED ==> b.outMatch[d] == a.outMatch[d])
  }

  lemma ChosenRoundKeeps(policy: AcceptPolicy, q: seq<seq<int>>, a: MatchState, b: MatchState, order: seq<int>,
      draws: seq<real>, requests: seq<int>, lastCheck: seq<int>, inputs: nat, outputs: nat)
    requires IsGrid(q, inputs, outputs) && IsMatchState(a, inputs, outputs) && IsMatchState(b, inputs, outputs)
    requires IsOrder(order, inputs) && |draws| == inputs && IsMatching(a.inMatch, a.outMatch)
    requires Proposed(policy, q, a.now, draws, a.inMatch, a.outMatch, order, requests, lastCheck, inputs, outputs)
    requires Accepted(requests, lastCheck, a.inMatch, a.outMatch, outputs, b.inMatch, b.outMatch)
    ensures IsMatching(b.inMatch, b.outMatch) && KeepsPairs(a, b, inputs, outputs)
    ensures |requests| == inputs
    ensures RoundOutcome(a.now, a.inMatch, a.outMatch, requests, b.inMatch, b.outMatch, inputs, outputs)
  {
    RoundEffect(policy, q, a.now, draws, a.inMatch, a.outMatch, order, requests, lastCheck, b.inMatch, b.outMatch,
                inputs, outputs);
    hide SampledBy, Beats, IsMatching, Accepted, Exhausted;
  }

  /**
   A round keeps a matching and its pairs, and every free input with queues left proposes to an output that
   is matched afterwards.
   */
  lemma RoundKeeps(policy: AcceptPolicy, withoutReplacement: bool, q: seq<seq<int>>, a: MatchState, b: MatchState,
      order: seq<int>, draws: seq<real>, inputs: nat, outputs: nat)
    returns (requests: seq<int>)
    requires IsGrid(q, inputs, outputs) && IsMatchState(a, inputs, outputs) && IsMatchState(b, inputs, outputs)
    requires IsOrder(order, inputs) && AreDraws(draws, inputs) && IsMatching(a.inMatch, a.outMatch)
    requires IsRound(policy, withoutReplacement, q, a, b, order, draws, inputs, outputs)
    ensures IsMatching(b.inMatch, b.outMatch) && KeepsPairs(a, b, inputs, outputs)
    ensures |requests| == inputs
    ensures RoundOutcome(a.now, a.inMatch, a.outMatch, requests, b.inMatch, b.outMatch, inputs, outputs)
    ensures if withoutReplacement then RejectedRemoved(a.now, requests, b.inMatch, inputs, b.now) else b.now == a.now
  {
    hide IsRound, IsMatching, KeepsPairs, RoundOutcome, BeatsEarlier, Proposed, Accepted, RejectedRemoved;
    var lastCheck;
    requests, lastCheck := ChoicesOf(policy, withoutReplacement, q, a, b, order, draws, inputs, outputs);
    ChosenRoundKeeps(policy, q, a, b, order, draws, requests, lastCheck, inputs, outputs);
  }

  /** All choices of a slot of `k` rounds, and the states between them. */
  ghost predicate IsSlot(policy: AcceptPolicy, withoutReplacement: bool, q: seq<seq<int>>, orders: seq<seq<int>>,
      draws: seq<seq<real>>, trace: seq<MatchState>, k: nat, inputs: nat, outputs: nat)
  {
    && IsLengthGrid(q, inputs, outputs) && |orders| == k && AreChoices(orders, draws, inputs) && |trace| == k + 1
    && IsTrace(policy, withoutReplacement, q, trace, orders, draws, inputs, outputs)
  }

  /** Without replacement, every round exhausts an unmatched input or removes one more of its queues. */
  lemma {:induction false} TraceAdvances(policy: AcceptPolicy, q: seq<seq<int>>, orders: seq<seq<int>>,
      draws: seq<seq<real>>, trace: seq<MatchState>, k: nat, it: nat, inputs: nat, outputs: nat)
    requires inputs > 0 && IsSlot(policy, true, q, orders, draws, trace, k, inputs, outputs) && it <= k
    ensures IsMatchState(trace[it], inputs, outputs) && IsMatching(trace[it].inMatch, trace[it].outMatch)
    ensures IsPart(trace[it].now, q)
    ensures RoundsDone(q, trace[it].now, trace[it].inMatch, trace[it].outMatch, it, inputs, outputs)
  {
    if it > 0 {
      TraceAdvances(policy, q, orders, draws, trace, k, it - 1, inputs, outputs);
      var a, b := trace[it - 1], trace[it];
      assert RoundAt(policy, true, q, trace, it - 1, orders[it - 1], draws[it - 1], inputs, outputs);
      StepAdvances(policy, q, a, b, orders[it - 1], draws[it - 1], it - 1, inputs, outputs);
    }
  }

  lemma StepAdvances(policy: AcceptPolicy, q: seq<seq<int>>, a: MatchState, b: MatchState, order: seq<int>,
      draws: seq<real>, rounds: nat, inputs: nat, outputs: nat)
    requires IsLengthGrid(q, inputs, outputs) && IsMatchState(a, inputs, outputs) && IsMatchState(b, inputs, outputs)
    requires IsOrder(order, inputs) && AreDraws(draws, inputs) && IsMatching(a.inMatch, a.outMatch) && IsPart(a.now, q)
    requires RoundsDone(q, a.now, a.inMatch, a.outMatch, rounds, inputs, outputs)
    requires IsRound(policy, true, q, a, b, order, draws, inputs, outputs)
    ensures IsMatching(b.inMatch, b.outMatch) && IsPart(b.now, q)
    ensures RoundsDone(q, b.now, b.inMatch, b.outMatch, rounds + 1, inputs, outputs)
  {
    hide IsRound;
    var requests := RoundKeeps(policy, true, q, a, b, order, draws, inputs, outputs);
    RoundAdvances(q, a.now, a.inMatch, a.outMatch, requests, b.now, b.inMatch, b.outMatch, rounds, inputs, outputs);
  }

  /** After a round on all queues, an unmatched input with a packet has proposed to an output that is matched. */
  lemma OneRoundDecides(q: seq<seq<int>>, a: MatchState, requests: seq<int>, b: MatchState, inputs: nat, outputs: nat)
    requires IsGrid(q, inputs, outputs) && IsMatchState(a, inputs, outputs) && IsMatchState(b, inputs, outputs)
    requires |requests| == inputs && a.now == q && IsMatching(b.inMatch, b.outMatch)
    requires RoundOutcome(a.now, a.inMatch, a.outMatch, requests, b.inMatch, b.outMatch, inputs, outputs)
    requires inputs == 1 || outputs == 1
    ensures IsMaximal(b.inMatch, b.outMatch, NonEmpty(q))
  {
    forall s, d | 0 <= s < inputs && 0 <= d < outputs && q[s][d] > 0
      ensures b.inMatch[s] != UNMATCHED || b.outMatch[d] != UNMATCHED
    {
      if a.inMatch[s] == UNMATCHED {
        assert requests[s] != UNMATCHED;
        assert b.outMatch[requests[s]] != UNMATCHED;
      }
    }
  }

  /** With a single port on one side, the first round decides; later rounds keep what it did. */
  lemma {:induction false} FirstRoundDecides(policy: AcceptPolicy, q: seq<seq<int>>, orders: seq<seq<int>>,
      draws: seq<seq<real>>, trace: seq<MatchState>, k: nat, it: nat, inputs: nat, outputs: nat)
    requires IsSlot(policy, false, q, orders, draws, trace, k, inputs, outputs) && it <= k
    requires (inputs == 1 && outputs > 0) || (outputs == 1 && inputs > 0)
    ensures IsMatchState(trace[it], inputs, outputs) && IsMatching(trace[it].inMatch, trace[it].outMatch)
    ensures trace[it].now == q && (it > 0 ==> IsMaximal(trace[it].inMatch, trace[it].outMatch, NonEmpty(q)))
  {
    if it > 0 {
      FirstRoundDecides(policy, q, orders, draws, trace, k, it - 1, inputs, outputs);
      var a, b := trace[it - 1], trace[it];
      assert RoundAt(policy, false, q, trace, it - 1, orders[it - 1], draws[it - 1], inputs, outputs);
      hide IsRound, RoundOutcome, IsMaximal;
      var requests := RoundKeeps(policy, false, q, a, b, orders[it - 1], draws[it - 1], inputs, outputs);
      OneRoundDecides(q, a, requests, b, inputs, outputs);
    }
  }

  // The worst case

  function Ones(inputs: nat, outputs: nat): (r: seq<seq<int>>)
    ensures IsGrid(r, inputs, outputs) && forall s, d :: 0 <= s < inputs && 0 <= d < outputs ==> r[s][d] == 1
  {
    Fill(inputs, Fill(outputs, 1))
  }

  function Identity(n: nat): (r: seq<int>)
    ensures |r| == n && forall i :: 0 <= i < n ==> r[i] == i
  {
    seq(n, i requires 0 <= i < n => i)
  }

  lemma IdentityIsOrder(n: nat)
    ensures IsOrder(Identity(n), n) && AreDraws(Fill(n, 0.0), n)
  {
    forall s | 0 <= s < n
      ensures s in Identity(n)
    {
      assert Identity(n)[s] == s;
    }
  }

  /** The first `k` ports matched to each other. */
  function DiagonalMatch(n: nat, k: nat): (r: seq<int>)
    ensures |r| == n && forall i :: 0 <= i < n ==> r[i] == if i < k then i else UNMATCHED
  {
    seq(n, i requires 0 <= i < n => if i < k then i else UNMATCHED)
  }

  /** Input `s` has lost one queue per round it was rejected in. */
  function LostRow(outputs: nat, s: nat, k: nat): (r: seq<int>)
    ensures |r| == outputs && forall d :: 0 <= d < outputs ==> r[d] == if d < s && d < k then 0 else 1
  {
    seq(outputs, d requires 0 <= d < outputs => if d < s && d < k then 0 else 1)
  }

  function LostQueues(inputs: nat, outputs: nat, k: nat): (r: seq<seq<int>>)
    ensures IsGrid(r, inputs, outputs) && forall s :: 0 <= s < inputs ==> r[s] == LostRow(outputs, s, k)
  {
    seq(inputs, s requires 0 <= s < inputs => LostRow(outputs, s, k))
  }

  /** The state after `k` rounds without replacement when every draw is 0. */
  function Worst(inputs: nat, outputs: nat, k: nat): (r: MatchState)
    ensures IsMatchState(r, inputs, outputs)
  {
    MatchState(DiagonalMatch(inputs, k), DiagonalMatch(outputs, k), LostQueues(inputs, outputs, k))
  }

  /** A draw of 0 samples the first nonempty queue. */
  lemma ZeroDrawSamplesFirst(row: seq<int>, d: nat)
    requires d < |row| && row[d] > 0 && forall x :: 0 <= x < d ==> row[x] == 0
    ensures SampledBy(row, 0.0, d)
  {
    SumZeros(row[..d]);
    SumPrefixStep(row, d);
    ZeroScaled(Sum(row));
    hide Scaled;
    assert SampledBy(row, 0.0, d);
  }

  lemma ZeroScaled(total: int)
    ensures Scaled(0.0, total) == 0.0
  {
  }

  /** All free inputs propose to output `k`, which keeps the first of them. */
  function WorstRequests(inputs: nat, k: nat): (r: seq<int>)
    ensures |r| == inputs && forall s :: 0 <= s < inputs ==> r[s] == if s < k then UNMATCHED else k
  {
    seq(inputs, s requires 0 <= s < inputs => if s < k then UNMATCHED else k)
  }

  function WorstCheck(outputs: nat, k: nat): (r: seq<int>)
    ensures |r| == outputs && forall d :: 0 <= d < outputs ==> r[d] == if d == k then k else UNMATCHED
  {
    seq(outputs, d requires 0 <= d < outputs => if d == k then k else UNMATCHED)
  }

  lemma WorstBeatsEarlier(policy: AcceptPolicy, inputs: nat, outputs: nat, k: nat)
    requires k < inputs && k < outputs
    ensures AreInputs(Identity(inputs), inputs)
    ensures BeatsEarlier(policy, Ones(inputs, outputs), Identity(inputs), WorstRequests(inputs, k),
                         WorstCheck(outputs, k), inputs, outputs)
  {
    hide Ones, Identity, WorstRequests, WorstCheck, Beats;
  }

  /** No proposal to output `k` beats that of the first free input. */
  lemma FirstIsNotBeaten(policy: AcceptPolicy, inputs: nat, outputs: nat, k: nat, s: nat)
    requires k <= s < inputs && k < outputs
    ensures !Beats(policy, Ones(inputs, outputs), k, s, k)
  {
  }

  lemma WorstProposed(policy: AcceptPolicy, inputs: nat, outputs: nat, k: nat)
    requires k < inputs && k < outputs
    ensures var a := Worst(inputs, outputs, k);
            Proposed(policy, Ones(inputs, outputs), a.now, Fill(inputs, 0.0), a.inMatch, a.outMatch, Identity(inputs),
                     WorstRequests(inputs, k), WorstCheck(outputs, k), inputs, outputs)
  {
    hide Ones, Identity, DiagonalMatch, LostRow, LostQueues, WorstRequests, WorstCheck, SampledBy, Exhausted, Beats;
    var now, requests := LostQueues(inputs, outputs, k), WorstRequests(inputs, k);
    forall s | 0 <= s < inputs && requests[s] != UNMATCHED
      ensures s in Identity(inputs) && now[s][k] > 0 && SampledBy(now[s], 0.0, k)
      ensures !Beats(policy, Ones(inputs, outputs), k, s, k)
    {
      assert Identity(inputs)[s] == s;
      ZeroDrawSamplesFirst(now[s], k);
      FirstIsNotBeaten(policy, inputs, outputs, k, s);
    }
  }

  lemma WorstAccepted(inputs: nat, outputs: nat, k: nat)
    requires k < inputs && k < outputs
    ensures var a, b := Worst(inputs, outputs, k), Worst(inputs, outputs, k + 1);
            && Accepted(WorstRequests(inputs, k), WorstCheck(outputs, k), a.inMatch, a.outMatch, outputs, b.inMatch,
                        b.outMatch)
            && RejectedRemoved(a.now, WorstRequests(inputs, k), b.inMatch, inputs, b.now)
  {
    hide DiagonalMatch, LostRow, LostQueues, WorstRequests, WorstCheck;
    var a, b := Worst(inputs, outputs, k), Worst(inputs, outputs, k + 1);
    var requests := WorstRequests(inputs, k);
    forall s | 0 <= s < inputs
      ensures b.now[s] == if s < inputs && b.inMatch[s] == UNMATCHED && 0 <= requests[s] < outputs
                          then a.now[s][requests[s] := 0] else a.now[s]
    {
      assert if s > k then b.now[s] == a.now[s][k := 0] else b.now[s] == a.now[s];
    }
  }

  lemma WorstRound(policy: AcceptPolicy, inputs: nat, outputs: nat, k: nat)
    requires k < inputs && k < outputs
    ensures AreInputs(Identity(inputs), inputs)
    ensures IsRound(policy, true, Ones(inputs, outputs), Worst(inputs, outputs, k), Worst(inputs, outputs, k + 1),
                    Identity(inputs), Fill(inputs, 0.0), inputs, outputs)
  {
    WorstProposed(policy, inputs, outputs, k);
    WorstBeatsEarlier(policy, inputs, outputs, k);
    WorstAccepted(inputs, outputs, k);
    hide Proposed, BeatsEarlier, Accepted, RejectedRemoved, Worst;
  }

  /** The states of `k` rounds of the worst case. */
  function WorstTrace(inputs: nat, outputs: nat, k: nat): (r: seq<MatchState>)
    ensures |r| == k + 1 && forall it :: 0 <= it <= k ==> r[it] == Worst(inputs, outputs, it)
  {
    seq(k + 1, it requires 0 <= it => Worst(inputs, outputs, it))
  }

  lemma ConstantChoices(inputs: nat, k: nat)
    ensures AreChoices(Fill(k, Identity(inputs)), Fill(k, Fill(inputs, 0.0)), inputs)
  {
    IdentityIsOrder(inputs);
    hide IsOrder, AreDraws;
  }

  lemma WorstTraceIsSlot(policy: AcceptPolicy, inputs: nat, outputs: nat, k: nat)
    requires k <= inputs && k <= outputs
    ensures IsSlot(policy, true, Ones(inputs, outputs), Fill(k, Identity(inputs)), Fill(k, Fill(inputs, 0.0)),
                   WorstTrace(inputs, outputs, k), k, inputs, outputs)
  {
    var trace := WorstTrace(inputs, outputs, k);
    ConstantChoices(inputs, k);
    WorstStart(inputs, outputs);
    IdentityIsOrder(inputs);
    hide IsRound, Worst, Ones, IsOrder, AreDraws;
    forall it | 0 <= it < k
      ensures RoundAt(policy, true, Ones(inputs, outputs), trace, it, Identity(inputs), Fill(inputs, 0.0), inputs,
                      outputs)
    {
      WorstRound(policy, inputs, outputs, it);
    }
  }

  lemma WorstStart(inputs: nat, outputs: nat)
    ensures Worst(inputs, outputs, 0) == StartOf(Ones(inputs, outputs), inputs, outputs)
    ensures IsLengthGrid(Ones(inputs, outputs), inputs, outputs)
  {
    GridsEqual(LostQueues(inputs, outputs, 0), Ones(inputs, outputs));
    assert DiagonalMatch(inputs, 0) == Fill(inputs, UNMATCHED) && DiagonalMatch(outputs, 0) == Fill(outputs, UNMATCHED);
  }

  // With replacement

  /** The first pair matched, nothing removed. */
  function Stuck(inputs: nat, outputs: nat, k: nat): (r: MatchState)
    ensures IsMatchState(r, inputs, outputs)
  {
    var size := if k == 0 then 0 else 1;
    MatchState(DiagonalMatch(inputs, size), DiagonalMatch(outputs, size), Ones(inputs, outputs))
  }

  /** Once output 0 is matched, all free inputs keep proposing to it. */
  function StuckRequests(inputs: nat): (r: seq<int>)
    ensures |r| == inputs && forall s :: 0 <= s < inputs ==> r[s] == if s == 0 then UNMATCHED else 0
  {
    seq(inputs, s requires 0 <= s < inputs => if s == 0 then UNMATCHED else 0)
  }

  lemma StuckRound(policy: AcceptPolicy, inputs: nat, outputs: nat, k: nat)
    requires inputs > 0 && outputs > 0
    ensures AreInputs(Identity(inputs), inputs)
    ensures IsRound(policy, false, Ones(inputs, outputs), Stuck(inputs, outputs, k), Stuck(inputs, outputs, k + 1),
                    Identity(inputs), Fill(inputs, 0.0), inputs, outputs)
  {
    if k == 0 {
      WorstProposed(policy, inputs, outputs, 0);
      WorstBeatsEarlier(policy, inputs, outputs, 0);
      WorstAccepted(inputs, outputs, 0);
      WorstStart(inputs, outputs);
      hide Proposed, BeatsEarlier, Accepted, RejectedRemoved;
      assert Stuck(inputs, outputs, 0) == Worst(inputs, outputs, 0);
      assert Stuck(inputs, outputs, 1).inMatch == Worst(inputs, outputs, 1).inMatch;
      assert Stuck(inputs, outputs, 1).outMatch == Worst(inputs, outputs, 1).outMatch;
    } else {
      StuckProposed(policy, inputs, outputs, k);
      hide Proposed, BeatsEarlier;
      assert Accepted(StuckRequests(inputs), Fill(outputs, UNMATCHED), Stuck(inputs, outputs, k).inMatch,
                      Stuck(inputs, outputs, k).outMatch, outputs, Stuck(inputs, outputs, k + 1).inMatch,
                      Stuck(inputs, outputs, k + 1).outMatch);
    }
  }

  lemma StuckProposed(policy: AcceptPolicy, inputs: nat, outputs: nat, k: nat)
    requires inputs > 0 && outputs > 0 && k > 0
    ensures var a := Stuck(inputs, outputs, k);
            Proposed(policy, Ones(inputs, outputs), a.now, Fill(inputs, 0.0), a.inMatch, a.outMatch, Identity(inputs),
                     StuckRequests(inputs), Fill(outputs, UNMATCHED), inputs, outputs)
    ensures BeatsEarlier(policy, Ones(inputs, outputs), Identity(inputs), StuckRequests(inputs),
                         Fill(outputs, UNMATCHED), inputs, outputs)
  {
    hide Ones, Identity, DiagonalMatch, StuckRequests, SampledBy;
    var a := Stuck(inputs, outputs, k);
    forall s | 0 <= s < inputs
      ensures s in Identity(inputs) && a.now[s][0] == 1 && SampledBy(a.now[s], 0.0, 0)
    {
      assert Identity(inputs)[s] == s;
      ZeroDrawSamplesFirst(a.now[s], 0);
    }
  }

  function StuckTrace(inputs: nat, outputs: nat, k: nat): (r: seq<MatchState>)
    ensures |r| == k + 1 && forall it :: 0 <= it <= k ==> r[it] == Stuck(inputs, outputs, it)
  {
    seq(k + 1, it requires 0 <= it => Stuck(inputs, outputs, it))
  }

  lemma StuckTraceIsSlot(policy: AcceptPolicy, inputs: nat, outputs: nat, k: nat)
    requires inputs > 0 && outputs > 0
    ensures IsSlot(policy, false, Ones(inputs, outputs), Fill(k, Identity(inputs)), Fill(k, Fill(inputs, 0.0)),
                   StuckTrace(inputs, outputs, k), k, inputs, outputs)
  {
    var trace := StuckTrace(inputs, outputs, k);
    ConstantChoices(inputs, k);
    WorstStart(inputs, outputs);
    assert Stuck(inputs, outputs, 0) == StartOf(Ones(inputs, outputs), inputs, outputs);
    IdentityIsOrder(inputs);
    hide IsRound, Stuck, Ones, IsOrder, AreDraws;
    forall it | 0 <= it < k
      ensures RoundAt(policy, false, Ones(inputs, outputs), trace, it, Identity(inputs), Fill(inputs, 0.0), inputs,
                      outputs)
    {
      StuckRound(policy, inputs, outputs, it);
    }
  }

  // How many rounds are enough

  /** `k` rounds end in a maximal matching for all lengths, orders and draws. */
  ghost predicate Enough(policy: AcceptPolicy, withoutReplacement: bool, k: nat, inputs: nat, outputs: nat) {
    forall q: seq<seq<int>>, orders, draws, trace: seq<MatchState> ::
      IsSlot(policy, withoutReplacement, q, orders, draws, trace, k, inputs, outputs) ==> EndsMaximal(q, trace[k])
  }

  ghost predicate EndsMaximal(q: seq<seq<int>>, end: MatchState) {
    && IsGrid(q, |end.inMatch|, |end.outMatch|)
    && IsMaximal(end.inMatch, end.outMatch, NonEmpty(q))
  }

  /** Without replacement, enough rounds are exactly as many as the smaller side has ports. */
  lemma EnoughIff(policy: AcceptPolicy, k: nat, inputs: nat, outputs: nat)
    requires inputs > 0 && outputs > 0
    ensures Enough(policy, true, k, inputs, outputs) <==> k >= inputs || k >= outputs
  {
    if k >= inputs || k >= outputs {
      forall q: seq<seq<int>>, orders, draws, trace: seq<MatchState>
        | IsSlot(policy, true, q, orders, draws, trace, k, inputs, outputs)
        ensures EndsMaximal(q, trace[k])
      {
        TraceAdvances(policy, q, orders, draws, trace, k, k, inputs, outputs);
        RoundsSuffice(q, trace[k].now, trace[k].inMatch, trace[k].outMatch, k, inputs, outputs);
      }
    } else {
      WorstTraceIsSlot(policy, inputs, outputs, k);
      hide IsSlot;
      var end := WorstTrace(inputs, outputs, k)[k];
      assert end.inMatch[k] == UNMATCHED && end.outMatch[k] == UNMATCHED && NonEmpty(Ones(inputs, outputs))[k][k];
      assert !EndsMaximal(Ones(inputs, outputs), end);
    }
  }

  /** With replacement, any positive number of rounds is enough when one side has a single port, and none otherwise. */
  lemma EnoughWithReplacementIff(policy: AcceptPolicy, k: nat, inputs: nat, outputs: nat)
    requires inputs > 0 && outputs > 0
    ensures Enough(policy, false, k, inputs, outputs) <==> k > 0 && (inputs == 1 || outputs == 1)
  {
    if k > 0 && (inputs == 1 || outputs == 1) {
      forall q: seq<seq<int>>, orders, draws, trace: seq<MatchState>
        | IsSlot(policy, false, q, orders, draws, trace, k, inputs, outputs)
        ensures EndsMaximal(q, trace[k])
      {
        FirstRoundDecides(policy, q, orders, draws, trace, k, k, inputs, outputs);
      }
    } else {
      StuckTraceIsSlot(policy, inputs, outputs, k);
      hide IsSlot;
      var end := StuckTrace(inputs, outputs, k)[k];
      var free := if k == 0 then 0 else 1;
      assert end.inMatch[free] == UNMATCHED && end.outMatch[free] == UNMATCHED;
      assert NonEmpty(Ones(inputs, outputs))[free][free];
      assert !EndsMaximal(Ones(inputs, outputs), end);
    }
  }
}
