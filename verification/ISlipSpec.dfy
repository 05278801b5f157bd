/**
 What one slot of iSLIP computes, as functions of the pointers and the queue status, and the
 matching it ends with. Class `ISlip.Scheduler` is proved against these functions.
 */
module ISlipSpec {
  import opened Matchings
  import opened RoundRobin
  import opened Sums

  datatype State = State(inMatch: seq<int>, outMatch: seq<int>, grant: seq<int>, accept: seq<int>) {
    function Inputs(): nat { |inMatch| }
    function Outputs(): nat { |outMatch| }

    ghost predicate Valid() {
      && |inMatch| > 0 && |outMatch| > 0
      && |grant| == |outMatch| && |accept| == |inMatch|
      && (forall o :: 0 <= o < |grant| ==> grant[o] >= 0)
      && (forall i :: 0 <= i < |accept| ==> accept[i] >= 0)
      && IsMatching(inMatch, outMatch)
    }
  }

  /** Nothing matched yet, with the given pointers. */
  function Unmatched(grant: seq<int>, accept: seq<int>): State {
    State(Fill(|accept|, UNMATCHED), Fill(|grant|, UNMATCHED), grant, accept)
  }

  /** The inputs that request output `o` and are still unmatched. */
  function Requesting(s: State, status: seq<seq<bool>>, o: nat): (r: seq<bool>)
    requires IsGrid(status, s.Inputs(), s.Outputs()) && o < s.Outputs()
    ensures |r| == s.Inputs()
    ensures forall i :: 0 <= i < |r| ==> r[i] == (s.inMatch[i] == UNMATCHED && status[i][o])
  {
    seq(s.Inputs(), i requires 0 <= i < s.Inputs() => s.inMatch[i] == UNMATCHED && status[i][o])
  }

  /** The input output `o` grants: the requesting one nearest after its grant pointer. */
  function GrantOf(s: State, status: seq<seq<bool>>, o: nat): int
    requires s.Valid() && IsGrid(status, s.Inputs(), s.Outputs()) && o < s.Outputs()
  {
    if s.outMatch[o] != UNMATCHED then UNMATCHED
    else FirstFrom(Requesting(s, status, o), s.grant[o] % s.Inputs(), 0)
  }

  /** The grants of the outputs below `k`. */
  function Grants(s: State, status: seq<seq<bool>>, k: nat): (r: seq<int>)
    requires s.Valid() && IsGrid(status, s.Inputs(), s.Outputs()) && k <= s.Outputs()
    ensures |r| == k
  {
    if k == 0 then [] else Grants(s, status, k - 1) + [GrantOf(s, status, k - 1)]
  }

  lemma {:induction false} GrantAt(s: State, status: seq<seq<bool>>, k: nat, o: nat)
    requires s.Valid() && IsGrid(status, s.Inputs(), s.Outputs()) && o < k <= s.Outputs()
    ensures Grants(s, status, k)[o] == GrantOf(s, status, o)
  {
    if o < k - 1 {
      GrantAt(s, status, k - 1, o);
    }
  }

  /** The outputs that grant input `i`. */
  function Granting(check: seq<int>, i: nat): (r: seq<bool>)
    ensures |r| == |check|
    ensures forall o :: 0 <= o < |r| ==> r[o] == (check[o] == i)
  {
    seq(|check|, o requires 0 <= o < |check| => check[o] == i)
  }

  /** The output input `i` accepts: the granting one nearest after its accept pointer. */
  function AcceptOf(s: State, check: seq<int>, i: nat): int
    requires s.Valid() && |check| == s.Outputs() && i < s.Inputs()
  {
    if s.inMatch[i] != UNMATCHED then UNMATCHED
    else FirstFrom(Granting(check, i), s.accept[i] % s.Outputs(), 0)
  }

  /** The outputs accepted by the inputs below `k`. */
  function Accepts(s: State, check: seq<int>, k: nat): (r: seq<int>)
    requires s.Valid() && |check| == s.Outputs() && k <= s.Inputs()
    ensures |r| == k && InPorts(r, k, s.Outputs())
  {
    if k == 0 then [] else Accepts(s, check, k - 1) + [AcceptOf(s, check, k - 1)]
  }

  lemma {:induction false} AcceptAt(s: State, check: seq<int>, k: nat, i: nat)
    requires s.Valid() && |check| == s.Outputs() && i < k <= s.Inputs()
    ensures Accepts(s, check, k)[i] == AcceptOf(s, check, i)
  {
    if i < k - 1 {
      AcceptAt(s, check, k - 1, i);
    }
  }

  /** Accepted outputs are outputs, or none. */
  ghost predicate InPorts(acc: seq<int>, inputs: nat, outputs: nat) {
    |acc| == inputs && forall i :: 0 <= i < inputs ==> acc[i] == UNMATCHED || 0 <= acc[i] < outputs
  }

  /** Input `i` accepts output `a`, moving both pointers past the pair in the first iteration. */
  function AcceptStep(s: State, i: nat, a: nat, first: bool): (r: State)
    requires i < s.Inputs() == |s.accept| && a < s.Outputs() == |s.grant|
    ensures r.Inputs() == s.Inputs() == |r.accept| && r.Outputs() == s.Outputs() == |r.grant|
  {
    State(s.inMatch[i := a], s.outMatch[a := i],
          if first then s.grant[a := Next(i, s.Inputs())] else s.grant,
          if first then s.accept[i := Next(a, s.Outputs())] else s.accept)
  }

  /** The inputs below `k` accept one after the other; pointers move in the first iteration only. */
  function AcceptedBelow(s: State, acc: seq<int>, first: bool, k: nat): (r: State)
    requires |s.grant| == s.Outputs() > 0 && |s.accept| == s.Inputs() > 0
    requires InPorts(acc, s.Inputs(), s.Outputs()) && k <= s.Inputs()
    ensures r.Inputs() == s.Inputs() == |r.accept| && r.Outputs() == s.Outputs() == |r.grant|
  {
    if k == 0 then s
    else
      var p := AcceptedBelow(s, acc, first, k - 1);
      if acc[k - 1] == UNMATCHED then p else AcceptStep(p, k - 1, acc[k - 1], first)
  }

  /** Output `o` granted an input below `k` that accepted it. */
  predicate Won(check: seq<int>, acc: seq<int>, o: nat, k: nat)
    requires o < |check| && k <= |acc|
  {
    0 <= check[o] < k && acc[check[o]] == o
  }

  /** An input accepts only a free output that grants it, and only while it is free itself. */
  ghost predicate Proper(s: State, check: seq<int>, acc: seq<int>)
    requires |check| == s.Outputs() && |acc| == s.Inputs()
  {
    && InPorts(acc, s.Inputs(), s.Outputs())
    && forall i :: 0 <= i < s.Inputs() && acc[i] != UNMATCHED ==>
         check[acc[i]] == i && s.inMatch[i] == UNMATCHED && s.outMatch[acc[i]] == UNMATCHED
  }

  /** Accepting in turn amounts to accepting at once: no input's choice disturbs another's. */
  lemma {:induction false} AcceptedAtOnce(s: State, check: seq<int>, acc: seq<int>, first: bool, k: nat)
    requires |s.grant| == s.Outputs() == |check| && |s.accept| == s.Inputs() == |acc|
    requires s.Inputs() > 0 && s.Outputs() > 0 && k <= s.Inputs() && Proper(s, check, acc)
    ensures var r := AcceptedBelow(s, acc, first, k);
            && (forall i :: 0 <= i < s.Inputs() ==>
                  && r.inMatch[i] == (if i < k && acc[i] != UNMATCHED then acc[i] else s.inMatch[i])
                  && r.accept[i] == if first && i < k && acc[i] != UNMATCHED then Next(acc[i], s.Outputs())
                                    else s.accept[i])
            && (forall o :: 0 <= o < s.Outputs() ==>
                  && r.outMatch[o] == (if Won(check, acc, o, k) then check[o] else s.outMatch[o])
                  && r.grant[o] == if first && Won(check, acc, o, k) then Next(check[o], s.Inputs())
                                   else s.grant[o])
  {
    if k > 0 {
      AcceptedAtOnce(s, check, acc, first, k - 1);
    }
  }

  /** All grants of an iteration. */
  function Checks(s: State, status: seq<seq<bool>>): seq<int>
    requires s.Valid() && IsGrid(status, s.Inputs(), s.Outputs())
  {
    Grants(s, status, s.Outputs())
  }

  /** One request, grant and accept iteration. */
  function Iterate(s: State, status: seq<seq<bool>>, first: bool): (r: State)
    requires s.Valid() && IsGrid(status, s.Inputs(), s.Outputs())
    ensures r.Inputs() == s.Inputs() && r.Outputs() == s.Outputs()
  {
    AcceptedBelow(s, Accepts(s, Checks(s, status), s.Inputs()), first, s.Inputs())
  }

  /** Every matched pair is a requested one. */
  ghost predicate MatchesRequests(s: State, status: seq<seq<bool>>)
    requires IsMatching(s.inMatch, s.outMatch) && IsGrid(status, s.Inputs(), s.Outputs())
  {
    forall i :: 0 <= i < s.Inputs() && s.inMatch[i] != UNMATCHED ==> status[i][s.inMatch[i]]
  }

  /** An output grants a free input that requests it, if there is one. */
  lemma GrantsARequest(s: State, status: seq<seq<bool>>, o: nat)
    requires s.Valid() && IsGrid(status, s.Inputs(), s.Outputs()) && o < s.Outputs()
    ensures var k := Checks(s, status)[o];
            && (k != UNMATCHED ==>
                  && 0 <= k < s.Inputs() && status[k][o]
                  && s.inMatch[k] == UNMATCHED && s.outMatch[o] == UNMATCHED)
            && (s.outMatch[o] == UNMATCHED ==>
                  forall i :: 0 <= i < s.Inputs() && s.inMatch[i] == UNMATCHED && status[i][o] ==>
                    k != UNMATCHED &&
                    Distance(s.grant[o] % s.Inputs(), k, s.Inputs())
                    <= Distance(s.grant[o] % s.Inputs(), i, s.Inputs()))
  {
    GrantAt(s, status, s.Outputs(), o);
    var eligible := Requesting(s, status, o);
    FirstFromIsNearest(eligible, s.grant[o] % s.Inputs(), 0);
    forall i | 0 <= i < s.Inputs() && s.inMatch[i] == UNMATCHED && status[i][o]
      ensures eligible[i]
    {
    }
  }

  /** An input accepts only an output that grants it, and a granted input accepts the nearest such output. */
  lemma AcceptsAGrant(s: State, status: seq<seq<bool>>, i: nat)
    requires s.Valid() && IsGrid(status, s.Inputs(), s.Outputs()) && i < s.Inputs()
    ensures var check := Checks(s, status);
            var a := Accepts(s, check, s.Inputs())[i];
            && (a != UNMATCHED ==>
                  && 0 <= a < s.Outputs() && check[a] == i
                  && s.inMatch[i] == UNMATCHED && s.outMatch[a] == UNMATCHED && status[i][a])
            && (forall o :: 0 <= o < s.Outputs() && check[o] == i ==>
                  a != UNMATCHED &&
                  Distance(s.accept[i] % s.Outputs(), a, s.Outputs()) <= Distance(s.accept[i] % s.Outputs(), o,
                      s.Outputs()))
  {
    var check := Checks(s, status);
    var eligible := Granting(check, i);
    AcceptAt(s, check, s.Inputs(), i);
    FirstFromIsNearest(eligible, s.accept[i] % s.Outputs(), 0);
    forall o | 0 <= o < s.Outputs() && check[o] == i
      ensures s.inMatch[i] == UNMATCHED && s.outMatch[o] == UNMATCHED && status[i][o] && eligible[o]
    {
      GrantsARequest(s, status, o);
    }
  }

  lemma AcceptsAreProper(s: State, status: seq<seq<bool>>)
    requires s.Valid() && IsGrid(status, s.Inputs(), s.Outputs())
    ensures var check := Checks(s, status); Proper(s, check, Accepts(s, check, s.Inputs()))
  {
    forall i | 0 <= i < s.Inputs() {
      AcceptsAGrant(s, status, i);
    }
  }

  /** Accepting proper choices keeps a matching and drops no pair. */
  lemma ProperKeepsMatching(s: State, check: seq<int>, acc: seq<int>, first: bool)
    requires s.Valid() && |check| == s.Outputs() && |acc| == s.Inputs() && Proper(s, check, acc)
    ensures var r := AcceptedBelow(s, acc, first, s.Inputs());
            && r.Valid()
            && (forall i :: 0 <= i < s.Inputs() ==>
                  r.inMatch[i] == if acc[i] != UNMATCHED then acc[i] else s.inMatch[i])
            && (forall o :: 0 <= o < s.Outputs() && s.outMatch[o] != UNMATCHED ==> r.outMatch[o] == s.outMatch[o])
  {
    var r := AcceptedBelow(s, acc, first, s.Inputs());
    AcceptedAtOnce(s, check, acc, first, s.Inputs());
    forall i | 0 <= i < s.Inputs() && r.inMatch[i] != UNMATCHED
      ensures 0 <= r.inMatch[i] < s.Outputs() && r.outMatch[r.inMatch[i]] == i
    {
      if acc[i] != UNMATCHED {
        assert Won(check, acc, acc[i], s.Inputs());
      }
    }
  }

  /** An iteration keeps a matching, drops no pair, and adds requested pairs only. */
  lemma IterateKeepsMatching(s: State, status: seq<seq<bool>>, first: bool)
    requires s.Valid() && IsGrid(status, s.Inputs(), s.Outputs()) && MatchesRequests(s, status)
    ensures var r := Iterate(s, status, first);
            && r.Valid() && MatchesRequests(r, status)
            && (forall i :: 0 <= i < s.Inputs() && s.inMatch[i] != UNMATCHED ==> r.inMatch[i] == s.inMatch[i])
            && (forall o :: 0 <= o < s.Outputs() && s.outMatch[o] != UNMATCHED ==> r.outMatch[o] == s.outMatch[o])
  {
    var check := Checks(s, status);
    var acc := Accepts(s, check, s.Inputs());
    AcceptsAreProper(s, status);
    ProperKeepsMatching(s, check, acc, first);
    forall i | 0 <= i < s.Inputs() && acc[i] != UNMATCHED
      ensures status[i][acc[i]]
    {
      AcceptsAGrant(s, status, i);
    }
  }

  /** While a request joins two unmatched ports, the next iteration matches one more input. */
  lemma IterateProgress(s: State, status: seq<seq<bool>>, first: bool)
    requires s.Valid() && IsGrid(status, s.Inputs(), s.Outputs()) && MatchesRequests(s, status)
    ensures IsMaximal(s.inMatch, s.outMatch, status) || Size(Iterate(s, status, first).inMatch) > Size(s.inMatch)
  {
    IterateKeepsMatching(s, status, first);
    if i, o :| 0 <= i < s.Inputs() && 0 <= o < s.Outputs() && status[i][o] &&
               s.inMatch[i] == UNMATCHED && s.outMatch[o] == UNMATCHED {
      GrantsARequest(s, status, o);
      var check := Checks(s, status);
      var k := check[o];
      AcceptsAGrant(s, status, k);
      AcceptsAreProper(s, status);
      ProperKeepsMatching(s, check, Accepts(s, check, s.Inputs()), first);
      SizeGrows(s.inMatch, Iterate(s, status, first).inMatch);
    }
  }

  /** Nothing granted and accepted changes nothing. */
  lemma {:induction false} NothingAccepted(s: State, acc: seq<int>, first: bool, k: nat)
    requires s.Valid() && InPorts(acc, s.Inputs(), s.Outputs()) && k <= s.Inputs()
    requires forall i :: 0 <= i < |acc| ==> acc[i] == UNMATCHED
    ensures AcceptedBelow(s, acc, first, k) == s
  {
    if k > 0 {
      NothingAccepted(s, acc, first, k - 1);
    }
  }

  /** A maximal matching is exactly one that the next iteration leaves as it is. */
  lemma MaximalIffStable(s: State, status: seq<seq<bool>>, first: bool)
    requires s.Valid() && IsGrid(status, s.Inputs(), s.Outputs()) && MatchesRequests(s, status)
    ensures IsMaximal(s.inMatch, s.outMatch, status) <==> Iterate(s, status, first) == s
  {
    IterateProgress(s, status, first);
    if IsMaximal(s.inMatch, s.outMatch, status) {
      var acc := Accepts(s, Checks(s, status), s.Inputs());
      forall i | 0 <= i < s.Inputs()
        ensures acc[i] == UNMATCHED
      {
        AcceptsAGrant(s, status, i);
      }
      NothingAccepted(s, acc, first, s.Inputs());
    }
  }

  // An iteration by what it has to do

  /** Free output `o` has a request from free input `i`, and from no free input nearer ahead of its grant pointer. */
  ghost predicate IsNearestRequest(s: State, status: seq<seq<bool>>, i: nat, o: nat)
    requires s.Valid() && IsGrid(status, s.Inputs(), s.Outputs()) && i < s.Inputs() && o < s.Outputs()
  {
    && s.inMatch[i] == UNMATCHED && s.outMatch[o] == UNMATCHED && status[i][o]
    && forall k :: 0 <= k < s.Inputs() && s.inMatch[k] == UNMATCHED && status[k][o] ==>
         Distance(s.grant[o] % s.Inputs(), i, s.Inputs()) <= Distance(s.grant[o] % s.Inputs(), k, s.Inputs())
  }

  /** Among the outputs whose nearest request is from input `i`, `a` is nearest ahead of the input's accept pointer. */
  ghost predicate IsNearestGrant(s: State, status: seq<seq<bool>>, i: nat, a: int)
    requires s.Valid() && IsGrid(status, s.Inputs(), s.Outputs()) && i < s.Inputs()
  {
    && 0 <= a < s.Outputs() && IsNearestRequest(s, status, i, a)
    && forall o :: 0 <= o < s.Outputs() && IsNearestRequest(s, status, i, o) ==>
         Distance(s.accept[i] % s.Outputs(), a, s.Outputs()) <= Distance(s.accept[i] % s.Outputs(), o, s.Outputs())
  }

  /** What a free input is matched to: its nearest grant, or nothing if no output's nearest request is from it. */
  ghost predicate IsMatchOf(s: State, status: seq<seq<bool>>, i: nat, a: int)
    requires s.Valid() && IsGrid(status, s.Inputs(), s.Outputs()) && i < s.Inputs()
  {
    if a == UNMATCHED then forall o :: 0 <= o < s.Outputs() ==> !IsNearestRequest(s, status, i, o)
    else IsNearestGrant(s, status, i, a)
  }

  /**
   One iteration: pairs stay, free inputs are matched to their nearest grants, and in the first iteration both
   pointers of a new pair move to the port after the partner; no other pointer moves.
   */
  ghost predicate IsIteration(s: State, status: seq<seq<bool>>, first: bool, r: State)
    requires s.Valid() && IsGrid(status, s.Inputs(), s.Outputs())
  {
    && r.Valid() && r.Inputs() == s.Inputs() && r.Outputs() == s.Outputs()
    && (forall i :: 0 <= i < s.Inputs() && s.inMatch[i] != UNMATCHED ==> r.inMatch[i] == s.inMatch[i])
    && (forall i :: 0 <= i < s.Inputs() && s.inMatch[i] == UNMATCHED ==> IsMatchOf(s, status, i, r.inMatch[i]))
    && (forall i :: 0 <= i < s.Inputs() ==>
          r.accept[i] == if first && s.inMatch[i] == UNMATCHED && r.inMatch[i] != UNMATCHED
                         then (r.inMatch[i] + 1) % s.Outputs() else s.accept[i])
    && (forall o :: 0 <= o < s.Outputs() ==>
          r.grant[o] == if first && s.outMatch[o] == UNMATCHED && r.outMatch[o] != UNMATCHED
                        then (r.outMatch[o] + 1) % s.Inputs() else s.grant[o])
  }

  /** An output grants exactly its nearest request. */
  lemma GrantIsNearest(s: State, status: seq<seq<bool>>, i: nat, o: nat)
    requires s.Valid() && IsGrid(status, s.Inputs(), s.Outputs()) && i < s.Inputs() && o < s.Outputs()
    ensures Checks(s, status)[o] == i <==> IsNearestRequest(s, status, i, o)
  {
    hide Checks;
    GrantsARequest(s, status, o);
  }

  lemma AcceptIsNearest(s: State, status: seq<seq<bool>>, i: nat)
    requires s.Valid() && IsGrid(status, s.Inputs(), s.Outputs()) && i < s.Inputs() && s.inMatch[i] == UNMATCHED
    ensures IsMatchOf(s, status, i, Accepts(s, Checks(s, status), s.Inputs())[i])
  {
    assert |Checks(s, status)| == s.Outputs();
    hide Accepts, Checks, IsNearestRequest, Distance;
    AcceptsAGrant(s, status, i);
    forall o | 0 <= o < s.Outputs()
      ensures Checks(s, status)[o] == i <==> IsNearestRequest(s, status, i, o)
    {
      GrantIsNearest(s, status, i, o);
    }
  }

  /** The iteration computed by grants and accepts is one. */
  lemma IterateIsIteration(s: State, status: seq<seq<bool>>, first: bool)
    requires s.Valid() && IsGrid(status, s.Inputs(), s.Outputs()) && MatchesRequests(s, status)
    ensures IsIteration(s, status, first, Iterate(s, status, first))
  {
    var check := Checks(s, status);
    var acc := Accepts(s, check, s.Inputs());
    AcceptsAreProper(s, status);
    AcceptedAtOnce(s, check, acc, first, s.Inputs());
    ProperKeepsMatching(s, check, acc, first);
    forall i | 0 <= i < s.Inputs() && s.inMatch[i] == UNMATCHED
      ensures IsMatchOf(s, status, i, acc[i])
    {
      AcceptIsNearest(s, status, i);
    }
    hide IsMatchOf, Checks, Accepts, AcceptedBelow;
  }

  lemma NearestGrantIsUnique(s: State, status: seq<seq<bool>>, i: nat, a: int, b: int)
    requires s.Valid() && IsGrid(status, s.Inputs(), s.Outputs()) && i < s.Inputs()
    requires IsMatchOf(s, status, i, a) && IsMatchOf(s, status, i, b)
    ensures a == b
  {
    hide IsNearestRequest;
  }

  /** There is no other: an iteration has one result. */
  lemma IterationIsUnique(s: State, status: seq<seq<bool>>, first: bool, r: State, t: State)
    requires s.Valid() && IsGrid(status, s.Inputs(), s.Outputs())
    requires IsIteration(s, status, first, r) && IsIteration(s, status, first, t)
    ensures r == t
  {
    hide IsMatchOf;
    forall i | 0 <= i < s.Inputs()
      ensures r.inMatch[i] == t.inMatch[i]
    {
      if s.inMatch[i] == UNMATCHED {
        NearestGrantIsUnique(s, status, i, r.inMatch[i], t.inMatch[i]);
      }
    }
    assert r.inMatch == t.inMatch;
    assert r.outMatch == t.outMatch;
  }

  /** The state after `k` iterations of one slot, pointers moving in iteration 0 only. */
  function AfterIterations(s: State, status: seq<seq<bool>>, k: nat): (r: State)
    requires s.Valid() && IsGrid(status, s.Inputs(), s.Outputs()) && MatchesRequests(s, status)
    ensures r.Valid() && r.Inputs() == s.Inputs() && r.Outputs() == s.Outputs() && MatchesRequests(r, status)
    ensures forall i :: 0 <= i < s.Inputs() && s.inMatch[i] != UNMATCHED ==> r.inMatch[i] == s.inMatch[i]
  {
    if k == 0 then s
    else
      var p := AfterIterations(s, status, k - 1);
      IterateKeepsMatching(p, status, k == 1);
      Iterate(p, status, k == 1)
  }

  /** The iterations follow one another from the given state, the first of them being the one that moves pointers. */
  lemma IterationsInTurn(s: State, status: seq<seq<bool>>, k: nat)
    requires s.Valid() && IsGrid(status, s.Inputs(), s.Outputs()) && MatchesRequests(s, status)
    ensures AfterIterations(s, status, 0) == s
    ensures IsIteration(AfterIterations(s, status, k), status, k == 0, AfterIterations(s, status, k + 1))
  {
    hide IsIteration, Iterate;
    IterateIsIteration(AfterIterations(s, status, k), status, k == 0);
  }

  /** Maximal already, or at least `size` inputs matched. */
  ghost predicate Settled(s: State, status: seq<seq<bool>>, size: nat)
    requires s.Valid() && IsGrid(status, s.Inputs(), s.Outputs())
  {
    IsMaximal(s.inMatch, s.outMatch, status) || Size(s.inMatch) >= size
  }

  /** Each iteration adds a pair until the matching is maximal, and then it stays maximal. */
  lemma IterateSettles(s: State, status: seq<seq<bool>>, first: bool, size: nat)
    requires s.Valid() && IsGrid(status, s.Inputs(), s.Outputs()) && MatchesRequests(s, status)
    requires Settled(s, status, size)
    ensures Iterate(s, status, first).Valid() && Iterate(s, status, first).Inputs() == s.Inputs()
    ensures Iterate(s, status, first).Outputs() == s.Outputs()
    ensures Settled(Iterate(s, status, first), status, size + 1)
  {
    var r := Iterate(s, status, first);
    IterateKeepsMatching(s, status, first);
    if IsMaximal(s.inMatch, s.outMatch, status) {
      forall i, o | 0 <= i < s.Inputs() && 0 <= o < s.Outputs() && status[i][o]
        ensures r.inMatch[i] != UNMATCHED || r.outMatch[o] != UNMATCHED
      {
        assert s.inMatch[i] != UNMATCHED || s.outMatch[o] != UNMATCHED;
      }
    } else {
      IterateProgress(s, status, first);
    }
  }

  lemma {:induction false} IterationsSettle(s: State, status: seq<seq<bool>>, k: nat)
    requires s.Valid() && IsGrid(status, s.Inputs(), s.Outputs()) && MatchesRequests(s, status)
    ensures Settled(AfterIterations(s, status, k), status, k)
  {
    if k > 0 {
      IterationsSettle(s, status, k - 1);
      IterateSettles(AfterIterations(s, status, k - 1), status, k == 1, k - 1);
    }
  }

  /** iSLIP converges: min(inputs, outputs) iterations always give a maximal matching. */
  lemma Converges(s: State, status: seq<seq<bool>>, k: nat)
    requires s.Valid() && IsGrid(status, s.Inputs(), s.Outputs()) && MatchesRequests(s, status)
    requires k >= s.Inputs() || k >= s.Outputs()
    ensures var r := AfterIterations(s, status, k);
            IsMatching(r.inMatch, r.outMatch) && MatchesRequests(r, status) && IsMaximal(r.inMatch, r.outMatch, status)
  {
    IterationsSettle(s, status, k);
    var r := AfterIterations(s, status, k);
    if Size(r.inMatch) >= k {
      FullSizeIsMaximal(r.inMatch, r.outMatch, status);
    }
  }
}
