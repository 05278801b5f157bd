/**
 How many iterations iSLIP needs: with pointers at 0 and every queue nonempty, each iteration matches the
 next pair of the diagonal and no other, so fewer iterations than the smaller side has ports fall short.
 */
module ISlipTightness {
  import opened ISlipSpec
  import opened Matchings
  import opened RoundRobin
  import opened Sums

  /** Every queue is nonempty. */
  function AllRequests(inputs: nat, outputs: nat): (r: seq<seq<bool>>)
    ensures IsGrid(r, inputs, outputs) && forall i, o :: 0 <= i < inputs && 0 <= o < outputs ==> r[i][o]
  {
    Fill(inputs, Fill(outputs, true))
  }

  /** Exactly the first `k` pairs of the diagonal are matched, and the pointers of the other ports are 0. */
  ghost predicate Diagonal(s: State, k: nat) {
    && s.Valid() && k <= s.Inputs() && k <= s.Outputs()
    && (forall i :: 0 <= i < s.Inputs() ==> s.inMatch[i] == if i < k then i else UNMATCHED)
    && (forall o :: 0 <= o < s.Outputs() ==> s.outMatch[o] == if o < k then o else UNMATCHED)
    && (forall o :: k <= o < s.Outputs() ==> s.grant[o] == 0)
    && (forall i :: k <= i < s.Inputs() ==> s.accept[i] == 0)
  }

  /** A scan from port 0 finds the first of the eligible ports from `k` on. */
  lemma ScanFindsFirst(eligible: seq<bool>, pointer: int, k: nat)
    requires k < |eligible| && pointer == 0 && forall x :: 0 <= x < |eligible| ==> eligible[x] == (x >= k)
    ensures FirstFrom(eligible, pointer % |eligible|, 0) == k
  {
    assert 0 % |eligible| == 0;
    FirstFromIsNearest(eligible, 0, 0);
    assert Distance(0, k, |eligible|) == k;
  }

  lemma ScanFindsNone(eligible: seq<bool>, p: nat)
    requires p < |eligible| && forall x :: 0 <= x < |eligible| ==> !eligible[x]
    ensures FirstFrom(eligible, p, 0) == -1
  {
  }

  /** All free outputs grant the first free input. */
  lemma DiagonalGrants(s: State, k: nat, o: nat)
    requires Diagonal(s, k) && k < s.Inputs() && k < s.Outputs() && o < s.Outputs()
    ensures Checks(s, AllRequests(s.Inputs(), s.Outputs()))[o] == if o < k then UNMATCHED else k
  {
    hide AllRequests, FirstFrom;
    var status := AllRequests(s.Inputs(), s.Outputs());
    GrantAt(s, status, s.Outputs(), o);
    if o >= k {
      ScanFindsFirst(Requesting(s, status, o), s.grant[o], k);
    }
  }

  /** The first free input accepts the first free output, and no other input is granted anything. */
  lemma DiagonalAccepts(s: State, check: seq<int>, k: nat, i: nat)
    requires Diagonal(s, k) && k < s.Inputs() && k < s.Outputs() && i < s.Inputs() && |check| == s.Outputs()
    requires forall o :: 0 <= o < s.Outputs() ==> check[o] == if o < k then UNMATCHED else k
    ensures Accepts(s, check, s.Inputs())[i] == if i == k then k else UNMATCHED
  {
    hide FirstFrom;
    AcceptAt(s, check, s.Inputs(), i);
    if i == k {
      ScanFindsFirst(Granting(check, i), s.accept[i], k);
    } else if i > k {
      ModBelow(s.accept[i], s.Outputs());
      ScanFindsNone(Granting(check, i), s.accept[i] % s.Outputs());
    }
  }

  lemma ModBelow(x: nat, n: nat)
    requires n > 0
    ensures 0 <= x % n < n
  {
  }

  /** One iteration matches the next pair of the diagonal. */
  lemma DiagonalGrows(s: State, k: nat, first: bool)
    requires Diagonal(s, k) && k < s.Inputs() && k < s.Outputs()
    ensures var r := Iterate(s, AllRequests(s.Inputs(), s.Outputs()), first);
            Diagonal(r, k + 1) && r.Inputs() == s.Inputs() && r.Outputs() == s.Outputs()
  {
    hide AllRequests, Checks, Accepts, AcceptedBelow;
    var n, m := s.Inputs(), s.Outputs();
    var check := Checks(s, AllRequests(n, m));
    ChecksLength(s, AllRequests(n, m));
    forall o | 0 <= o < m
      ensures check[o] == if o < k then UNMATCHED else k
    {
      DiagonalGrants(s, k, o);
    }
    var acc := Accepts(s, check, n);
    forall i | 0 <= i < n
      ensures acc[i] == if i == k then k else UNMATCHED
    {
      DiagonalAccepts(s, check, k, i);
    }
    DiagonalAccepted(s, check, acc, k, first);
  }

  lemma ChecksLength(s: State, status: seq<seq<bool>>)
    requires s.Valid() && IsGrid(status, s.Inputs(), s.Outputs())
    ensures |Checks(s, status)| == s.Outputs()
  {
  }

  lemma DiagonalAccepted(s: State, check: seq<int>, acc: seq<int>, k: nat, first: bool)
    requires Diagonal(s, k) && k < s.Inputs() && k < s.Outputs() && |check| == s.Outputs() && |acc| == s.Inputs()
    requires forall o :: 0 <= o < s.Outputs() ==> check[o] == if o < k then UNMATCHED else k
    requires forall i :: 0 <= i < s.Inputs() ==> acc[i] == if i == k then k else UNMATCHED
    ensures InPorts(acc, s.Inputs(), s.Outputs()) && Diagonal(AcceptedBelow(s, acc, first, s.Inputs()), k + 1)
  {
    hide AcceptedBelow;
    AcceptedAtOnce(s, check, acc, first, s.Inputs());
    ProperKeepsMatching(s, check, acc, first);
    assert forall o :: 0 <= o < s.Outputs() ==> (Won(check, acc, o, s.Inputs()) <==> o == k);
  }

  lemma {:induction false} AfterDiagonal(inputs: nat, outputs: nat, k: nat)
    requires inputs > 0 && outputs > 0 && k <= inputs && k <= outputs
    ensures var s, status := Unmatched(Fill(outputs, 0), Fill(inputs, 0)), AllRequests(inputs, outputs);
            && s.Valid() && IsGrid(status, s.Inputs(), s.Outputs()) && MatchesRequests(s, status)
            && s.Inputs() == inputs && s.Outputs() == outputs && Diagonal(AfterIterations(s, status, k), k)
  {
    hide AllRequests, Iterate;
    var s, status := Unmatched(Fill(outputs, 0), Fill(inputs, 0)), AllRequests(inputs, outputs);
    if k > 0 {
      AfterDiagonal(inputs, outputs, k - 1);
      DiagonalGrows(AfterIterations(s, status, k - 1), k - 1, k == 1);
    }
  }

  /** With fewer iterations than the smaller side has ports, the next pair of the diagonal is left out. */
  lemma FewerIterationsFallShort(inputs: nat, outputs: nat, k: nat)
    requires k < inputs && k < outputs
    ensures !EndsMaximal(Fill(outputs, 0), Fill(inputs, 0), AllRequests(inputs, outputs), inputs, outputs, k)
  {
    AfterDiagonal(inputs, outputs, k);
    var s, status := Unmatched(Fill(outputs, 0), Fill(inputs, 0)), AllRequests(inputs, outputs);
    var r := AfterIterations(s, status, k);
    assert r.inMatch[k] == UNMATCHED && r.outMatch[k] == UNMATCHED && status[k][k];
  }

  ghost predicate ArePointers(pointers: seq<int>, n: nat) {
    |pointers| == n && forall i :: 0 <= i < n ==> pointers[i] >= 0
  }

  /** From an empty matching with these pointers and queues, `k` iterations end in a maximal matching. */
  ghost predicate EndsMaximal(grant: seq<int>, accept: seq<int>, status: seq<seq<bool>>, inputs: nat, outputs: nat,
      k: nat)
    requires inputs > 0 && outputs > 0 && IsGrid(status, inputs, outputs)
    requires ArePointers(grant, outputs) && ArePointers(accept, inputs)
  {
    var r := AfterIterations(Unmatched(grant, accept), status, k);
    IsMaximal(r.inMatch, r.outMatch, status)
  }

  /** `k` iterations are enough for all pointers and queues. */
  ghost predicate Enough(inputs: nat, outputs: nat, k: nat)
    requires inputs > 0 && outputs > 0
  {
    forall grant, accept, status ::
      ArePointers(grant, outputs) && ArePointers(accept, inputs) && IsGrid(status, inputs, outputs) ==>
        EndsMaximal(grant, accept, status, inputs, outputs, k)
  }

  /** The number of iterations that is enough is exactly the number of ports of the smaller side. */
  lemma EnoughIff(inputs: nat, outputs: nat, k: nat)
    requires inputs > 0 && outputs > 0
    ensures Enough(inputs, outputs, k) <==> k >= inputs || k >= outputs
  {
    if k >= inputs || k >= outputs {
      forall grant, accept, status |
        ArePointers(grant, outputs) && ArePointers(accept, inputs) && IsGrid(status, inputs, outputs)
        ensures EndsMaximal(grant, accept, status, inputs, outputs, k)
      {
        Converges(Unmatched(grant, accept), status, k);
      }
    } else {
      FewerIterationsFallShort(inputs, outputs, k);
    }
  }
}
