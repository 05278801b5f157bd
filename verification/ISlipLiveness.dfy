/**
 iSLIP starves no queue. A slot loads the arrivals, matches and lets the matched queues depart;
 under any arrivals and any number of iterations every nonempty queue is served within
 `Bound(inputs, outputs)` slots, and keeps being served at that rate until it drains.
 */
module ISlipLiveness {
  import opened ISlipSpec
  import opened Matchings
  import opened RoundRobin
  import opened Sums
  import opened Voq

  /** The scheduler's pointers and the queue lengths between two slots. */
  datatype Sys = Sys(grant: seq<int>, accept: seq<int>, lengths: seq<seq<int>>) {
    ghost predicate Valid() {
      Unmatched(grant, accept).Valid() && IsLengthGrid(lengths, |accept|, |grant|)
    }
  }

  /** The lengths the scheduler sees: the arrivals have joined, nothing has left. */
  ghost function Loaded(sys: Sys, arrivals: seq<Pair>): (r: seq<seq<int>>)
    requires sys.Valid()
    ensures IsLengthGrid(r, |sys.accept|, |sys.grant|)
  {
    SlotKeepsLengths(sys.lengths, arrivals, sys.accept, |sys.accept|, |sys.grant|);
    Enqueued(sys.lengths, arrivals)
  }

  /** The matching of a slot with the pointers it leaves. */
  ghost function Matched(sys: Sys, arrivals: seq<Pair>, iterations: nat): (r: State)
    requires sys.Valid()
    ensures r.Valid() && r.Inputs() == |sys.accept| && r.Outputs() == |sys.grant|
  {
    AfterIterations(Unmatched(sys.grant, sys.accept), NonEmpty(Loaded(sys, arrivals)), iterations)
  }

  /** One slot. */
  ghost function Slot(sys: Sys, arrivals: seq<Pair>, iterations: nat): (r: Sys)
    requires sys.Valid()
    ensures r.Valid() && |r.accept| == |sys.accept| && |r.grant| == |sys.grant|
  {
    var m := Matched(sys, arrivals, iterations);
    SlotKeepsLengths(sys.lengths, arrivals, m.inMatch, |sys.accept|, |sys.grant|);
    Sys(m.grant, m.accept, Departed(Loaded(sys, arrivals), m.inMatch))
  }

  /** Queue (i, j) is nonempty when the slot's matching is computed. */
  ghost predicate Waiting(sys: Sys, arrivals: seq<Pair>, i: nat, j: nat)
    requires sys.Valid() && i < |sys.accept| && j < |sys.grant|
  {
    Loaded(sys, arrivals)[i][j] > 0
  }

  /** Queue (i, j) sends a packet in this slot. */
  ghost predicate Serves(sys: Sys, arrivals: seq<Pair>, iterations: nat, i: nat, j: nat)
    requires sys.Valid() && i < |sys.accept| && j < |sys.grant|
  {
    Matched(sys, arrivals, iterations).inMatch[i] == j
  }

  /** The pointers of later iterations do not move, and the pairs of the first stay. */
  lemma {:induction false} PointersStay(s: State, acc: seq<int>, k: nat)
    requires |s.grant| == s.Outputs() > 0 && |s.accept| == s.Inputs() > 0
    requires InPorts(acc, s.Inputs(), s.Outputs()) && k <= s.Inputs()
    ensures AcceptedBelow(s, acc, false, k).grant == s.grant
    ensures AcceptedBelow(s, acc, false, k).accept == s.accept
  {
    if k > 0 {
      PointersStay(s, acc, k - 1);
    }
  }

  lemma {:induction false} FirstIterationStays(s: State, status: seq<seq<bool>>, k: nat)
    requires s.Valid() && IsGrid(status, s.Inputs(), s.Outputs()) && MatchesRequests(s, status) && k > 0
    ensures var r, f := AfterIterations(s, status, k), Iterate(s, status, true);
            && r.grant == f.grant && r.accept == f.accept
            && forall i :: 0 <= i < s.Inputs() && f.inMatch[i] != UNMATCHED ==> r.inMatch[i] == f.inMatch[i]
  {
    if k == 1 {
      assert AfterIterations(s, status, 0) == s;
    } else {
      FirstIterationStays(s, status, k - 1);
      var p := AfterIterations(s, status, k - 1);
      IterateKeepsMatching(p, status, false);
      PointersStay(p, Accepts(p, Checks(p, status), p.Inputs()), p.Inputs());
    }
  }

  /** What the first iteration does to output `j` and to the input it grants. */
  lemma FirstGrant(s: State, status: seq<seq<bool>>, i: nat, j: nat)
    requires s.Valid() && s == Unmatched(s.grant, s.accept) && IsGrid(status, s.Inputs(), s.Outputs())
    requires i < s.Inputs() && j < s.Outputs() && status[i][j]
    ensures var n, m := s.Inputs(), s.Outputs();
            var k := Checks(s, status)[j];
            var r := Iterate(s, status, true);
            && 0 <= k < n && status[k][j]
            && Distance(s.grant[j] % n, k, n) <= Distance(s.grant[j] % n, i, n)
            && var a := r.inMatch[k];
               && 0 <= a < m
               && (a == j ==> r.grant[j] == Next(k, n))
               && (a != j ==>
                     && r.grant[j] == s.grant[j] && r.accept[k] == Next(a, m)
                     && Distance(s.accept[k] % m, a, m) <= Distance(s.accept[k] % m, j, m))
  {
    var check := Checks(s, status);
    var acc := Accepts(s, check, s.Inputs());
    GrantsARequest(s, status, j);
    AcceptsAGrant(s, status, check[j]);
    AcceptsAreProper(s, status);
    AcceptedAtOnce(s, check, acc, true, s.Inputs());
    assert Won(check, acc, j, s.Inputs()) <==> acc[check[j]] == j;
  }

  function Triangle(a: nat): nat {
    if a == 0 then 0 else Triangle(a - 1) + a
  }

  lemma {:induction false} TriangleMonotone(a: nat, b: nat)
    requires a <= b
    ensures Triangle(a) <= Triangle(b)
  {
    if a < b {
      TriangleMonotone(a, b - 1);
    }
  }

  /** The slots within which a waiting queue is served: outputs times inputs (inputs + 1) / 2. */
  function Bound(inputs: nat, outputs: nat): nat {
    Triangle(inputs) * outputs
  }

  lemma {:induction false} TriangleClosedForm(n: nat)
    ensures 2 * Triangle(n) == n * (n + 1)
  {
    if n > 0 {
      TriangleClosedForm(n - 1);
      assert n * (n + 1) == (n - 1) * n + 2 * n;
    }
  }

  /** The bound is at most inputs squared times outputs. */
  lemma BoundIsCubic(inputs: nat, outputs: nat)
    ensures 2 * Bound(inputs, outputs) == inputs * (inputs + 1) * outputs
    ensures Bound(inputs, outputs) <= inputs * inputs * outputs
  {
    TriangleClosedForm(inputs);
    var t := Triangle(inputs);
    assert 2 * (t * outputs) == (2 * t) * outputs;
    assert t <= inputs * inputs by {
      if inputs > 0 {
        assert inputs * inputs - inputs == inputs * (inputs - 1) >= 0;
      }
    }
    MulMonotone(t, inputs * inputs, outputs);
  }

  lemma MulMonotone(x: nat, y: nat, z: nat)
    requires x <= y
    ensures x * z <= y * z
  {
    assert y * z - x * z == (y - x) * z;
  }

  /** The lexicographic rank of three distances, as one number below `Bound`. */
  function Rank(a: nat, b: nat, c: nat, m: nat): nat {
    (Triangle(a) + b) * m + c
  }

  lemma RankBelowBound(a: nat, b: nat, c: nat, n: nat, m: nat)
    requires b <= a < n && c < m
    ensures Rank(a, b, c, m) < Bound(n, m)
  {
    TriangleMonotone(a + 1, n);
    var t := Triangle(a) + b;
    assert t + 1 <= Triangle(n);
    MulMonotone(t + 1, Triangle(n), m);
    assert (t + 1) * m == t * m + m;
  }

  lemma RankDecreases(a: nat, b: nat, c: nat, a': nat, b': nat, c': nat, m: nat)
    requires b <= a && b' <= a' && c < m && c' < m
    requires a' < a || (a' == a && (b' < b || (b' == b && c' < c)))
    ensures Rank(a', b', c', m) < Rank(a, b, c, m)
  {
    if a' < a {
      TriangleMonotone(a' + 1, a);
    }
    var t, t' := Triangle(a) + b, Triangle(a') + b';
    if t' < t {
      MulMonotone(t' + 1, t, m);
      assert (t' + 1) * m == t' * m + m;
    }
  }

  /**
   How long queue (i, j) may still wait: the distance from j's grant pointer to i, then to the input
   k it grants, then from k's accept pointer to j.
   */
  ghost function Measure(s: State, status: seq<seq<bool>>, i: nat, j: nat): (r: nat)
    requires s.Valid() && s == Unmatched(s.grant, s.accept) && IsGrid(status, s.Inputs(), s.Outputs())
    requires i < s.Inputs() && j < s.Outputs() && status[i][j]
    ensures r < Bound(s.Inputs(), s.Outputs())
  {
    var n, m := s.Inputs(), s.Outputs();
    var p, k := s.grant[j] % n, Checks(s, status)[j];
    FirstGrant(s, status, i, j);
    RankBelowBound(Distance(p, i, n), Distance(p, k, n), Distance(s.accept[k] % m, j, m), n, m);
    Rank(Distance(p, i, n), Distance(p, k, n), Distance(s.accept[k] % m, j, m), m)
  }

  lemma ModOfSmall(x: nat, n: nat)
    requires x < n
    ensures x % n == x
  {
    ModUnique(x, 0, x, n);
  }

  /**
   The heart of the liveness proof: if (i, j) waits and is not served, its measure decreases,
   whatever arrives next. `s` and `t` are the pointers before and after the slot.
   */
  lemma MeasureDecreases(s: State, status: seq<seq<bool>>, t: State, status': seq<seq<bool>>, i: nat, j: nat)
    requires s.Valid() && s == Unmatched(s.grant, s.accept) && IsGrid(status, s.Inputs(), s.Outputs())
    requires t.Valid() && t == Unmatched(t.grant, t.accept) && IsGrid(status', t.Inputs(), t.Outputs())
    requires t.Inputs() == s.Inputs() && t.Outputs() == s.Outputs()
    requires i < s.Inputs() && j < s.Outputs() && status[i][j] && status'[i][j]
    requires var f := Iterate(s, status, true);
             && t.grant == f.grant && t.accept == f.accept && f.inMatch[i] != j
             && (forall k, o :: 0 <= k < s.Inputs() && 0 <= o < s.Outputs() && status[k][o] &&
                                f.inMatch[k] != UNMATCHED && f.inMatch[k] != o ==>
                   status'[k][o])
    ensures Measure(t, status', i, j) < Measure(s, status, i, j)
  {
    var n, m := s.Inputs(), s.Outputs();
    var k, k' := Checks(s, status)[j], Checks(t, status')[j];
    var p, p' := s.grant[j] % n, t.grant[j] % n;
    FirstGrant(s, status, i, j);
    FirstGrant(t, status', i, j);
    var a := Iterate(s, status, true).inMatch[k];
    if a == j {
      PointerPasses(p, k, i, n);
      ModOfSmall(Next(k, n), n);
    } else {
      PointerPasses(s.accept[k] % m, a, j, m);
      ModOfSmall(Next(a, m), m);
      FirstGrant(t, status', k, j);
    }
    RankDecreases(Distance(p, i, n), Distance(p, k, n), Distance(s.accept[k] % m, j, m),
                  Distance(p', i, n), Distance(p', k', n), Distance(t.accept[k'] % m, j, m), m);
  }

  /** The measure of a waiting queue in a slot. */
  ghost function Wait(sys: Sys, arrivals: seq<Pair>, i: nat, j: nat): (r: nat)
    requires sys.Valid() && i < |sys.accept| && j < |sys.grant| && Waiting(sys, arrivals, i, j)
    ensures r < Bound(|sys.accept|, |sys.grant|)
  {
    Measure(Unmatched(sys.grant, sys.accept), NonEmpty(Loaded(sys, arrivals)), i, j)
  }

  /** A slot that does not serve a waiting queue leaves it waiting, with a smaller measure. */
  lemma UnservedSlot(sys: Sys, arrivals: seq<Pair>, next: seq<Pair>, iterations: nat, i: nat, j: nat)
    requires sys.Valid() && iterations > 0 && i < |sys.accept| && j < |sys.grant|
    requires Waiting(sys, arrivals, i, j) && !Serves(sys, arrivals, iterations, i, j)
    ensures var sys' := Slot(sys, arrivals, iterations);
            && Loaded(sys', next)[i][j] >= Loaded(sys, arrivals)[i][j]
            && Wait(sys', next, i, j) < Wait(sys, arrivals, i, j)
  {
    var sys' := Slot(sys, arrivals, iterations);
    var s, t := Unmatched(sys.grant, sys.accept), Unmatched(sys'.grant, sys'.accept);
    var q, q' := Loaded(sys, arrivals), Loaded(sys', next);
    EnqueuedEntries(sys'.lengths, next);
    var status, status' := NonEmpty(q), NonEmpty(q');
    var f := Iterate(s, status, true);
    var m := Matched(sys, arrivals, iterations);
    assert m.grant == f.grant && m.accept == f.accept && f.inMatch[i] != j by {
      FirstIterationStays(s, status, iterations);
    }
    forall k, o | 0 <= k < s.Inputs() && 0 <= o < s.Outputs() && status[k][o] &&
                  f.inMatch[k] != UNMATCHED && f.inMatch[k] != o
      ensures status'[k][o]
    {
      assert m.inMatch[k] == f.inMatch[k] by { FirstIterationStays(s, status, iterations); }
      assert q'[k][o] >= sys'.lengths[k][o] == q[k][o] > 0;
    }
    assert q'[i][j] >= sys'.lengths[i][j] == q[i][j] > 0;
    MeasureDecreases(s, status, t, status', i, j);
  }

  /** How many of the slots of a run, one list of arrivals each, serve queue (i, j). */
  ghost function Services(sys: Sys, run: seq<seq<Pair>>, iterations: nat, i: nat, j: nat): nat
    requires sys.Valid() && i < |sys.accept| && j < |sys.grant|
    decreases |run|
  {
    if run == [] then 0
    else
      (if Serves(sys, run[0], iterations, i, j) then 1 else 0)
      + Services(Slot(sys, run[0], iterations), run[1..], iterations, i, j)
  }

  /** A slot that serves a queue takes one packet from it. */
  lemma ServedSlot(sys: Sys, arrivals: seq<Pair>, next: seq<Pair>, iterations: nat, i: nat, j: nat)
    requires sys.Valid() && i < |sys.accept| && j < |sys.grant|
    ensures Loaded(Slot(sys, arrivals, iterations), next)[i][j] >= Loaded(sys, arrivals)[i][j] - 1
  {
    EnqueuedEntries(Slot(sys, arrivals, iterations).lengths, next);
  }

  /** The accounting behind the two theorems: `p` waiting packets are gone after the first wait and p - 1 bounds. */
  lemma {:induction false} ServicesReach(sys: Sys, run: seq<seq<Pair>>, iterations: nat, i: nat, j: nat, p: nat)
    requires sys.Valid() && iterations > 0 && i < |sys.accept| && j < |sys.grant| && p > 0 && run != []
    requires Loaded(sys, run[0])[i][j] >= p
    requires |run| > Wait(sys, run[0], i, j) + Times(p - 1, Bound(|sys.accept|, |sys.grant|))
    ensures Services(sys, run, iterations, i, j) >= p
    decreases |run|
  {
    var sys' := Slot(sys, run[0], iterations);
    if Serves(sys, run[0], iterations, i, j) {
      if p > 1 {
        ServedSlot(sys, run[0], run[1], iterations, i, j);
        assert Waiting(sys', run[1], i, j) && run[1..][0] == run[1];
        assert Wait(sys', run[1], i, j) < Bound(|sys.accept|, |sys.grant|);
        ServicesReach(sys', run[1..], iterations, i, j, p - 1);
      }
    } else {
      assert Wait(sys, run[0], i, j) > 0 by { UnservedSlot(sys, run[0], [], iterations, i, j); }
      UnservedSlot(sys, run[0], run[1], iterations, i, j);
      ServicesReach(sys', run[1..], iterations, i, j, p);
    }
  }

  /** No VOQ starves: in every run, a nonempty queue is served within the bound. */
  lemma NoStarvation(sys: Sys, run: seq<seq<Pair>>, iterations: nat, i: nat, j: nat)
    requires sys.Valid() && iterations > 0 && i < |sys.accept| && j < |sys.grant|
    requires |run| >= Bound(|sys.accept|, |sys.grant|) && run != [] && Waiting(sys, run[0], i, j)
    ensures Services(sys, run[..Bound(|sys.accept|, |sys.grant|)], iterations, i, j) >= 1
  {
    var bound := Bound(|sys.accept|, |sys.grant|);
    assert Wait(sys, run[0], i, j) < bound;
    assert run[..bound][0] == run[0];
    ServicesReach(sys, run[..bound], iterations, i, j, 1);
  }

  /** A backlog drains at that rate: `p` waiting packets have left after `p` times the bound. */
  lemma BacklogDrains(sys: Sys, run: seq<seq<Pair>>, iterations: nat, i: nat, j: nat, p: nat)
    requires sys.Valid() && iterations > 0 && i < |sys.accept| && j < |sys.grant| && p > 0
    requires |run| >= p * Bound(|sys.accept|, |sys.grant|) && run != [] && Loaded(sys, run[0])[i][j] >= p
    ensures Services(sys, run, iterations, i, j) >= p
  {
    var bound := Bound(|sys.accept|, |sys.grant|);
    TimesIsProduct(p, bound);
    assert Wait(sys, run[0], i, j) < bound;
    ServicesReach(sys, run, iterations, i, j, p);
  }
}
