/**
 The reasoning behind queue-proportional sampling: what one proposing and accepting round settles, how
 the queues removed without replacement are put back, and why enough rounds give a maximal matching.
 */
module QpsSpec {
  import opened Matchings
  import opened Sums
  import opened SumTrees
  import opened Voq

  datatype AcceptPolicy = LongestFirst | EarliestFirst | Random | ShortestFirst | SmallestFirst | Unknown

  /** Tree `t` represents the queues `row`, padded with empty leaves. */
  ghost predicate Represents(t: seq<int>, leaves: nat, row: seq<int>) {
    && IsSumTree(t, leaves) && NoNegativeNode(t) && leaves > 0 && t[0] == 0
    && |row| <= leaves && t[leaves..] == row + Fill(leaves - |row|, 0)
  }

  /** The representation is unique, so trees are restored exactly as soon as their queues are. */
  lemma RepresentationIsUnique(t: seq<int>, u: seq<int>, leaves: nat, row: seq<int>)
    requires Represents(t, leaves, row) && Represents(u, leaves, row)
    ensures t == u
  {
    SameLeavesSameTree(t, u, leaves);
  }

  ghost predicate RepresentsAll(bst: seq<seq<int>>, leaves: nat, q: seq<seq<int>>) {
    |bst| == |q| && forall s :: 0 <= s < |q| ==> Represents(bst[s], leaves, q[s])
  }

  lemma RepresentedLeaf(t: seq<int>, leaves: nat, row: seq<int>, d: nat)
    requires Represents(t, leaves, row) && d < |row|
    ensures t[leaves + d] == row[d] && row[d] >= 0
  {
    assert t[leaves + d] == t[leaves..][d];
  }

  /** The root is the total; it is zero exactly when all queues are empty. */
  lemma RepresentedRoot(t: seq<int>, leaves: nat, row: seq<int>)
    requires Represents(t, leaves, row) && Pow2(leaves)
    ensures t[1] == Sum(row) >= 0
    ensures t[1] == 0 <==> forall d :: 0 <= d < |row| ==> row[d] == 0
  {
    RootIsTotal(t, leaves);
    SumConcat(row, Fill(leaves - |row|, 0));
    SumZeros(Fill(leaves - |row|, 0));
    forall d | 0 <= d < |row|
      ensures row[d] >= 0
    {
      RepresentedLeaf(t, leaves, row, d);
    }
    SumNonNegative(row);
  }

  /** A draw from [0, 1) scaled to a total. */
  function Scaled(u: real, total: int): real {
    u * total as real
  }

  lemma ScaledIsBelow(u: real, total: int)
    requires 0.0 <= u < 1.0 && total > 0
    ensures 0.0 <= Scaled(u, total) < total as real
  {
  }

  /** The scaled draw falls into the interval of output `d`, which is as long as its queue. */
  ghost predicate SampledBy(row: seq<int>, u: real, d: int) {
    0 <= d < |row| && Sum(row[..d]) as real <= Scaled(u, Sum(row)) < Sum(row[..d + 1]) as real
  }

  lemma ScaledIs(u: real, total: int)
    ensures Scaled(u, total) == u * (total as real)
  {
  }

  /** An output is sampled exactly by the draws in its share of [0, 1): its queue's part of the total. */
  lemma SampledExactly(row: seq<int>, u: real, d: nat)
    requires d < |row|
    ensures SampledBy(row, u, d) <==>
      Sum(row[..d]) as real <= u * (Sum(row) as real) < Sum(row[..d + 1]) as real
  {
    hide Scaled, Sum;
    ScaledIs(u, Sum(row));
  }

  /** The descent finds the output whose interval the draw falls into; its queue is nonempty. */
  lemma SampledQueue(t: seq<int>, leaves: nat, row: seq<int>, u: real)
    requires Represents(t, leaves, row) && Pow2(leaves) && 0.0 <= u < 1.0 && t[1] > 0
    ensures var out := Search(t, 1, Scaled(u, t[1])) - leaves;
            && 0 <= out < |row| && row[out] > 0 && SampledBy(row, u, out)
            && Sum(row[..out]) as real <= u * (Sum(row) as real) < Sum(row[..out + 1]) as real
  {
    hide Scaled, Sum;
    ScaledIsBelow(u, t[1]);
    RepresentedRoot(t, leaves, row);
    var k := Search(t, 1, Scaled(u, t[1]));
    SampleIsProportional(t, leaves, Scaled(u, t[1]), 0);
    assert t[k] == t[leaves..][k - leaves];
    SampleIsProportional(t, leaves, Scaled(u, t[1]), k - leaves);
    assert t[leaves..][..k - leaves] == row[..k - leaves];
    SumPrefixStep(row, k - leaves);
    SampledExactly(row, u, k - leaves);
  }

  /** What happens to the represented queues when a leaf changes. */
  lemma RepresentsUpdated(t: seq<int>, leaves: nat, row: seq<int>, d: nat, r: seq<int>, delta: int)
    requires Represents(t, leaves, row) && d < |row|
    requires IsSumTree(r, leaves) && NoNegativeNode(r) && r[0] == t[0]
    requires r[leaves..] == LeavesWith(t, leaves, leaves + d, t[leaves + d] + delta)
    ensures Represents(r, leaves, row[d := row[d] + delta])
  {
    RepresentedLeaf(t, leaves, row, d);
    assert r[leaves..] == row[d := row[d] + delta] + Fill(leaves - |row|, 0);
  }

  // Removing and restoring

  /** A removed queue: its input, its output and the length it had. */
  datatype Saved = Saved(source: int, destination: int, length: int) {
    function Pair(): Pair { (source, destination) }
  }

  ghost predicate IsSaved(saved: seq<Saved>, s: int, d: int) {
    exists k :: 0 <= k < |saved| && saved[k].Pair() == (s, d)
  }

  /** The lengths without the removed queues. */
  ghost function Without(q: seq<seq<int>>, saved: seq<Saved>): (r: seq<seq<int>>)
    ensures |r| == |q| && forall s :: 0 <= s < |r| ==> |r[s]| == |q[s]|
    decreases |saved|
  {
    if saved == [] then q
    else
      var p := Without(q, saved[1..]);
      var (s, d) := saved[0].Pair();
      if 0 <= s < |p| && 0 <= d < |p[s]| then SetAt(p, s, d, 0) else p
  }

  lemma {:induction false} WithoutEntries(q: seq<seq<int>>, saved: seq<Saved>, s: nat, d: nat)
    requires s < |q| && d < |q[s]|
    ensures Without(q, saved)[s][d] == if IsSaved(saved, s, d) then 0 else q[s][d]
    decreases |saved|
  {
    if saved != [] {
      WithoutEntries(q, saved[1..], s, d);
      assert forall k :: 0 < k < |saved| ==> saved[1..][k - 1] == saved[k];
      if IsSaved(saved[1..], s, d) {
        var k :| 0 <= k < |saved[1..]| && saved[1..][k].Pair() == (s, d);
        assert saved[k + 1].Pair() == (s, d);
      }
    }
  }

  /** The list records distinct nonempty queues with their lengths. */
  ghost predicate RecordsRemovals(saved: seq<Saved>, q: seq<seq<int>>) {
    && (forall k :: 0 <= k < |saved| ==>
          && 0 <= saved[k].source < |q| && 0 <= saved[k].destination < |q[saved[k].source]|
          && saved[k].length == q[saved[k].source][saved[k].destination] > 0)
    && (forall j, k :: 0 <= j < k < |saved| ==> saved[j].Pair() != saved[k].Pair())
  }

  lemma IsSavedOneMore(saved: seq<Saved>, last: Saved, x: int, y: int)
    ensures IsSaved(saved + [last], x, y) <==> IsSaved(saved, x, y) || last.Pair() == (x, y)
  {
    var more := saved + [last];
    assert more[|saved|] == last;
    if IsSaved(saved, x, y) {
      var k :| 0 <= k < |saved| && saved[k].Pair() == (x, y);
      assert more[k].Pair() == (x, y);
    }
  }

  lemma WithoutOneMore(q: seq<seq<int>>, saved: seq<Saved>, s: nat, d: nat, length: int)
    requires s < |q| && d < |q[s]|
    ensures Without(q, saved + [Saved(s, d, length)]) == SetAt(Without(q, saved), s, d, 0)
  {
    hide IsSaved;
    var more := saved + [Saved(s, d, length)];
    forall x, y | 0 <= x < |q| && 0 <= y < |q[x]|
      ensures Without(q, more)[x][y] == SetAt(Without(q, saved), s, d, 0)[x][y]
    {
      WithoutEntries(q, saved, x, y);
      WithoutEntries(q, more, x, y);
      IsSavedOneMore(saved, Saved(s, d, length), x, y);
    }
    GridsEqual(Without(q, more), SetAt(Without(q, saved), s, d, 0));
  }

  /** Removing one more queue, not removed before. */
  lemma RemoveOne(q: seq<seq<int>>, saved: seq<Saved>, s: nat, d: nat)
    requires RecordsRemovals(saved, q) && s < |q| && d < |q[s]| && Without(q, saved)[s][d] > 0
    ensures Without(q, saved)[s][d] == q[s][d]
    ensures RecordsRemovals(saved + [Saved(s, d, q[s][d])], q)
    ensures Without(q, saved + [Saved(s, d, q[s][d])]) == SetAt(Without(q, saved), s, d, 0)
  {
    WithoutEntries(q, saved, s, d);
    WithoutOneMore(q, saved, s, d, q[s][d]);
    hide Without;
    assert forall k :: 0 <= k < |saved| ==> saved[k].Pair() != (s, d);
  }

  /** Restoring the first removed queue of a list. */
  lemma RestoreOne(q: seq<seq<int>>, saved: seq<Saved>)
    requires RecordsRemovals(saved, q) && saved != []
    ensures RecordsRemovals(saved[1..], q)
    ensures var (s, d) := saved[0].Pair();
            && Without(q, saved)[s][d] == 0
            && Without(q, saved[1..]) == SetAt(Without(q, saved), s, d, saved[0].length)
  {
    var (s, d) := saved[0].Pair();
    WithoutEntries(q, saved[1..], s, d);
    GridsEqual(Without(q, saved[1..]), SetAt(Without(q, saved), s, d, saved[0].length));
  }

  // Maximality

  /** How many queues of a row have been removed. */
  function Lost(before: seq<int>, now: seq<int>): nat
    requires |before| == |now|
  {
    if before == [] then 0
    else (if before[0] != 0 && now[0] == 0 then 1 else 0) + Lost(before[1..], now[1..])
  }

  lemma {:induction false} LostOneMore(before: seq<int>, now: seq<int>, d: nat)
    requires |before| == |now| && d < |now| && before[d] != 0 && now[d] != 0
    ensures Lost(before, now[d := 0]) == Lost(before, now) + 1
  {
    if d > 0 {
      LostOneMore(before[1..], now[1..], d - 1);
      assert now[d := 0][1..] == now[1..][d - 1 := 0];
    }
  }

  /** Removed queues are bounded by the matched outputs they point to, and leave room for a remaining one. */
  lemma {:induction false} LostBounds(before: seq<int>, now: seq<int>, outMatch: seq<int>)
    requires |before| == |now| == |outMatch|
    requires forall d :: 0 <= d < |now| && before[d] != 0 && now[d] == 0 ==> outMatch[d] != UNMATCHED
    ensures Lost(before, now) <= Size(outMatch)
    ensures Lost(before, now) <= |now|
    ensures (exists d :: 0 <= d < |now| && now[d] != 0) ==> Lost(before, now) < |now|
  {
    if before != [] {
      LostBounds(before[1..], now[1..], outMatch[1..]);
      if d :| 0 <= d < |now| && now[d] != 0 {
        assert d > 0 ==> now[1..][d - 1] != 0;
      }
    }
  }

  /**
   The state between two rounds without replacement. `now` are the queues not removed: a removed
   queue points to a matched output, and an unmatched input has lost one queue per round unless it
   has none left.
   */
  ghost predicate RoundsDone(q: seq<seq<int>>, now: seq<seq<int>>, inMatch: seq<int>, outMatch: seq<int>, rounds: nat,
      inputs: nat, outputs: nat)
    requires IsGrid(q, inputs, outputs) && IsGrid(now, inputs, outputs) && |inMatch| == inputs && |outMatch| == outputs
  {
    && (forall s, d :: 0 <= s < inputs && 0 <= d < outputs && q[s][d] != 0 && now[s][d] == 0 ==>
          outMatch[d] != UNMATCHED)
    && (forall s :: 0 <= s < inputs && inMatch[s] == UNMATCHED ==> Exhausted(now[s]) || Lost(q[s], now[s]) >= rounds)
  }

  ghost predicate Exhausted(row: seq<int>) {
    forall d :: 0 <= d < |row| ==> row[d] == 0
  }

  /** Enough rounds leave every unmatched input without queues, so the matching is maximal. */
  lemma RoundsSuffice(q: seq<seq<int>>, now: seq<seq<int>>, inMatch: seq<int>, outMatch: seq<int>, rounds: nat,
      inputs: nat, outputs: nat)
    requires IsGrid(q, inputs, outputs) && IsGrid(now, inputs, outputs) && |inMatch| == inputs && |outMatch| == outputs
    requires IsMatching(inMatch, outMatch) && RoundsDone(q, now, inMatch, outMatch, rounds, inputs, outputs)
    requires rounds >= inputs || rounds >= outputs
    ensures IsMaximal(inMatch, outMatch, NonEmpty(q))
  {
    forall s, d | 0 <= s < inputs && 0 <= d < outputs && NonEmpty(q)[s][d]
      ensures inMatch[s] != UNMATCHED || outMatch[d] != UNMATCHED
    {
      if inMatch[s] == UNMATCHED {
        LostBounds(q[s], now[s], outMatch);
        MatchedPortsAgree(inMatch, outMatch);
        SizeBounds(inMatch);
        assert Exhausted(now[s]);
        assert now[s][d] == 0;
      }
    }
  }

  // One round

  /** Whether a new proposal replaces the kept one. */
  predicate Beats(policy: AcceptPolicy, q: seq<seq<int>>, out: nat, challenger: nat, kept: nat)
    requires challenger < |q| && kept < |q| && out < |q[challenger]| && out < |q[kept]|
  {
    match policy
    case LongestFirst => q[challenger][out] > q[kept][out]
    case ShortestFirst => q[challenger][out] < q[kept][out]
    case SmallestFirst => challenger < kept
    case _ => false
  }

  /**
   The kept proposal `c` against another one `s` for the same output. A policy that compares prefers it; where the
   policy does not decide, it came first.
   */
  ghost predicate Preferred(policy: AcceptPolicy, q: seq<seq<int>>, out: nat, c: nat, s: nat, cameFirst: bool)
    requires c < |q| && s < |q| && out < |q[c]| && out < |q[s]|
  {
    match policy
    case LongestFirst => q[c][out] > q[s][out] || (q[c][out] == q[s][out] && cameFirst)
    case ShortestFirst => q[c][out] < q[s][out] || (q[c][out] == q[s][out] && cameFirst)
    case SmallestFirst => c < s
    case EarliestFirst => cameFirst
    case Random => cameFirst
    case Unknown => cameFirst
  }

  /** Every free output that was proposed to keeps the proposal that the policy prefers to all others. */
  ghost predicate KeepsPreferred(policy: AcceptPolicy, q: seq<seq<int>>, order: seq<int>, outMatch: seq<int>,
      requests: seq<int>, lastCheck: seq<int>, inputs: nat, outputs: nat)
    requires IsGrid(q, inputs, outputs) && AreInputs(order, inputs) && |requests| == inputs
    requires |outMatch| == |lastCheck| == outputs
  {
    && (forall x :: 0 <= x < |order| ==>
          var d := requests[order[x]];
          0 <= d < outputs && outMatch[d] == UNMATCHED ==> lastCheck[d] != UNMATCHED)
    && (forall d, x, y :: 0 <= d < outputs && 0 <= x < |order| && 0 <= y < |order| && x != y ==>
          lastCheck[d] == order[x] && requests[order[y]] == d ==> Preferred(policy, q, d, order[x], order[y], x < y))
  }

  /**
   Proposals after the inputs of `done` have been considered. Each free input with packets proposes to
   the output it sampled; a free output keeps one proposal, and no proposal beats it.
   */
  ghost predicate Proposed(policy: AcceptPolicy, q: seq<seq<int>>, now: seq<seq<int>>, draws: seq<real>,
      inMatch: seq<int>, outMatch: seq<int>, done: seq<int>, requests: seq<int>, lastCheck: seq<int>, inputs: nat,
      outputs: nat)
    requires IsGrid(q, inputs, outputs) && IsGrid(now, inputs, outputs) && |inMatch| == inputs && |outMatch| == outputs
    requires |draws| == inputs
  {
    && |requests| == inputs && |lastCheck| == outputs
    && (forall s :: 0 <= s < inputs && requests[s] == UNMATCHED && s in done ==>
          inMatch[s] != UNMATCHED || Exhausted(now[s]))
    && (forall s :: 0 <= s < inputs && requests[s] != UNMATCHED ==>
          && s in done && inMatch[s] == UNMATCHED && 0 <= requests[s] < outputs && now[s][requests[s]] > 0
          && SampledBy(now[s], draws[s], requests[s])
          && (outMatch[requests[s]] == UNMATCHED ==>
                0 <= lastCheck[requests[s]] < inputs && !Beats(policy, q, requests[s], s, lastCheck[requests[s]])))
    && (forall d :: 0 <= d < outputs && lastCheck[d] != UNMATCHED ==>
          0 <= lastCheck[d] < inputs && requests[lastCheck[d]] == d && outMatch[d] == UNMATCHED)
  }

  /** The kept proposal of an output beats every one that came before it. */
  ghost predicate BeatsEarlier(policy: AcceptPolicy, q: seq<seq<int>>, done: seq<int>, requests: seq<int>,
      lastCheck: seq<int>, inputs: nat, outputs: nat)
    requires IsGrid(q, inputs, outputs) && |requests| == inputs && |lastCheck| == outputs && AreInputs(done, inputs)
  {
    forall d, x, y :: 0 <= d < outputs && 0 <= x < y < |done| && done[y] == lastCheck[d] && requests[done[x]] == d ==>
      Beats(policy, q, d, done[y], done[x])
  }

  /** That is what not being beaten and beating all earlier ones comes to. */
  lemma KeptArePreferred(policy: AcceptPolicy, q: seq<seq<int>>, now: seq<seq<int>>, draws: seq<real>,
      inMatch: seq<int>, outMatch: seq<int>, order: seq<int>, requests: seq<int>, lastCheck: seq<int>, inputs: nat,
      outputs: nat)
    requires IsGrid(q, inputs, outputs) && IsGrid(now, inputs, outputs) && |inMatch| == inputs && |outMatch| == outputs
    requires |draws| == inputs && IsOrder(order, inputs)
    requires Proposed(policy, q, now, draws, inMatch, outMatch, order, requests, lastCheck, inputs, outputs)
    requires BeatsEarlier(policy, q, order, requests, lastCheck, inputs, outputs)
    ensures KeepsPreferred(policy, q, order, outMatch, requests, lastCheck, inputs, outputs)
  {
    hide SampledBy, Exhausted;
    forall d, x, y | 0 <= d < outputs && 0 <= x < |order| && 0 <= y < |order| && x != y
      && lastCheck[d] == order[x] && requests[order[y]] == d
      ensures Preferred(policy, q, d, order[x], order[y], x < y)
    {
      assert outMatch[d] == UNMATCHED && !Beats(policy, q, d, order[y], order[x]);
      assert y < x ==> Beats(policy, q, d, order[x], order[y]);
      assert order[x] != order[y];
    }
  }

  /** It still does when the next input `s` proposes to `out`. */
  lemma StillBeatsEarlier(policy: AcceptPolicy, q: seq<seq<int>>, now: seq<seq<int>>, draws: seq<real>,
      inMatch: seq<int>, outMatch: seq<int>, done: seq<int>, requests: seq<int>, lastCheck: seq<int>, s: nat, out: nat,
      inputs: nat, outputs: nat)
    requires IsGrid(q, inputs, outputs) && IsGrid(now, inputs, outputs) && |inMatch| == inputs && |outMatch| == outputs
    requires |draws| == inputs && AreInputs(done, inputs) && |requests| == inputs && |lastCheck| == outputs
    requires Proposed(policy, q, now, draws, inMatch, outMatch, done, requests, lastCheck, inputs, outputs)
    requires BeatsEarlier(policy, q, done, requests, lastCheck, inputs, outputs)
    requires s < inputs && s !in done && out < outputs
    ensures var wins := outMatch[out] == UNMATCHED
                        && (lastCheck[out] == UNMATCHED || Beats(policy, q, out, s, lastCheck[out]));
            BeatsEarlier(policy, q, done + [s], requests[s := out], if wins then lastCheck[out := s] else lastCheck,
                inputs, outputs)
  {
    var wins := outMatch[out] == UNMATCHED && (lastCheck[out] == UNMATCHED || Beats(policy, q, out, s, lastCheck[out]));
    var done', requests', lastCheck' := done + [s], requests[s := out], if wins then lastCheck[out := s] else lastCheck;
    forall d, x, y | 0 <= d < outputs && 0 <= x < y < |done'| && done'[y] == lastCheck'[d] && requests'[done'[x]] == d
      ensures Beats(policy, q, d, done'[y], done'[x])
    {
      assert done'[x] == done[x];
      if y == |done| {
        assert lastCheck[d] != s;
        assert d == out && wins;
      }
    }
  }

  /** The next input does not propose. */
  lemma SkippedBeatsEarlier(policy: AcceptPolicy, q: seq<seq<int>>, now: seq<seq<int>>, draws: seq<real>,
      inMatch: seq<int>, outMatch: seq<int>, done: seq<int>, requests: seq<int>, lastCheck: seq<int>, s: nat,
      inputs: nat, outputs: nat)
    requires IsGrid(q, inputs, outputs) && IsGrid(now, inputs, outputs) && |inMatch| == inputs && |outMatch| == outputs
    requires |draws| == inputs && AreInputs(done, inputs) && |requests| == inputs && |lastCheck| == outputs
    requires Proposed(policy, q, now, draws, inMatch, outMatch, done, requests, lastCheck, inputs, outputs)
    requires BeatsEarlier(policy, q, done, requests, lastCheck, inputs, outputs) && s < inputs && s !in done
    ensures BeatsEarlier(policy, q, done + [s], requests, lastCheck, inputs, outputs)
  {
    forall d | 0 <= d < outputs
      ensures lastCheck[d] != s
    {
    }
  }

  /** A matched input or one without packets does not propose. */
  lemma SkipStep(policy: AcceptPolicy, q: seq<seq<int>>, now: seq<seq<int>>, draws: seq<real>, inMatch: seq<int>,
      outMatch: seq<int>, done: seq<int>, requests: seq<int>, lastCheck: seq<int>, s: nat, inputs: nat, outputs: nat)
    requires IsGrid(q, inputs, outputs) && IsGrid(now, inputs, outputs) && |inMatch| == inputs && |outMatch| == outputs
    requires |draws| == inputs
    requires Proposed(policy, q, now, draws, inMatch, outMatch, done, requests, lastCheck, inputs, outputs)
    requires s < inputs && (inMatch[s] != UNMATCHED || Exhausted(now[s]))
    ensures Proposed(policy, q, now, draws, inMatch, outMatch, done + [s], requests, lastCheck, inputs, outputs)
  {
  }

  /** Input `s` proposes to `out`, which keeps it if it is free and keeps none or a beaten one. */
  lemma ProposeStep(policy: AcceptPolicy, q: seq<seq<int>>, now: seq<seq<int>>, draws: seq<real>, inMatch: seq<int>,
      outMatch: seq<int>, done: seq<int>, requests: seq<int>, lastCheck: seq<int>, s: nat, out: nat, inputs: nat,
      outputs: nat)
    requires IsGrid(q, inputs, outputs) && IsGrid(now, inputs, outputs) && |inMatch| == inputs && |outMatch| == outputs
    requires |draws| == inputs
    requires Proposed(policy, q, now, draws, inMatch, outMatch, done, requests, lastCheck, inputs, outputs)
    requires s < inputs && s !in done && out < outputs && inMatch[s] == UNMATCHED && now[s][out] > 0
    requires SampledBy(now[s], draws[s], out)
    ensures var wins := outMatch[out] == UNMATCHED
                        && (lastCheck[out] == UNMATCHED || Beats(policy, q, out, s, lastCheck[out]));
            Proposed(policy, q, now, draws, inMatch, outMatch, done + [s], requests[s := out],
                     if wins then lastCheck[out := s] else lastCheck, inputs, outputs)
  {
    hide SampledBy;
  }

  /** After accepting: every kept proposal is a pair, nothing else changed. */
  ghost predicate Accepted(requests: seq<int>, lastCheck: seq<int>, inMatch: seq<int>, outMatch: seq<int>, k: nat,
      inMatch': seq<int>, outMatch': seq<int>)
    requires k <= |lastCheck|
  {
    && |inMatch'| == |inMatch| == |requests| && |outMatch'| == |outMatch| == |lastCheck|
    && (forall d :: 0 <= d < |outMatch| ==>
          outMatch'[d] == if d < k && lastCheck[d] != UNMATCHED then lastCheck[d] else outMatch[d])
    && (forall s :: 0 <= s < |inMatch| ==>
          inMatch'[s] == if 0 <= requests[s] < k && lastCheck[requests[s]] == s then requests[s] else inMatch[s])
  }

  /** A round keeps a matching on nonempty queues, drops no pair, and rejects only towards matched outputs. */
  lemma RoundEffect(policy: AcceptPolicy, q: seq<seq<int>>, now: seq<seq<int>>, draws: seq<real>, inMatch: seq<int>,
      outMatch: seq<int>, done: seq<int>, requests: seq<int>, lastCheck: seq<int>, inMatch': seq<int>,
      outMatch': seq<int>, inputs: nat, outputs: nat)
    requires IsGrid(q, inputs, outputs) && IsGrid(now, inputs, outputs) && |inMatch| == inputs && |outMatch| == outputs
    requires |draws| == inputs
    requires IsMatching(inMatch, outMatch)
    requires Proposed(policy, q, now, draws, inMatch, outMatch, done, requests, lastCheck, inputs, outputs)
    requires Accepted(requests, lastCheck, inMatch, outMatch, outputs, inMatch', outMatch')
    ensures IsMatching(inMatch', outMatch')
    ensures forall d :: 0 <= d < outputs && outMatch[d] != UNMATCHED ==> outMatch'[d] == outMatch[d]
    ensures forall s :: 0 <= s < inputs && inMatch[s] != UNMATCHED ==> inMatch'[s] == inMatch[s]
    ensures forall s :: 0 <= s < inputs && inMatch'[s] != UNMATCHED && inMatch'[s] != inMatch[s] ==>
      0 <= inMatch'[s] < outputs && now[s][inMatch'[s]] > 0
    ensures forall s :: 0 <= s < inputs && requests[s] != UNMATCHED ==> outMatch'[requests[s]] != UNMATCHED
  {
    forall s | 0 <= s < inputs && requests[s] != UNMATCHED
      ensures outMatch'[requests[s]] != UNMATCHED
    {
    }
    forall d | 0 <= d < outputs && outMatch'[d] != UNMATCHED
      ensures 0 <= outMatch'[d] < inputs && inMatch'[outMatch'[d]] == d
    {
      if lastCheck[d] == UNMATCHED {
        assert inMatch[outMatch[d]] == d;
      }
    }
  }

  /** The queues once the rejected proposals of the inputs below `k` have been removed. */
  ghost predicate RejectedRemoved(now: seq<seq<int>>, requests: seq<int>, inMatch: seq<int>, k: nat,
      now': seq<seq<int>>)
    requires |requests| == |inMatch| == |now| == |now'|
  {
    forall s :: 0 <= s < |now| ==>
      now'[s] == if s < k && inMatch[s] == UNMATCHED &&
          0 <= requests[s] < |now[s]| then now[s][requests[s] := 0] else now[s]
  }

  /** What a round must deliver for the count of rounds to advance. */
  ghost predicate RoundOutcome(now: seq<seq<int>>, inMatch: seq<int>, outMatch: seq<int>, requests: seq<int>,
      inMatch': seq<int>, outMatch': seq<int>, inputs: nat, outputs: nat)
    requires IsGrid(now, inputs, outputs) && |inMatch| == inputs == |requests| && |outMatch| == outputs
    requires |inMatch'| == inputs && |outMatch'| == outputs
  {
    && (forall d :: 0 <= d < outputs && outMatch[d] != UNMATCHED ==> outMatch'[d] != UNMATCHED)
    && (forall s :: 0 <= s < inputs && inMatch[s] != UNMATCHED ==> inMatch'[s] != UNMATCHED)
    && (forall s :: 0 <= s < inputs && inMatch[s] == UNMATCHED && requests[s] == UNMATCHED ==> Exhausted(now[s]))
    && (forall s :: 0 <= s < inputs && requests[s] != UNMATCHED ==>
          0 <= requests[s] < outputs && now[s][requests[s]] > 0 && outMatch'[requests[s]] != UNMATCHED)
  }

  /** Every round either exhausts an unmatched input or removes one more of its queues. */
  lemma RoundAdvances(q: seq<seq<int>>, now: seq<seq<int>>, inMatch: seq<int>, outMatch: seq<int>, requests: seq<int>,
      now': seq<seq<int>>, inMatch': seq<int>, outMatch': seq<int>, rounds: nat, inputs: nat, outputs: nat)
    requires IsGrid(q, inputs, outputs) && IsGrid(now, inputs, outputs) && IsGrid(now', inputs, outputs)
    requires |inMatch| == inputs == |requests| && |outMatch| == outputs
    requires |inMatch'| == inputs && |outMatch'| == outputs
    requires RoundsDone(q, now, inMatch, outMatch, rounds, inputs, outputs)
    requires RoundOutcome(now, inMatch, outMatch, requests, inMatch', outMatch', inputs, outputs)
    requires RejectedRemoved(now, requests, inMatch', inputs, now')
    requires forall s, d :: 0 <= s < inputs && 0 <= d < outputs ==> now[s][d] == 0 || now[s][d] == q[s][d]
    ensures RoundsDone(q, now', inMatch', outMatch', rounds + 1, inputs, outputs)
  {
    forall s | 0 <= s < inputs && inMatch'[s] == UNMATCHED
      ensures Exhausted(now'[s]) || Lost(q[s], now'[s]) >= rounds + 1
    {
      if requests[s] != UNMATCHED {
        LostOneMore(q[s], now[s], requests[s]);
      }
    }
  }

  // The rounds of a slot

  /** The matching and the queues not removed, between two rounds. */
  datatype MatchState = MatchState(inMatch: seq<int>, outMatch: seq<int>, now: seq<seq<int>>)

  ghost predicate IsMatchState(a: MatchState, inputs: nat, outputs: nat) {
    |a.inMatch| == inputs && |a.outMatch| == outputs && IsGrid(a.now, inputs, outputs)
  }

  /** One round from `a` to `b`: proposals, acceptance, and without replacement the removal of rejected queues. */
  ghost predicate IsRound(policy: AcceptPolicy, withoutReplacement: bool, q: seq<seq<int>>, a: MatchState,
      b: MatchState, order: seq<int>, draws: seq<real>, inputs: nat, outputs: nat)
    requires IsGrid(q, inputs, outputs) && IsMatchState(a, inputs, outputs) && IsMatchState(b, inputs, outputs)
    requires AreInputs(order, inputs) && |draws| == inputs
  {
    exists requests: seq<int>, lastCheck: seq<int> ::
      && Proposed(policy, q, a.now, draws, a.inMatch, a.outMatch, order, requests, lastCheck, inputs, outputs)
      && BeatsEarlier(policy, q, order, requests, lastCheck, inputs, outputs)
      && Accepted(requests, lastCheck, a.inMatch, a.outMatch, outputs, b.inMatch, b.outMatch)
      && if withoutReplacement then RejectedRemoved(a.now, requests, b.inMatch, inputs, b.now) else b.now == a.now
  }

  /** The inputs in the order in which they propose. */
  ghost predicate IsOrder(order: seq<int>, inputs: nat) {
    && |order| == inputs && (forall k :: 0 <= k < inputs ==> 0 <= order[k] < inputs)
    && (forall s :: 0 <= s < inputs ==> s in order)
    && (forall j, k :: 0 <= j < k < inputs ==> order[j] != order[k])
  }

  /** The proposals behind a round. */
  lemma ChoicesOf(policy: AcceptPolicy, withoutReplacement: bool, q: seq<seq<int>>, a: MatchState, b: MatchState,
      order: seq<int>, draws: seq<real>, inputs: nat, outputs: nat)
    returns (requests: seq<int>, lastCheck: seq<int>)
    requires IsGrid(q, inputs, outputs) && IsMatchState(a, inputs, outputs) && IsMatchState(b, inputs, outputs)
    requires IsOrder(order, inputs) && |draws| == inputs
    requires IsRound(policy, withoutReplacement, q, a, b, order, draws, inputs, outputs)
    ensures |requests| == inputs && |lastCheck| == outputs
    ensures Proposed(policy, q, a.now, draws, a.inMatch, a.outMatch, order, requests, lastCheck, inputs, outputs)
    ensures BeatsEarlier(policy, q, order, requests, lastCheck, inputs, outputs)
    ensures Accepted(requests, lastCheck, a.inMatch, a.outMatch, outputs, b.inMatch, b.outMatch)
    ensures if withoutReplacement then RejectedRemoved(a.now, requests, b.inMatch, inputs, b.now) else b.now == a.now
  {
    assert AreInputs(order, inputs);
    hide BeatsEarlier, Accepted, RejectedRemoved, IsOrder, SampledBy, Beats;
    requests, lastCheck :|
      && Proposed(policy, q, a.now, draws, a.inMatch, a.outMatch, order, requests, lastCheck, inputs, outputs)
      && BeatsEarlier(policy, q, order, requests, lastCheck, inputs, outputs)
      && Accepted(requests, lastCheck, a.inMatch, a.outMatch, outputs, b.inMatch, b.outMatch)
      && if withoutReplacement then RejectedRemoved(a.now, requests, b.inMatch, inputs, b.now) else b.now == a.now;
  }

  /** One uniform draw from [0, 1) per input; it is scaled to the input's total. */
  ghost predicate AreDraws(draws: seq<real>, inputs: nat) {
    |draws| == inputs && forall s :: 0 <= s < inputs ==> 0.0 <= draws[s] < 1.0
  }

  ghost predicate AreChoices(orders: seq<seq<int>>, draws: seq<seq<real>>, inputs: nat) {
    && |orders| == |draws|
    && forall it :: 0 <= it < |orders| ==> IsOrder(orders[it], inputs) && AreDraws(draws[it], inputs)
  }

  /** Round `it` of a slot leads from one state of the trace to the next. */
  ghost predicate RoundAt(policy: AcceptPolicy, withoutReplacement: bool, q: seq<seq<int>>, trace: seq<MatchState>,
      it: nat, order: seq<int>, draws: seq<real>, inputs: nat, outputs: nat)
    requires IsGrid(q, inputs, outputs) && it + 1 < |trace| && IsOrder(order, inputs) && AreDraws(draws, inputs)
  {
    && IsMatchState(trace[it], inputs, outputs) && IsMatchState(trace[it + 1], inputs, outputs)
    && IsRound(policy, withoutReplacement, q, trace[it], trace[it + 1], order, draws, inputs, outputs)
  }

  /** Nothing matched, nothing removed. */
  ghost function StartOf(q: seq<seq<int>>, inputs: nat, outputs: nat): MatchState {
    MatchState(Fill(inputs, UNMATCHED), Fill(outputs, UNMATCHED), q)
  }

  /** `trace` are the states between the rounds of a slot, from an empty matching on all queues. */
  ghost predicate IsTrace(policy: AcceptPolicy, withoutReplacement: bool, q: seq<seq<int>>, trace: seq<MatchState>,
      orders: seq<seq<int>>, draws: seq<seq<real>>, inputs: nat, outputs: nat)
    requires IsGrid(q, inputs, outputs) && |trace| <= |orders| + 1 && AreChoices(orders, draws, inputs)
  {
    && trace != [] && trace[0] == StartOf(q, inputs, outputs)
    && forall it :: 0 <= it < |trace| - 1 ==>
         RoundAt(policy, withoutReplacement, q, trace, it, orders[it], draws[it], inputs, outputs)
  }

  lemma TraceStep(policy: AcceptPolicy, withoutReplacement: bool, q: seq<seq<int>>, trace: seq<MatchState>,
      next: MatchState, orders: seq<seq<int>>, draws: seq<seq<real>>, inputs: nat, outputs: nat)
    requires IsGrid(q, inputs, outputs) && 0 < |trace| <= |orders| && AreChoices(orders, draws, inputs)
    requires IsTrace(policy, withoutReplacement, q, trace, orders, draws, inputs, outputs)
    requires IsMatchState(trace[|trace| - 1], inputs, outputs) && IsMatchState(next, inputs, outputs)
    requires IsRound(policy, withoutReplacement, q, trace[|trace| - 1], next, orders[|trace| - 1], draws[|trace| - 1],
                     inputs, outputs)
    ensures IsTrace(policy, withoutReplacement, q, trace + [next], orders, draws, inputs, outputs)
  {
    hide IsRound;
    forall it | 0 <= it < |trace|
      ensures RoundAt(policy, withoutReplacement, q, trace + [next], it, orders[it], draws[it], inputs, outputs)
    {
      if it < |trace| - 1 {
        assert RoundAt(policy, withoutReplacement, q, trace, it, orders[it], draws[it], inputs, outputs);
      }
    }
  }
}
