/**
 The view of the virtual output queues (VOQs) that switch and schedulers share: the length matrix,
 the arrival and departure lists closed by a sentinel, and what one slot does to them.
 */
module Voq {
  import opened Matchings
  import opened Sums

  /** A source and a destination port. */
  type Pair = (int, int)

  const SENTINEL := -1

  /** The valid part of a list: everything before the first entry whose source is the sentinel. */
  function Live(list: seq<Pair>): (r: seq<Pair>)
  {
    if list == [] || list[0].0 == SENTINEL then [] else [list[0]] + Live(list[1..])
  }

  /** A scan that stops at the sentinel or at the end visits exactly the valid part. */
  lemma {:induction false} LiveAt(list: seq<Pair>, k: nat)
    requires k <= |Live(list)|
    ensures |Live(list)| <= |list|
    ensures (k < |list| && list[k].0 != SENTINEL) <==> k < |Live(list)|
    ensures k < |Live(list)| ==>
      Live(list)[k] == list[k] && Live(list)[..k + 1] == Live(list)[..k] + [list[k]]
  {
    if k > 0 {
      LiveAt(list[1..], k - 1);
    } else {
      LiveLength(list);
    }
  }

  lemma {:induction false} LiveLength(list: seq<Pair>)
    ensures |Live(list)| <= |list|
  {
    if list != [] && list[0].0 != SENTINEL {
      LiveLength(list[1..]);
    }
  }

  /** A prefix without sentinel, followed by a sentinel or by nothing, is the valid part. */
  lemma {:induction false} LiveIsPrefix(list: seq<Pair>, k: nat)
    requires k <= |list|
    requires forall x :: 0 <= x < k ==> list[x].0 != SENTINEL
    requires k < |list| ==> list[k].0 == SENTINEL
    ensures Live(list) == list[..k]
  {
    if k > 0 {
      LiveIsPrefix(list[1..], k - 1);
      assert [list[0]] + list[1..][..k - 1] == list[..k];
    }
  }

  /** Every pair joins an input to an output. */
  ghost predicate InRange(pairs: seq<Pair>, inputs: nat, outputs: nat) {
    forall k :: 0 <= k < |pairs| ==> 0 <= pairs[k].0 < inputs && 0 <= pairs[k].1 < outputs
  }

  /** Replace one entry of a matrix. */
  function SetAt<T>(m: seq<seq<T>>, s: nat, d: nat, v: T): (r: seq<seq<T>>)
    requires s < |m| && d < |m[s]|
    ensures |r| == |m| && forall x :: 0 <= x < |m| ==> |r[x]| == |m[x]|
    ensures forall x, y :: 0 <= x < |m| && 0 <= y < |m[x]| ==>
      r[x][y] == if x == s && y == d then v else m[x][y]
  {
    m[s := m[s][d := v]]
  }

  /** One packet more in queue `p`. */
  function Bumped(q: seq<seq<int>>, p: Pair): (r: seq<seq<int>>)
    ensures |r| == |q| && forall s :: 0 <= s < |r| ==> |r[s]| == |q[s]|
  {
    if 0 <= p.0 < |q| && 0 <= p.1 < |q[p.0]| then SetAt(q, p.0, p.1, q[p.0][p.1] + 1) else q
  }

  /** The lengths after the packets of `pairs` have joined their queues one after the other. */
  function Enqueued(q: seq<seq<int>>, pairs: seq<Pair>): (r: seq<seq<int>>)
    ensures |r| == |q| && forall s :: 0 <= s < |r| ==> |r[s]| == |q[s]|
  {
    if pairs == [] then q else Bumped(Enqueued(q, pairs[..|pairs| - 1]), pairs[|pairs| - 1])
  }

  lemma EnqueuedStep(q: seq<seq<int>>, pairs: seq<Pair>, p: Pair)
    ensures Enqueued(q, pairs + [p]) == Bumped(Enqueued(q, pairs), p)
  {
    assert (pairs + [p])[..|pairs|] == pairs;
  }

  /** Each queue grows by the number of its packets in the list. */
  lemma {:induction false} EnqueuedEntries(q: seq<seq<int>>, pairs: seq<Pair>)
    ensures forall s, d :: 0 <= s < |q| && 0 <= d < |q[s]| ==>
      Enqueued(q, pairs)[s][d] == q[s][d] + multiset(pairs)[(s, d)]
  {
    if pairs != [] {
      var front, p := pairs[..|pairs| - 1], pairs[|pairs| - 1];
      EnqueuedEntries(q, front);
      assert pairs == front + [p];
    }
  }

  /** The lengths after each matched nonempty queue has lost its first packet. */
  function Departed(q: seq<seq<int>>, inMatch: seq<int>): (r: seq<seq<int>>)
    requires |inMatch| == |q|
    ensures |r| == |q|
    ensures forall s :: 0 <= s < |r| ==> |r[s]| == |q[s]|
    ensures forall s, d :: 0 <= s < |r| && 0 <= d < |r[s]| ==>
      r[s][d] == if inMatch[s] == d && q[s][d] != 0 then q[s][d] - 1 else q[s][d]
  {
    seq(|q|, s requires 0 <= s < |q| =>
      seq(|q[s]|, d requires 0 <= d < |q[s]| =>
        if inMatch[s] == d && q[s][d] != 0 then q[s][d] - 1 else q[s][d]))
  }

  /** Departures leave nonnegative lengths nonnegative. */
  lemma SlotKeepsLengths(q: seq<seq<int>>, pairs: seq<Pair>, inMatch: seq<int>, rows: nat, cols: nat)
    requires IsLengthGrid(q, rows, cols) && |inMatch| == rows
    ensures IsLengthGrid(Enqueued(q, pairs), rows, cols)
    ensures IsLengthGrid(Departed(Enqueued(q, pairs), inMatch), rows, cols)
  {
    EnqueuedEntries(q, pairs);
  }

  /** Every matched input is matched to an output. */
  ghost predicate IsMatchVector(inMatch: seq<int>, inputs: nat, outputs: nat) {
    |inMatch| == inputs && forall s :: 0 <= s < inputs ==> inMatch[s] == UNMATCHED || 0 <= inMatch[s] < outputs
  }

  /** The lengths once the matched nonempty queues of the inputs below `k` have lost a packet. */
  ghost function DepartedBelow(q: seq<seq<int>>, inMatch: seq<int>, k: nat, inputs: nat,
      outputs: nat): (r: seq<seq<int>>)
    requires IsGrid(q, inputs, outputs) && IsMatchVector(inMatch, inputs, outputs) && k <= inputs
    ensures IsGrid(r, inputs, outputs) && forall s :: k <= s < inputs ==> r[s] == q[s]
  {
    if k == 0 then q
    else
      var p := DepartedBelow(q, inMatch, k - 1, inputs, outputs);
      var d := inMatch[k - 1];
      if d == UNMATCHED || p[k - 1][d] == 0 then p else SetAt(p, k - 1, d, p[k - 1][d] - 1)
  }

  lemma {:induction false} DepartedBelowEntries(q: seq<seq<int>>, inMatch: seq<int>, k: nat, inputs: nat, outputs: nat)
    requires IsGrid(q, inputs, outputs) && IsMatchVector(inMatch, inputs, outputs) && k <= inputs
    ensures forall s, d :: 0 <= s < inputs && 0 <= d < outputs ==>
      DepartedBelow(q, inMatch, k, inputs, outputs)[s][d] == if s < k then Departed(q, inMatch)[s][d] else q[s][d]
  {
    if k > 0 {
      DepartedBelowEntries(q, inMatch, k - 1, inputs, outputs);
    }
  }

  lemma DepartedBelowAll(q: seq<seq<int>>, inMatch: seq<int>, inputs: nat, outputs: nat)
    requires IsGrid(q, inputs, outputs) && IsMatchVector(inMatch, inputs, outputs)
    ensures DepartedBelow(q, inMatch, inputs, inputs, outputs) == Departed(q, inMatch)
  {
    DepartedBelowEntries(q, inMatch, inputs, inputs, outputs);
    GridsEqual(DepartedBelow(q, inMatch, inputs, inputs, outputs), Departed(q, inMatch));
  }
}
