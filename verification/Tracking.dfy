/** How schedulers keep track of which queues are nonempty, from arrivals and single-packet departures. */
module Tracking {
  import opened Matchings
  import opened Sums
  import opened Voq

  function MarkedOne(status: seq<seq<bool>>, p: Pair): (r: seq<seq<bool>>)
    ensures |r| == |status| && forall s :: 0 <= s < |r| ==> |r[s]| == |status[s]|
  {
    if 0 <= p.0 < |status| && 0 <= p.1 < |status[p.0]| then SetAt(status, p.0, p.1, true) else status
  }

  /** Queue status once the listed arrivals have been marked nonempty one after the other. */
  function Marked(status: seq<seq<bool>>, pairs: seq<Pair>): (r: seq<seq<bool>>)
    ensures |r| == |status| && forall s :: 0 <= s < |r| ==> |r[s]| == |status[s]|
  {
    if pairs == [] then status else MarkedOne(Marked(status, pairs[..|pairs| - 1]), pairs[|pairs| - 1])
  }

  lemma MarkedStep(status: seq<seq<bool>>, pairs: seq<Pair>, p: Pair)
    ensures Marked(status, pairs + [p]) == MarkedOne(Marked(status, pairs), p)
  {
    assert (pairs + [p])[..|pairs|] == pairs;
  }

  lemma {:induction false} MarkedEntries(status: seq<seq<bool>>, pairs: seq<Pair>)
    ensures forall s, d :: 0 <= s < |status| && 0 <= d < |status[s]| ==>
      Marked(status, pairs)[s][d] == (status[s][d] || (s, d) in pairs)
  {
    if pairs != [] {
      var front, p := pairs[..|pairs| - 1], pairs[|pairs| - 1];
      MarkedEntries(status, front);
      assert pairs == front + [p];
    }
  }

  /** Queue status once the matched queues of the inputs below `k` that hold a single packet are cleared. */
  function Cleared(status: seq<seq<bool>>, inMatch: seq<int>, q: seq<seq<int>>, k: nat): (r: seq<seq<bool>>)
    requires |inMatch| == |status| == |q| && k <= |q|
    requires forall s :: 0 <= s < |status| ==> |q[s]| == |status[s]|
    ensures |r| == |status| && forall s :: 0 <= s < |r| ==> |r[s]| == |status[s]|
  {
    if k == 0 then status
    else
      var p, d := Cleared(status, inMatch, q, k - 1), inMatch[k - 1];
      if 0 <= d < |q[k - 1]| && q[k - 1][d] == 1 then SetAt(p, k - 1, d, false) else p
  }

  lemma {:induction false} ClearedEntries(status: seq<seq<bool>>, inMatch: seq<int>, q: seq<seq<int>>, k: nat)
    requires |inMatch| == |status| == |q| && k <= |q|
    requires forall s :: 0 <= s < |status| ==> |q[s]| == |status[s]|
    ensures forall s, d :: 0 <= s < |status| && 0 <= d < |status[s]| ==>
      Cleared(status, inMatch, q, k)[s][d] == (status[s][d] && !(s < k && inMatch[s] == d && q[s][d] == 1))
  {
    if k > 0 {
      ClearedEntries(status, inMatch, q, k - 1);
    }
  }

  lemma {:induction false} ClearedUnmatched(status: seq<seq<bool>>, inMatch: seq<int>, q: seq<seq<int>>, k: nat)
    requires |inMatch| == |status| == |q| && k <= |q|
    requires forall s :: 0 <= s < |status| ==> |q[s]| == |status[s]| && inMatch[s] == UNMATCHED
    ensures Cleared(status, inMatch, q, k) == status
  {
    if k > 0 {
      ClearedUnmatched(status, inMatch, q, k - 1);
    }
  }

  /** Status that shows exactly the nonempty queues still does after the arrivals. */
  lemma MarkedTracks(q: seq<seq<int>>, pairs: seq<Pair>, rows: nat, cols: nat)
    requires IsLengthGrid(q, rows, cols)
    ensures Marked(NonEmpty(q), pairs) == NonEmpty(Enqueued(q, pairs))
  {
    var a, b := Marked(NonEmpty(q), pairs), NonEmpty(Enqueued(q, pairs));
    EnqueuedEntries(q, pairs);
    MarkedEntries(NonEmpty(q), pairs);
    forall s, d | 0 <= s < rows && 0 <= d < cols
      ensures a[s][d] == b[s][d]
    {
      assert q[s][d] >= 0;
    }
    GridsEqual(a, b);
  }

  /** ... and after the departures. */
  lemma ClearedTracks(q: seq<seq<int>>, inMatch: seq<int>, rows: nat, cols: nat)
    requires IsLengthGrid(q, rows, cols) && |inMatch| == rows
    ensures Cleared(NonEmpty(q), inMatch, q, rows) == NonEmpty(Departed(q, inMatch))
  {
    var a, b := Cleared(NonEmpty(q), inMatch, q, rows), NonEmpty(Departed(q, inMatch));
    ClearedEntries(NonEmpty(q), inMatch, q, rows);
    forall s, d | 0 <= s < rows && 0 <= d < cols
      ensures a[s][d] == b[s][d]
    {
      assert q[s][d] >= 0;
    }
    GridsEqual(a, b);
  }
}
