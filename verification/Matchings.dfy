/**
 Partial matchings between the input and output ports of a switch, stored as the two arrays every
 scheduler keeps: the output of each input and the input of each output, -1 standing for unmatched.
 */
module Matchings {
  import opened Sums

  const UNMATCHED := -1

  /** The two arrays are mutually inverse, so each port is used at most once. */
  ghost predicate IsMatching(inMatch: seq<int>, outMatch: seq<int>) {
    && (forall i :: 0 <= i < |inMatch| && inMatch[i] != UNMATCHED ==>
          0 <= inMatch[i] < |outMatch| && outMatch[inMatch[i]] == i)
    && (forall o :: 0 <= o < |outMatch| && outMatch[o] != UNMATCHED ==>
          0 <= outMatch[o] < |inMatch| && inMatch[outMatch[o]] == o)
  }

  /** No request joins an unmatched input to an unmatched output. */
  ghost predicate IsMaximal(inMatch: seq<int>, outMatch: seq<int>, requests: seq<seq<bool>>)
    requires |requests| == |inMatch|
    requires forall i :: 0 <= i < |requests| ==> |requests[i]| == |outMatch|
  {
    forall i, o :: 0 <= i < |inMatch| && 0 <= o < |outMatch| && requests[i][o] ==>
      inMatch[i] != UNMATCHED || outMatch[o] != UNMATCHED
  }

  /** The nonempty virtual output queues of a length matrix. */
  function NonEmpty(lengths: seq<seq<int>>): (r: seq<seq<bool>>)
    ensures |r| == |lengths|
    ensures forall i :: 0 <= i < |r| ==> |r[i]| == |lengths[i]|
    ensures forall i, o :: 0 <= i < |r| && 0 <= o < |r[i]| ==> r[i][o] == (lengths[i][o] > 0)
  {
    seq(|lengths|, i requires 0 <= i < |lengths| =>
      seq(|lengths[i]|, o requires 0 <= o < |lengths[i]| => lengths[i][o] > 0))
  }

  /** An output array used without its inverse: entries are outputs, none taken twice. */
  ghost predicate IsPartialInjection(inMatch: seq<int>, outputs: nat) {
    && (forall i :: 0 <= i < |inMatch| ==> inMatch[i] == UNMATCHED || 0 <= inMatch[i] < outputs)
    && (forall i, k :: 0 <= i < k < |inMatch| && inMatch[i] != UNMATCHED ==> inMatch[i] != inMatch[k])
  }

  /** The number of matched ports. */
  function Size(match_: seq<int>): nat {
    if match_ == [] then 0 else (if match_[0] == UNMATCHED then 0 else 1) + Size(match_[1..])
  }

  lemma {:induction false} SizeUpdate(s: seq<int>, i: nat, v: int)
    requires i < |s|
    ensures Size(s[i := v]) ==
            Size(s) - (if s[i] == UNMATCHED then 0 else 1) + (if v == UNMATCHED then 0 else 1)
  {
    if i > 0 {
      SizeUpdate(s[1..], i - 1, v);
      assert s[i := v][1..] == s[1..][i - 1 := v];
    }
  }

  lemma {:induction false} SizeBounds(s: seq<int>)
    ensures Size(s) <= |s|
    ensures Size(s) == |s| <==> forall i :: 0 <= i < |s| ==> s[i] != UNMATCHED
    ensures Size(s) == 0 <==> forall i :: 0 <= i < |s| ==> s[i] == UNMATCHED
  {
    if s != [] {
      SizeBounds(s[1..]);
      assert forall i :: 0 < i < |s| ==> s[i] == s[1..][i - 1];
    }
  }

  /** Matching more ports and unmatching none never loses size; one new port gains at least one. */
  lemma {:induction false} SizeGrows(s: seq<int>, t: seq<int>)
    requires |s| == |t|
    requires forall i :: 0 <= i < |s| && s[i] != UNMATCHED ==> t[i] != UNMATCHED
    ensures Size(s) <= Size(t)
    ensures (exists i :: 0 <= i < |s| && s[i] == UNMATCHED && t[i] != UNMATCHED) ==> Size(s) < Size(t)
  {
    if s != [] {
      SizeGrows(s[1..], t[1..]);
      if i :| 0 <= i < |s| && s[i] == UNMATCHED && t[i] != UNMATCHED {
        if i > 0 {
          assert s[1..][i - 1] == UNMATCHED && t[1..][i - 1] != UNMATCHED;
        }
      }
    }
  }

  /** A matching uses as many inputs as outputs. */
  lemma {:induction false} MatchedPortsAgree(inMatch: seq<int>, outMatch: seq<int>)
    requires IsMatching(inMatch, outMatch)
    ensures Size(inMatch) == Size(outMatch)
    decreases Size(inMatch)
  {
    SizeBounds(inMatch);
    SizeBounds(outMatch);
    if i :| 0 <= i < |inMatch| && inMatch[i] != UNMATCHED {
      var o := inMatch[i];
      SizeUpdate(inMatch, i, UNMATCHED);
      SizeUpdate(outMatch, o, UNMATCHED);
      MatchedPortsAgree(inMatch[i := UNMATCHED], outMatch[o := UNMATCHED]);
    }
  }

  /** A matching as large as the smaller side is maximal whatever the requests are. */
  lemma FullSizeIsMaximal(inMatch: seq<int>, outMatch: seq<int>, requests: seq<seq<bool>>)
    requires IsMatching(inMatch, outMatch)
    requires |requests| == |inMatch|
    requires forall i :: 0 <= i < |requests| ==> |requests[i]| == |outMatch|
    requires Size(inMatch) >= |inMatch| || Size(inMatch) >= |outMatch|
    ensures IsMaximal(inMatch, outMatch, requests)
  {
    MatchedPortsAgree(inMatch, outMatch);
    SizeBounds(inMatch);
    SizeBounds(outMatch);
  }

  // Proposals

  ghost predicate AreInputs(list: seq<int>, inputs: nat) {
    forall x :: 0 <= x < |list| ==> 0 <= list[x] < inputs
  }

  /** An output keeps up to `cutoff` proposals; a negative cutoff is converted to a huge unsigned number. */
  predicate AcceptsMore(cutoff: int, kept: nat) {
    cutoff < 0 || kept < cutoff
  }

  /** The proposals of the inputs below `k` that the outputs consider: the first `cutoff` of each. */
  function Considered(draws: seq<int>, cutoff: int, k: nat, outputs: nat): (r: seq<seq<int>>)
    requires k <= |draws| && forall i :: 0 <= i < k ==> draws[i] == UNMATCHED || 0 <= draws[i] < outputs
    ensures |r| == outputs && forall o :: 0 <= o < outputs ==> AreInputs(r[o], k)
  {
    if k == 0 then Fill(outputs, [])
    else
      var r, o := Considered(draws, cutoff, k - 1, outputs), draws[k - 1];
      if o == UNMATCHED || !AcceptsMore(cutoff, |r[o]|) then r else r[o := r[o] + [k - 1]]
  }

  /** The inputs below `i` that propose to output `o`. */
  ghost function Proposers(draws: seq<int>, o: int, i: nat): set<int>
    requires i <= |draws|
  {
    set x | 0 <= x < i && draws[x] == o
  }

  /** Output `o` considers input `i`: with a negative cutoff always, otherwise if few enough came before. */
  ghost predicate IsConsidered(draws: seq<int>, cutoff: int, o: int, i: nat)
    requires i < |draws|
  {
    draws[i] == o && (cutoff < 0 || |Proposers(draws, o, i)| < cutoff)
  }

  /** The proposals that output `o` considers, in the order of the inputs. */
  ghost predicate ListsConsidered(list: seq<int>, draws: seq<int>, cutoff: int, o: int, k: nat)
    requires k <= |draws|
  {
    && AreInputs(list, k) && (forall x, y :: 0 <= x < y < |list| ==> list[x] < list[y])
    && (forall i :: 0 <= i < k ==> (i in list <==> IsConsidered(draws, cutoff, o, i)))
    && (cutoff >= 0 ==> |list| <= cutoff)
  }

  lemma OneMoreProposer(draws: seq<int>, o: int, i: nat)
    requires i < |draws|
    ensures Proposers(draws, o, i + 1) == if draws[i] == o then Proposers(draws, o, i) + {i} else Proposers(draws, o, i)
    ensures |Proposers(draws, o, i + 1)| == |Proposers(draws, o, i)| + if draws[i] == o then 1 else 0
  {
    assert Proposers(draws, o, i + 1) == if draws[i] == o then Proposers(draws, o, i) + {i} else Proposers(draws, o, i);
  }

  /** The list is as long as there are proposers, up to the cutoff. */
  ghost predicate CountsProposers(list: seq<int>, draws: seq<int>, cutoff: int, o: int, k: nat)
    requires k <= |draws|
  {
    cutoff >= 0 ==> |list| == if |Proposers(draws, o, k)| < cutoff then |Proposers(draws, o, k)| else cutoff
  }

  /** One more input is added to the list exactly if it is considered. */
  lemma ConsideredOneMore(list: seq<int>, draws: seq<int>, cutoff: int, o: int, k: nat)
    requires k < |draws| && ListsConsidered(list, draws, cutoff, o, k) && CountsProposers(list, draws, cutoff, o, k)
    ensures IsConsidered(draws, cutoff, o, k) <==> draws[k] == o && AcceptsMore(cutoff, |list|)
    ensures var more := if draws[k] == o && AcceptsMore(cutoff, |list|) then list + [k] else list;
            ListsConsidered(more, draws, cutoff, o, k + 1) && CountsProposers(more, draws, cutoff, o, k + 1)
  {
    OneMoreProposer(draws, o, k);
    assert IsConsidered(draws, cutoff, o, k) <==> draws[k] == o && AcceptsMore(cutoff, |list|);
    assert cutoff >= 0 && IsConsidered(draws, cutoff, o, k) ==> |list| < cutoff;
    hide IsConsidered, Proposers;
    var more := list + [k];
    assert more[|list|] == k;
  }

  /** Counting the list up to the cutoff is counting the proposers. */
  lemma {:induction false} ConsideredExactly(draws: seq<int>, cutoff: int, k: nat, outputs: nat, o: nat)
    requires k <= |draws| && forall i :: 0 <= i < k ==> draws[i] == UNMATCHED || 0 <= draws[i] < outputs
    requires o < outputs
    ensures var list := Considered(draws, cutoff, k, outputs)[o];
            ListsConsidered(list, draws, cutoff, o, k) && CountsProposers(list, draws, cutoff, o, k)
  {
    if k == 0 {
      assert Proposers(draws, o, 0) == {};
    } else {
      ConsideredExactly(draws, cutoff, k - 1, outputs, o);
      hide ListsConsidered, CountsProposers, AcceptsMore;
      ConsideredOneMore(Considered(draws, cutoff, k - 1, outputs)[o], draws, cutoff, o, k - 1);
    }
  }

  /** The lists of all outputs. */
  ghost predicate AreConsidered(accepts: seq<seq<int>>, draws: seq<int>, cutoff: int, outputs: nat) {
    |accepts| == outputs && forall o :: 0 <= o < outputs ==> ListsConsidered(accepts[o], draws, cutoff, o, |draws|)
  }

  lemma ConsideredAreConsidered(draws: seq<int>, cutoff: int, outputs: nat)
    requires forall i :: 0 <= i < |draws| ==> draws[i] == UNMATCHED || 0 <= draws[i] < outputs
    ensures AreConsidered(Considered(draws, cutoff, |draws|, outputs), draws, cutoff, outputs)
  {
    forall o | 0 <= o < outputs {
      ConsideredExactly(draws, cutoff, |draws|, outputs, o);
    }
  }
}
