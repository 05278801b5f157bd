/** The merging of matchings: checking, completing and merging, in place on arrays. */
module Serena {
  import opened Matchings
  import opened SerenaSpec
  import opened Sums

  const MATCHED := 1

  /** `is_matching`: every entry is a port and every port occurs. That makes it a permutation. */
  method IsMatchingVector(s: seq<int>) returns (result: bool)
    ensures result <==> IsFull(s)
  {
    var visited := Fill(|s|, UNMATCHED);
    for i := 0 to |s|
      invariant |visited| == |s| && forall k :: 0 <= k < i ==> 0 <= s[k] < |s|
      invariant forall o :: 0 <= o < |s| ==> (visited[o] == MATCHED <==> exists k :: 0 <= k < i && s[k] == o)
    {
      if 0 <= s[i] < |s| {
        visited := visited[s[i] := MATCHED];
      } else {
        return false;
      }
    }
    for i := 0 to |s|
      invariant forall o :: 0 <= o < i ==> Takes(s, o)
    {
      if visited[i] != MATCHED {
        if IsFull(s) {
          FullIsOnto(s, i);
        }
        return false;
      }
    }
    OntoIsFull(s);
    return true;
  }

  /** `list` holds the unmatched entries of `m` in increasing order. */
  ghost predicate ListsGaps(list: seq<nat>, m: seq<int>) {
    && |list| == |m| - Size(m)
    && (forall x :: 0 <= x < |list| ==> list[x] < |m| && m[list[x]] == UNMATCHED)
    && (forall x, y :: 0 <= x < y < |list| ==> list[x] < list[y])
    && (forall k :: 0 <= k < |m| && m[k] == UNMATCHED ==> k in list)
  }

  lemma {:induction false} SizeAppend(m: seq<int>, v: int)
    ensures Size(m + [v]) == Size(m) + if v == UNMATCHED then 0 else 1
  {
    if m != [] {
      SizeAppend(m[1..], v);
      assert (m + [v])[1..] == m[1..] + [v];
    }
  }

  lemma NoGaps(m: seq<int>)
    ensures ListsGaps([], m[..0])
  {
  }

  lemma GapsStep(list: seq<nat>, m: seq<int>, i: nat)
    requires i < |m| && ListsGaps(list, m[..i])
    ensures ListsGaps(if m[i] == UNMATCHED then list + [i] else list, m[..i + 1])
  {
    SizeAppend(m[..i], m[i]);
    assert m[..i + 1] == m[..i] + [m[i]];
    var list' := if m[i] == UNMATCHED then list + [i] else list;
    forall k | 0 <= k < i + 1 && m[k] == UNMATCHED
      ensures k in list'
    {
      if k < i {
        assert m[..i][k] == UNMATCHED;
      } else {
        assert list'[|list|] == i;
      }
    }
  }

  /** Marks of the outputs a matching takes. */
  ghost predicate Marks(marks: seq<int>, s: seq<int>) {
    |marks| == |s| && forall o :: 0 <= o < |s| ==> (marks[o] != UNMATCHED <==> Takes(s, o))
  }

  /** Marks of the outputs the inputs below `i` take. */
  ghost predicate MarksBelow(marks: seq<int>, s: seq<int>, i: nat)
    requires i <= |s|
  {
    |marks| == |s| && forall o :: 0 <= o < |s| ==> (marks[o] != UNMATCHED <==> exists k :: 0 <= k < i && s[k] == o)
  }

  lemma MarksStart(s: seq<int>)
    ensures MarksBelow(Fill(|s|, UNMATCHED), s, 0)
    ensures forall marks :: MarksBelow(marks, s, |s|) ==> Marks(marks, s)
  {
  }

  lemma MarksStep(marks: seq<int>, s: seq<int>, i: nat)
    requires i < |s| && InPorts(s) && MarksBelow(marks, s, i)
    ensures |marks| == |s| && MarksBelow(if s[i] == UNMATCHED then marks else marks[s[i] := MATCHED], s, i + 1)
  {
  }

  /** A partial matching leaves as many inputs as outputs. */
  lemma GapsAgree(s: seq<int>, marks: seq<int>, ins: seq<nat>, outs: seq<nat>)
    requires Marks(marks, s) && ListsGaps(ins, s) && ListsGaps(outs, marks) && IsPartialInjection(s, |s|)
    ensures |ins| == |outs|
  {
    TakersInvert(s);
    SizeGrows(marks, Takers(s));
    SizeGrows(Takers(s), marks);
  }

  /** If there are as many, joining them gives a full matching. */
  lemma JoinedIsFull(s: seq<int>, marks: seq<int>, ins: seq<nat>, outs: seq<nat>, r: seq<int>)
    requires InPorts(s) && Marks(marks, s) && ListsGaps(ins, s) && ListsGaps(outs, marks) && |ins| == |outs|
    requires |r| == |s| && forall k :: 0 <= k < |s| && s[k] != UNMATCHED ==> r[k] == s[k]
    requires forall x :: 0 <= x < |ins| ==> r[ins[x]] == outs[x]
    ensures IsFull(r) && IsPartialInjection(s, |s|)
  {
    forall o | 0 <= o < |r|
      ensures Takes(r, o)
    {
      if marks[o] == UNMATCHED {
        var x :| 0 <= x < |outs| && outs[x] == o;
        assert r[ins[x]] == o;
      } else {
        assert r[Taker(s, o)] == o;
      }
    }
    forall k | 0 <= k < |r|
      ensures 0 <= r[k] < |r|
    {
      if s[k] == UNMATCHED {
        var x :| 0 <= x < |ins| && ins[x] == k;
      }
    }
    OntoIsFull(r);
  }

  /** Earlier inputs get earlier outputs. */
  lemma JoinedInOrder(s: seq<int>, marks: seq<int>, ins: seq<nat>, outs: seq<nat>, r: seq<int>)
    requires ListsGaps(ins, s) && ListsGaps(outs, marks) && |ins| == |outs| && |r| == |s|
    requires forall x :: 0 <= x < |ins| ==> r[ins[x]] == outs[x]
    ensures forall i, k :: 0 <= i < k < |s| && s[i] == UNMATCHED && s[k] == UNMATCHED ==> r[i] < r[k]
  {
    forall i, k | 0 <= i < k < |s| && s[i] == UNMATCHED && s[k] == UNMATCHED
      ensures r[i] < r[k]
    {
      var x :| 0 <= x < |ins| && ins[x] == i;
      var y :| 0 <= y < |ins| && ins[y] == k;
      assert x < y;
    }
  }

  /** The unmatched inputs, in order; the matched outputs are marked. */
  method UnmatchedInputs(s: seq<int>) returns (unmatchedIn: seq<nat>, isMatched: seq<int>)
    requires InPorts(s)
    ensures ListsGaps(unmatchedIn, s) && Marks(isMatched, s)
  {
    hide ListsGaps, Marks, MarksBelow;
    NoGaps(s);
    MarksStart(s);
    isMatched := Fill(|s|, UNMATCHED);
    unmatchedIn := [];
    for i := 0 to |s|
      invariant ListsGaps(unmatchedIn, s[..i]) && MarksBelow(isMatched, s, i)
    {
      MarksStep(isMatched, s, i);
      GapsStep(unmatchedIn, s, i);
      if s[i] != UNMATCHED {
        isMatched := isMatched[s[i] := MATCHED];
      } else {
        unmatchedIn := unmatchedIn + [i];
      }
    }
    assert s[..|s|] == s;
  }

  /** The unmatched outputs, in order. */
  method UnmatchedOutputs(isMatched: seq<int>) returns (unmatchedOut: seq<nat>)
    ensures ListsGaps(unmatchedOut, isMatched)
  {
    unmatchedOut := [];
    for k := 0 to |isMatched|
      invariant ListsGaps(unmatchedOut, isMatched[..k])
    {
      GapsStep(unmatchedOut, isMatched, k);
      if isMatched[k] == UNMATCHED {
        unmatchedOut := unmatchedOut + [k];
      }
    }
    assert isMatched[..|isMatched|] == isMatched;
  }

  /**
   `fix_matching`: joins the unmatched inputs to the unmatched outputs in order. Its assertion that there
   are as many holds exactly when no output is taken twice; then the result is a full matching that keeps
   every pair there was.
   */
  method FixMatching(s: array<int>) returns (ok: bool)
    requires InPorts(s[..])
    modifies s
    ensures ok <==> IsPartialInjection(old(s[..]), s.Length)
    ensures ok ==> IsFull(s[..]) && forall k :: 0 <= k < s.Length && old(s[k]) != UNMATCHED ==> s[k] == old(s[k])
    ensures ok ==> forall i, k :: 0 <= i < k < s.Length && old(s[i]) == UNMATCHED && old(s[k]) == UNMATCHED ==>
      s[i] < s[k]
    ensures !ok ==> s[..] == old(s[..])
  {
    hide Marks, IsFull;
    ghost var given := s[..];
    var unmatchedIn, isMatched := UnmatchedInputs(s[..]);
    var unmatchedOut := UnmatchedOutputs(isMatched);
    if |unmatchedIn| != |unmatchedOut| {
      if IsPartialInjection(given, s.Length) {
        GapsAgree(given, isMatched, unmatchedIn, unmatchedOut);
      }
      return false;
    }
    for j := 0 to |unmatchedIn|
      invariant forall k :: 0 <= k < s.Length && given[k] != UNMATCHED ==> s[k] == given[k]
      invariant forall x :: 0 <= x < j ==> s[unmatchedIn[x]] == unmatchedOut[x]
    {
      s[unmatchedIn[j]] := unmatchedOut[j];
    }
    JoinedIsFull(given, isMatched, unmatchedIn, unmatchedOut, s[..]);
    JoinedInOrder(given, isMatched, unmatchedIn, unmatchedOut, s[..]);
    return true;
  }

  /** The inverse of a full matching. */
  method Reverse(s: seq<int>) returns (reverse: seq<int>)
    requires IsFull(s)
    ensures |reverse| == |s| && forall o :: 0 <= o < |s| ==> 0 <= reverse[o] < |s| && s[reverse[o]] == o
  {
    reverse := Fill(|s|, 0);
    for i := 0 to |s|
      invariant |reverse| == |s| && forall k :: 0 <= k < i ==> reverse[s[k]] == k
    {
      reverse := reverse[s[i] := i];
    }
    forall o | 0 <= o < |s|
      ensures 0 <= reverse[o] < |s| && s[reverse[o]] == o
    {
      FullIsOnto(s, o);
      var i := Taker(s, o);
      assert reverse[s[i]] == i;
    }
  }

  /**
   The walk along one cycle: from an input to the output the first matching gives it, and on to the input
   that the second gives that output. It comes back to its start, having labelled the cycle, and returns
   what the first matching gains over the second on it.
   */
  method FollowCycle(s1: seq<int>, s2: seq<int>, reverse: seq<int>, weights: seq<seq<int>>, before: seq<int>,
      start: nat, c: nat, ghost root: seq<int>, ghost rankBefore: seq<nat>)
    returns (tag: seq<int>, w: int, labelled: nat, ghost rank: seq<nat>)
    requires IsFull(s1) && IsFull(s2) && |s1| == |s2| && Covers(weights, |s1|)
    requires |reverse| == |s2| && forall o :: 0 <= o < |s2| ==> 0 <= reverse[o] < |s2| && s2[reverse[o]] == o
    requires Tracked(s1, s2, before, root, rankBefore) && c == |root|
    requires start < |s1| && before[start] == -1
    ensures Tracked(s1, s2, tag, root + [start], rank)
    ensures Size(tag) == Size(before) + labelled && labelled > 0
    ensures w == LabelSum(tag, c, Gains(s1, s2, weights))
    ensures forall d :: 0 <= d < c ==>
      LabelSum(tag, d, Gains(s1, s2, weights)) == LabelSum(before, d, Gains(s1, s2, weights))
  {
    ghost var gains := Gains(s1, s2, weights);
    LabelSumNothing(before, c, gains);
    forall d | 0 <= d <= c {
      LabelSumUpdate(before, c, gains, start, d);
    }
    SizeUpdate(before, start, c);
    WalkStarts(s1, s2, before, root, rankBefore, start);
    tag, rank, labelled := before[start := c], rankBefore, 1;
    var i := start;
    var current := s1[i];
    w := weights[i][current];
    ghost var closed := false;
    for j := 0 to 2 * |s1|
      invariant !closed && Walking(s1, s2, before, tag, rankBefore, rank, c, start, i)
      invariant current == s1[i] && w == LabelSum(tag, c, gains) + weights[start][s2[start]]
      invariant Size(tag) == Size(before) + labelled && labelled == j + 1
      invariant forall d :: 0 <= d < c ==> LabelSum(tag, d, gains) == LabelSum(before, d, gains)
    {
      var k := current;
      current := reverse[k];
      w := w - weights[current][k];
      if current == start {
        WalkEnds(s1, s2, before, tag, root, rankBefore, rank, start, i);
        closed := true;
        break;
      }
      WalkContinues(s1, s2, before, tag, root, rankBefore, rank, start, i, current);
      SizeUpdate(tag, current, c);
      forall d | 0 <= d <= c {
        LabelSumUpdate(tag, c, gains, current, d);
      }
      rank := rank[current := rank[i] + 1];
      i := current;
      tag := tag[i := c];
      labelled := labelled + 1;
      current := s1[i];
      w := w + weights[i][current];
    }
    SizeBounds(tag);
  }

  /**
   `merge`: on every cycle of the union the heavier side is taken, the first if they are equal. The result
   is a heaviest full matching in the union and the only one with that preference; it may overwrite either.
   */
  method Merge(s1: array<int>, s2: array<int>, s: array<int>, weights: seq<seq<int>>)
    requires IsFull(s1[..]) && IsFull(s2[..]) && s1.Length == s2.Length == s.Length && Covers(weights, s1.Length)
    modifies s
    ensures IsFull(s[..]) && IsMerge(s[..], old(s1[..]), old(s2[..]), weights)
    ensures forall t :: IsFull(t) && InUnion(t, old(s1[..]), old(s2[..])) ==>
      Weight(t, weights) <= Weight(s[..], weights)
  {
    ghost var a, b := s1[..], s2[..];
    var n := s1.Length;
    var tag, selected, cycles := FindCycles(s1[..], s2[..], weights);
    ghost var root, rank :| Tracked(a, b, tag, root, rank) && |root| == cycles
                            && forall c :: 0 <= c < cycles ==> 0 <= root[c] < n;
    for i := 0 to n
      invariant forall k :: 0 <= k < i ==> s[k] == if selected[tag[k]] == 0 then a[k] else b[k]
      invariant forall k :: i <= k < n ==> s1[k] == a[k] && s2[k] == b[k]
    {
      s[i] := if selected[tag[i]] == 0 then s1[i] else s2[i];
    }
    ChoiceIsFull(s[..], a, b, tag, root, rank, selected);
    forall t | IsFull(t) && InUnion(t, a, b)
      ensures NotBetter(t, s[..], a, weights)
    {
      HeaviestInUnion(s[..], t, a, b, weights, tag, root, rank, selected);
    }
  }

  /** Labels every input with its cycle and selects the second side of the cycles on which it is heavier. */
  method FindCycles(s1: seq<int>, s2: seq<int>, weights: seq<seq<int>>)
    returns (tag: seq<int>, selected: seq<int>, c: nat)
    requires IsFull(s1) && IsFull(s2) && |s1| == |s2| && Covers(weights, |s1|)
    ensures |tag| == |s1| && c <= |selected| && forall i :: 0 <= i < |tag| ==> 0 <= tag[i] < c
    ensures SelectsHeavier(tag, Gains(s1, s2, weights), selected, c)
    ensures exists root: seq<int>, rank: seq<nat> :: Tracked(s1, s2, tag, root, rank) && |root| == c
                                   && forall d :: 0 <= d < c ==> 0 <= root[d] < |s1|
  {
    var n := |s1|;
    var reverse := Reverse(s2);
    var unmatchedInputs: int := n;
    tag, selected, c := Fill(n, -1), Fill(n, 0), 0;
    ghost var root: seq<int>, rank: seq<nat> := [], Fill(n, 0);
    SizeBounds(tag);
    while unmatchedInputs > 0
      invariant unmatchedInputs == n - Size(tag) && c <= Size(tag) <= n && |selected| == n
      invariant Tracked(s1, s2, tag, root, rank) && |root| == c && forall d :: 0 <= d < c ==> 0 <= root[d] < n
      invariant SelectsHeavier(tag, Gains(s1, s2, weights), selected, c)
      invariant forall d :: c <= d < n ==> selected[d] == 0
      decreases unmatchedInputs
    {
      var i := FirstUnlabelled(tag);
      var w, labelled;
      ghost var rank';
      tag, w, labelled, rank' := FollowCycle(s1, s2, reverse, weights, tag, i, c, root, rank);
      SizeBounds(tag);
      root, rank := root + [i], rank';
      unmatchedInputs := unmatchedInputs - labelled;
      if w < 0 {
        selected := selected[c := 1];
      }
      c := c + 1;
    }
    SizeBounds(tag);
  }

  method FirstUnlabelled(tag: seq<int>) returns (i: nat)
    requires Size(tag) < |tag|
    ensures i < |tag| && tag[i] == -1 && forall k :: 0 <= k < i ==> tag[k] != -1
  {
    SizeBounds(tag);
    i := 0;
    while i < |tag|
      invariant i <= |tag| && forall k :: 0 <= k < i ==> tag[k] != -1
    {
      if tag[i] == -1 {
        break;
      }
      i := i + 1;
    }
  }
}
