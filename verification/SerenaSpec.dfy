/**
 The heaviest full matching in the union of two full matchings. The union falls apart into cycles that
 alternate between the two; on each cycle a full matching takes either one side or the other.
 */
module SerenaSpec {
  import opened Matchings
  import opened Sums

  /** Every input is matched to an output of its own: a permutation. */
  ghost predicate IsFull(s: seq<int>) {
    && (forall i :: 0 <= i < |s| ==> 0 <= s[i] < |s|)
    && (forall i, k :: 0 <= i < k < |s| ==> s[i] != s[k])
  }

  /** Every entry is unmatched or a port. */
  ghost predicate InPorts(s: seq<int>) {
    forall i :: 0 <= i < |s| ==> s[i] == UNMATCHED || 0 <= s[i] < |s|
  }

  ghost predicate Takes(s: seq<int>, o: int) {
    exists i :: 0 <= i < |s| && s[i] == o
  }

  ghost function Taker(s: seq<int>, o: int): (i: nat)
    requires Takes(s, o)
    ensures i < |s| && s[i] == o
  {
    var i :| 0 <= i < |s| && s[i] == o;
    i
  }

  /** The input of each output, if it has one. */
  ghost function Takers(s: seq<int>): (r: seq<int>)
    ensures |r| == |s|
  {
    seq(|s|, o requires 0 <= o < |s| => if Takes(s, o) then Taker(s, o) else UNMATCHED)
  }

  lemma TakersInvert(s: seq<int>)
    requires IsPartialInjection(s, |s|)
    ensures IsMatching(s, Takers(s)) && Size(Takers(s)) == Size(s)
  {
    var r := Takers(s);
    forall i | 0 <= i < |s| && s[i] != UNMATCHED
      ensures r[s[i]] == i
    {
      assert Takes(s, s[i]);
    }
    MatchedPortsAgree(s, r);
  }

  /** A full matching uses every output. */
  lemma FullIsOnto(s: seq<int>, o: int)
    requires IsFull(s) && 0 <= o < |s|
    ensures Takes(s, o)
  {
    TakersInvert(s);
    SizeBounds(s);
    SizeBounds(Takers(s));
    assert Takers(s)[o] != UNMATCHED;
  }

  /** A vector of ports that uses every output is a full matching. */
  lemma OntoIsFull(s: seq<int>)
    requires forall i :: 0 <= i < |s| ==> 0 <= s[i] < |s|
    requires forall o :: 0 <= o < |s| ==> Takes(s, o)
    ensures IsFull(s)
  {
    var r := Takers(s);
    assert IsFull(r);
    forall i, k | 0 <= i < k < |s|
      ensures s[i] != s[k]
    {
      FullIsOnto(r, i);
      FullIsOnto(r, k);
    }
  }

  // Weights

  /** There is a weight for every pair of ports. */
  predicate Covers(weights: seq<seq<int>>, n: nat) {
    |weights| >= n && forall i :: 0 <= i < n ==> |weights[i]| >= n
  }

  /** What each input contributes to the weight of a matching. */
  function Values(s: seq<int>, weights: seq<seq<int>>): (r: seq<int>)
    requires InPorts(s) && Covers(weights, |s|)
    ensures |r| == |s| && forall i :: 0 <= i < |r| ==> r[i] == if s[i] == UNMATCHED then 0 else weights[i][s[i]]
  {
    seq(|s|, i requires 0 <= i < |s| => if s[i] == UNMATCHED then 0 else weights[i][s[i]])
  }

  ghost function Weight(s: seq<int>, weights: seq<seq<int>>): int
    requires InPorts(s) && Covers(weights, |s|)
  {
    Sum(Values(s, weights))
  }

  /** What the first matching gains over the second at each input. */
  ghost function Gains(s1: seq<int>, s2: seq<int>, weights: seq<seq<int>>): (r: seq<int>)
    requires InPorts(s1) && InPorts(s2) && |s1| == |s2| && Covers(weights, |s1|)
    ensures |r| == |s1| && forall i :: 0 <= i < |r| ==> r[i] == Values(s1, weights)[i] - Values(s2, weights)[i]
  {
    seq(|s1|, i requires 0 <= i < |s1| => Values(s1, weights)[i] - Values(s2, weights)[i])
  }

  /** The sum over the inputs with tag `c`. */
  ghost function LabelSum(tag: seq<int>, c: int, values: seq<int>): int
    requires |tag| == |values|
  {
    if tag == [] then 0
    else (if tag[0] == c then values[0] else 0) + LabelSum(tag[1..], c, values[1..])
  }

  lemma {:induction false} LabelSumUpdate(tag: seq<int>, c: int, values: seq<int>, i: nat, d: int)
    requires |tag| == |values| && i < |tag|
    ensures LabelSum(tag[i := c], d, values)
            == LabelSum(tag, d, values) + (if c == d then values[i] else 0) - (if tag[i] == d then values[i] else 0)
  {
    if i > 0 {
      LabelSumUpdate(tag[1..], c, values[1..], i - 1, d);
      assert tag[i := c][1..] == tag[1..][i - 1 := c];
    }
  }

  lemma {:induction false} LabelSumNothing(tag: seq<int>, c: int, values: seq<int>)
    requires |tag| == |values| && forall i :: 0 <= i < |tag| ==> tag[i] != c
    ensures LabelSum(tag, c, values) == 0
  {
    if tag != [] {
      LabelSumNothing(tag[1..], c, values[1..]);
    }
  }

  /** Values that agree up to a factor on the inputs with a tag have sums that agree up to it. */
  lemma {:induction false} LabelSumScales(tag: seq<int>, c: int, a: seq<int>, b: seq<int>, factor: int)
    requires |tag| == |a| == |b| && -1 <= factor <= 1
    requires forall i :: 0 <= i < |tag| && tag[i] == c ==>
      b[i] == if factor == 0 then 0 else if factor == 1 then a[i] else -a[i]
    ensures LabelSum(tag, c, b)
            == if factor == 0 then 0 else if factor == 1 then LabelSum(tag, c, a) else -LabelSum(tag, c, a)
  {
    if tag != [] {
      LabelSumScales(tag[1..], c, a[1..], b[1..], factor);
    }
  }

  /** The sum over the inputs with tags below `n`. */
  ghost function SumBelow(tag: seq<int>, n: nat, values: seq<int>): int
    requires |tag| == |values|
  {
    if n == 0 then 0 else SumBelow(tag, n - 1, values) + LabelSum(tag, n - 1, values)
  }

  lemma {:induction false} SumBelowTail(tag: seq<int>, n: nat, values: seq<int>)
    requires |tag| == |values| && tag != [] && tag[0] >= 0
    ensures SumBelow(tag, n, values) == SumBelow(tag[1..], n, values[1..]) + if tag[0] < n then values[0] else 0
  {
    if n > 0 {
      SumBelowTail(tag, n - 1, values);
    }
  }

  /** When every input has a tag below `n`, summing tag by tag is summing. */
  lemma {:induction false} SumByLabels(tag: seq<int>, n: nat, values: seq<int>)
    requires |tag| == |values| && forall i :: 0 <= i < |tag| ==> 0 <= tag[i] < n
    ensures SumBelow(tag, n, values) == Sum(values)
  {
    if tag == [] {
      SumBelowEmpty(n);
    } else {
      SumBelowTail(tag, n, values);
      SumByLabels(tag[1..], n, values[1..]);
    }
  }

  lemma {:induction false} SumBelowEmpty(n: nat)
    ensures SumBelow([], n, []) == 0
  {
    if n > 0 {
      SumBelowEmpty(n - 1);
    }
  }

  lemma {:induction false} SumBelowNonNegative(tag: seq<int>, n: nat, values: seq<int>)
    requires |tag| == |values| && forall c :: 0 <= c < n ==> LabelSum(tag, c, values) >= 0
    ensures SumBelow(tag, n, values) >= 0
    ensures forall c :: 0 <= c < n ==> LabelSum(tag, c, values) <= SumBelow(tag, n, values)
  {
    if n > 0 {
      SumBelowNonNegative(tag, n - 1, values);
    }
  }

  // Cycles

  /**
   `y` follows `x` when the second matching gives `y` the output the first gives `x`. Inputs that follow
   each other have the same tag, and every input of a tag is reached from its root in `rank` steps.
   */
  ghost predicate Tracked(s1: seq<int>, s2: seq<int>, tag: seq<int>, root: seq<int>, rank: seq<nat>) {
    && |s1| == |s2| == |tag| == |rank|
    && (forall x :: 0 <= x < |tag| ==> tag[x] == -1 || 0 <= tag[x] < |root|)
    && (forall x, y :: 0 <= x < |s1| && 0 <= y < |s2| && s1[x] == s2[y] ==>
          tag[x] == tag[y] && (tag[y] == -1 || y == root[tag[y]] || rank[y] == rank[x] + 1))
  }

  /** The walk along cycle `c` from `start` has reached `i`. */
  ghost predicate Walking(s1: seq<int>, s2: seq<int>, before: seq<int>, tag: seq<int>, rankBefore: seq<nat>,
      rank: seq<nat>, c: nat, start: nat, i: nat)
  {
    && |s1| == |s2| == |before| == |tag| == |rankBefore| == |rank| && start < |s1| && i < |s1|
    && before[start] == -1 && tag[start] == tag[i] == c
    && (forall x :: 0 <= x < |tag| ==>
          if before[x] != -1 then tag[x] == before[x] && rank[x] == rankBefore[x] else tag[x] == -1 || tag[x] == c)
    && (forall x, y :: 0 <= x < |s1| && 0 <= y < |s2| && s1[x] == s2[y] && tag[y] == c && y != start ==>
          tag[x] == c && x != i && rank[y] == rank[x] + 1)
    && (forall x, y :: 0 <= x < |s1| && 0 <= y < |s2| && s1[x] == s2[y] && tag[x] == c && x != i ==> tag[y] == c)
  }

  lemma WalkStarts(s1: seq<int>, s2: seq<int>, before: seq<int>, root: seq<int>, rank: seq<nat>, start: nat)
    requires IsFull(s1) && IsFull(s2) && Tracked(s1, s2, before, root, rank)
    requires start < |s1| && before[start] == -1
    ensures Walking(s1, s2, before, before[start := |root|], rank, rank, |root|, start, start)
  {
  }

  /** As long as the walk is not back at its start, the next input has no tag yet. */
  lemma WalkContinues(s1: seq<int>, s2: seq<int>, before: seq<int>, tag: seq<int>, root: seq<int>, rankBefore: seq<nat>,
      rank: seq<nat>, start: nat, i: nat, next: nat)
    requires IsFull(s1) && IsFull(s2) && Tracked(s1, s2, before, root, rankBefore)
    requires Walking(s1, s2, before, tag, rankBefore, rank, |root|, start, i)
    requires next < |s1| && s1[i] == s2[next] && next != start
    ensures tag[next] == -1
    ensures Walking(s1, s2, before, tag[next := |root|], rankBefore, rank[next := rank[i] + 1], |root|, start, next)
  {
    assert tag[next] == -1;
    var tag', rank' := tag[next := |root|], rank[next := rank[i] + 1];
    forall x, y | 0 <= x < |s1| && 0 <= y < |s2| && s1[x] == s2[y] && tag'[y] == |root| && y != start
      ensures tag'[x] == |root| && x != next && rank'[y] == rank'[x] + 1
    {
      if y == next {
        assert x == i;
      }
    }
    forall x, y | 0 <= x < |s1| && 0 <= y < |s2| && s1[x] == s2[y] && tag'[x] == |root| && x != next
      ensures tag'[y] == |root|
    {
      if x == i {
        assert y == next;
      }
    }
  }

  /** Back at its start, the walk has labelled one cycle. */
  lemma WalkEnds(s1: seq<int>, s2: seq<int>, before: seq<int>, tag: seq<int>, root: seq<int>, rankBefore: seq<nat>,
      rank: seq<nat>, start: nat, i: nat)
    requires IsFull(s1) && IsFull(s2) && Tracked(s1, s2, before, root, rankBefore)
    requires Walking(s1, s2, before, tag, rankBefore, rank, |root|, start, i)
    requires s1[i] == s2[start]
    ensures Tracked(s1, s2, tag, root + [start], rank)
  {
    var root' := root + [start];
    forall x, y | 0 <= x < |s1| && 0 <= y < |s2| && s1[x] == s2[y]
      ensures tag[x] == tag[y] && (tag[y] == -1 || y == root'[tag[y]] || rank[y] == rank[x] + 1)
    {
      if before[y] == -1 {
        assert before[x] == -1;
        if y == start {
          assert x == i;
        } else if x == i {
          assert false;
        }
      } else {
        assert before[x] == before[y];
      }
    }
  }

  // Choosing a side on every cycle

  ghost predicate InUnion(t: seq<int>, s1: seq<int>, s2: seq<int>) {
    |t| == |s1| == |s2| && forall i :: 0 <= i < |t| ==> t[i] == s1[i] || t[i] == s2[i]
  }

  /** A full matching in the union takes the second side at an input exactly when it does at the one before. */
  lemma SidesFollow(t: seq<int>, s1: seq<int>, s2: seq<int>, x: nat, y: nat)
    requires IsFull(s1) && IsFull(s2) && IsFull(t) && InUnion(t, s1, s2)
    requires x < |s1| && y < |s1| && s1[x] == s2[y] && x != y
    ensures t[x] == s2[x] <==> t[y] == s2[y]
  {
    FullIsOnto(t, s1[x]);
    var z := Taker(t, s1[x]);
    assert z == x || z == y;
  }

  /** So it is on the same side all along a cycle. */
  lemma {:induction false} SidesAgree(t: seq<int>, s1: seq<int>, s2: seq<int>, tag: seq<int>, root: seq<int>,
      rank: seq<nat>, y: nat)
    requires IsFull(s1) && IsFull(s2) && IsFull(t) && InUnion(t, s1, s2) && Tracked(s1, s2, tag, root, rank)
    requires y < |s1| && tag[y] != -1 && 0 <= root[tag[y]] < |s1|
    ensures t[y] == s2[y] <==> t[root[tag[y]]] == s2[root[tag[y]]]
    decreases rank[y]
  {
    if y != root[tag[y]] {
      FullIsOnto(s1, s2[y]);
      var x := Taker(s1, s2[y]);
      SidesFollow(t, s1, s2, x, y);
      SidesAgree(t, s1, s2, tag, root, rank, x);
    }
  }

  /** The matching that takes the second side on the selected cycles. */
  ghost predicate IsChoice(s: seq<int>, s1: seq<int>, s2: seq<int>, tag: seq<int>, selected: seq<int>) {
    && |s| == |s1| == |s2| == |tag|
    && forall i :: 0 <= i < |s| ==> 0 <= tag[i] < |selected| && s[i] == if selected[tag[i]] == 0 then s1[i] else s2[i]
  }

  /** Any choice of sides is a full matching. */
  lemma ChoiceIsFull(s: seq<int>, s1: seq<int>, s2: seq<int>, tag: seq<int>, root: seq<int>, rank: seq<nat>,
      selected: seq<int>)
    requires IsFull(s1) && IsFull(s2) && Tracked(s1, s2, tag, root, rank) && IsChoice(s, s1, s2, tag, selected)
    ensures IsFull(s) && InUnion(s, s1, s2)
  {
  }

  /** The second side is selected exactly on the cycles on which the first is lighter. */
  ghost predicate SelectsHeavier(tag: seq<int>, gains: seq<int>, selected: seq<int>, cycles: nat)
    requires |tag| == |gains|
  {
    cycles <= |selected| && forall c :: 0 <= c < cycles ==> (selected[c] == 0 <==> LabelSum(tag, c, gains) >= 0)
  }

  /** `r` is on the first side wherever `t` is. */
  ghost predicate PrefersFirst(t: seq<int>, r: seq<int>, s1: seq<int>) {
    |t| == |r| == |s1| && forall i :: 0 <= i < |s1| && t[i] == s1[i] ==> r[i] == s1[i]
  }

  /** `t` is no heavier than `r`, and if it is as heavy, `r` takes the first side wherever `t` does. */
  ghost predicate NotBetter(t: seq<int>, r: seq<int>, s1: seq<int>, weights: seq<seq<int>>)
    requires InPorts(t) && InPorts(r) && |t| == |r| && Covers(weights, |r|)
  {
    Weight(t, weights) <= Weight(r, weights) && (Weight(t, weights) == Weight(r, weights) ==> PrefersFirst(t, r, s1))
  }

  /** The merge of two full matchings: a heaviest one in the union, and among those the closest to the first. */
  ghost predicate IsMerge(r: seq<int>, s1: seq<int>, s2: seq<int>, weights: seq<seq<int>>)
    requires |s1| == |s2| && Covers(weights, |s1|)
  {
    && IsFull(r) && InUnion(r, s1, s2)
    && forall t :: IsFull(t) && InUnion(t, s1, s2) ==> NotBetter(t, r, s1, weights)
  }

  /** There is at most one merge. */
  lemma MergeIsUnique(a: seq<int>, b: seq<int>, s1: seq<int>, s2: seq<int>, weights: seq<seq<int>>)
    requires |s1| == |s2| && Covers(weights, |s1|)
    requires IsMerge(a, s1, s2, weights) && IsMerge(b, s1, s2, weights)
    ensures a == b
  {
    assert NotBetter(a, b, s1, weights) && NotBetter(b, a, s1, weights);
  }

  /** It is at least as heavy as both. */
  lemma MergeOutweighs(r: seq<int>, s1: seq<int>, s2: seq<int>, weights: seq<seq<int>>)
    requires IsFull(s1) && IsFull(s2) && |s1| == |s2| && Covers(weights, |s1|) && IsMerge(r, s1, s2, weights)
    ensures |r| == |s1| && IsFull(r)
    ensures Weight(s1, weights) <= Weight(r, weights) && Weight(s2, weights) <= Weight(r, weights)
  {
    assert InUnion(s1, s1, s2) && InUnion(s2, s1, s2);
    assert NotBetter(s1, r, s1, weights) && NotBetter(s2, r, s1, weights);
  }

  /** Selecting the heavier side of every cycle, the first if they are equal, is the merge. */
  lemma HeaviestInUnion(s: seq<int>, t: seq<int>, s1: seq<int>, s2: seq<int>, weights: seq<seq<int>>, tag: seq<int>,
      root: seq<int>, rank: seq<nat>, selected: seq<int>)
    requires IsFull(s1) && IsFull(s2) && |s1| == |s2| && Covers(weights, |s1|)
    requires Tracked(s1, s2, tag, root, rank) && IsChoice(s, s1, s2, tag, selected)
    requires forall c :: 0 <= c < |root| ==> 0 <= root[c] < |s1|
    requires SelectsHeavier(tag, Gains(s1, s2, weights), selected, |root|)
    requires IsFull(s) && IsFull(t) && InUnion(t, s1, s2)
    ensures NotBetter(t, s, s1, weights)
  {
    var gains, more := Gains(s1, s2, weights), Gains(s, t, weights);
    forall c | 0 <= c < |root|
      ensures LabelSum(tag, c, more) >= 0
      ensures selected[c] != 0 && t[root[c]] != s2[root[c]] ==> LabelSum(tag, c, more) > 0
    {
      CycleIsHeavier(s, t, s1, s2, weights, tag, root, rank, selected, c);
    }
    SumByLabels(tag, |root|, more);
    SumBelowNonNegative(tag, |root|, more);
    SumAdd(Values(t, weights), more, Values(s, weights));
    if Weight(t, weights) == Weight(s, weights) {
      forall i | 0 <= i < |s1| && t[i] == s1[i]
        ensures s[i] == s1[i]
      {
        SidesAgree(t, s1, s2, tag, root, rank, i);
        assert LabelSum(tag, tag[i], more) <= 0;
      }
    }
  }

  lemma CycleIsHeavier(s: seq<int>, t: seq<int>, s1: seq<int>, s2: seq<int>, weights: seq<seq<int>>, tag: seq<int>,
      root: seq<int>, rank: seq<nat>, selected: seq<int>, c: nat)
    requires IsFull(s1) && IsFull(s2) && |s1| == |s2| && Covers(weights, |s1|)
    requires Tracked(s1, s2, tag, root, rank) && IsChoice(s, s1, s2, tag, selected)
    requires c < |root| && 0 <= root[c] < |s1|
    requires SelectsHeavier(tag, Gains(s1, s2, weights), selected, |root|)
    requires IsFull(s) && IsFull(t) && InUnion(t, s1, s2)
    ensures LabelSum(tag, c, Gains(s, t, weights)) >= 0
    ensures selected[c] != 0 && t[root[c]] != s2[root[c]] ==> LabelSum(tag, c, Gains(s, t, weights)) > 0
  {
    var gains, more := Gains(s1, s2, weights), Gains(s, t, weights);
    var second := t[root[c]] == s2[root[c]];
    var factor := if (selected[c] == 0) == !second then 0 else if second then 1 else -1;
    forall i | 0 <= i < |tag| && tag[i] == c
      ensures more[i] == if factor == 0 then 0 else if factor == 1 then gains[i] else -gains[i]
    {
      SidesAgree(t, s1, s2, tag, root, rank, i);
    }
    LabelSumScales(tag, c, gains, more, factor);
  }

  // There is a merge

  /** Following the outputs from an unlabelled input labels one more cycle. */
  lemma {:induction false} WalkOn(s1: seq<int>, s2: seq<int>, before: seq<int>, tag: seq<int>, root: seq<int>,
      rankBefore: seq<nat>, rank: seq<nat>, start: nat, i: nat)
    returns (tag': seq<int>, rank': seq<nat>)
    requires IsFull(s1) && IsFull(s2) && Tracked(s1, s2, before, root, rankBefore)
    requires Walking(s1, s2, before, tag, rankBefore, rank, |root|, start, i)
    ensures Tracked(s1, s2, tag', root + [start], rank') && Size(tag') >= Size(tag)
    decreases |tag| - Size(tag)
  {
    FullIsOnto(s2, s1[i]);
    var next := Taker(s2, s1[i]);
    if next == start {
      WalkEnds(s1, s2, before, tag, root, rankBefore, rank, start, i);
      tag', rank' := tag, rank;
    } else {
      WalkContinues(s1, s2, before, tag, root, rankBefore, rank, start, i, next);
      SizeUpdate(tag, next, |root|);
      SizeBounds(tag[next := |root|]);
      tag', rank' := WalkOn(s1, s2, before, tag[next := |root|], root, rankBefore, rank[next := rank[i] + 1], start,
                            next);
    }
  }

  /** The roots are inputs. */
  ghost predicate AreRoots(root: seq<int>, n: nat) {
    forall c :: 0 <= c < |root| ==> 0 <= root[c] < n
  }

  /** All inputs can be labelled with their cycles. */
  lemma {:induction false} LabelAll(s1: seq<int>, s2: seq<int>, tag: seq<int>, root: seq<int>, rank: seq<nat>)
    returns (tag': seq<int>, root': seq<int>, rank': seq<nat>)
    requires IsFull(s1) && IsFull(s2) && Tracked(s1, s2, tag, root, rank) && AreRoots(root, |s1|)
    ensures Tracked(s1, s2, tag', root', rank') && AreRoots(root', |s1|)
    ensures forall i :: 0 <= i < |tag'| ==> tag'[i] != -1
    decreases |tag| - Size(tag)
  {
    SizeBounds(tag);
    if start: nat :| start < |tag| && tag[start] == -1 {
      WalkStarts(s1, s2, tag, root, rank, start);
      SizeUpdate(tag, start, |root|);
      var more, steps := WalkOn(s1, s2, tag, tag[start := |root|], root, rank, rank, start, start);
      SizeBounds(more);
      tag', root', rank' := LabelAll(s1, s2, more, root + [start], steps);
    } else {
      tag', root', rank' := tag, root, rank;
    }
  }

  /** Every two full matchings have a merge. */
  lemma MergeExists(s1: seq<int>, s2: seq<int>, weights: seq<seq<int>>)
    requires IsFull(s1) && IsFull(s2) && |s1| == |s2| && Covers(weights, |s1|)
    ensures exists r :: IsMerge(r, s1, s2, weights)
  {
    var n := |s1|;
    var tag, root, rank := LabelAll(s1, s2, Fill(n, -1), [], Fill(n, 0));
    var gains := Gains(s1, s2, weights);
    var selected := seq(|root|, c requires 0 <= c < |root| => if LabelSum(tag, c, gains) >= 0 then 0 else 1);
    var r := seq(n, i requires 0 <= i < n => if selected[tag[i]] == 0 then s1[i] else s2[i]);
    ChoiceIsFull(r, s1, s2, tag, root, rank, selected);
    forall t | IsFull(t) && InUnion(t, s1, s2)
      ensures NotBetter(t, r, s1, weights)
    {
      HeaviestInUnion(r, t, s1, s2, weights, tag, root, rank, selected);
    }
    assert IsMerge(r, s1, s2, weights);
  }
}
