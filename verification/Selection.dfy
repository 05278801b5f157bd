/** Selecting one matching from the full matchings of a frame: the first, the heaviest, or a merged one. */
module Selection {
  import opened Matchings
  import opened SbQpsSpec
  import opened Serena
  import opened SerenaSpec
  import opened Sums

  datatype SelectionMethod = Heaviest | MergeAll | First | MaxOfGroups | MergeOfGroups

  /** Full matchings of `n` ports, all of which can be weighed. */
  ghost predicate AreFull(scheds: seq<seq<int>>, n: nat, weights: seq<seq<int>>) {
    IsGrid(scheds, |scheds|, n) && Covers(weights, n) && forall f :: 0 <= f < |scheds| ==> IsFull(scheds[f])
  }

  /** A full matching at least as heavy as the ones in slots `lo` to `hi`. */
  ghost predicate Outweighs(s: seq<int>, scheds: seq<seq<int>>, n: nat, weights: seq<seq<int>>, lo: nat, hi: nat)
    requires AreFull(scheds, n, weights) && hi <= |scheds|
  {
    && |s| == n && IsFull(s)
    && forall f :: lo <= f < hi ==> Weight(scheds[f], weights) <= Weight(s, weights)
  }

  /** Every pair there was is kept, and the free inputs get the free outputs in order. */
  ghost predicate Completes(r: seq<int>, s: seq<int>) {
    && |r| == |s| && IsFull(r)
    && (forall i :: 0 <= i < |s| && s[i] != UNMATCHED ==> r[i] == s[i])
    && (forall i, k :: 0 <= i < k < |s| && s[i] == UNMATCHED && s[k] == UNMATCHED ==> r[i] < r[k])
  }

  ghost predicate AllCompleted(fixed: seq<seq<int>>, scheds: seq<seq<int>>) {
    |fixed| == |scheds| && forall f :: 0 <= f < |scheds| ==> Completes(fixed[f], scheds[f])
  }

  lemma CompletedExtend(fixed: seq<seq<int>>, scheds: seq<seq<int>>)
    requires AllCompleted(fixed, scheds)
    ensures Extends(fixed, scheds) && forall f :: 0 <= f < |fixed| ==> IsFull(fixed[f])
  {
    assert forall f :: 0 <= f < |scheds| ==> Completes(fixed[f], scheds[f]);
  }

  /** Up to the first difference, the second completion gives no smaller output. */
  lemma NoSmallerOutput(a: seq<int>, b: seq<int>, s: seq<int>, i: nat)
    requires Completes(a, s) && Completes(b, s) && i < |s| && a[..i] == b[..i] && s[i] == UNMATCHED
    ensures a[i] <= b[i]
  {
    assert forall x :: 0 <= x < i ==> a[..i][x] == b[..i][x];
    FullIsOnto(a, b[i]);
    var _ := Taker(a, b[i]);
  }

  /** A matching has one completion. */
  lemma {:induction false} CompletionIsUnique(a: seq<int>, b: seq<int>, s: seq<int>, n: nat)
    requires Completes(a, s) && Completes(b, s) && n <= |s|
    ensures a[..n] == b[..n] && (n == |s| ==> a == b)
  {
    if n > 0 {
      CompletionIsUnique(a, b, s, n - 1);
      if s[n - 1] == UNMATCHED {
        NoSmallerOutput(a, b, s, n - 1);
        NoSmallerOutput(b, a, s, n - 1);
      }
      assert a[..n] == a[..n - 1] + [a[n - 1]] && b[..n] == b[..n - 1] + [b[n - 1]];
    }
    if n == |s| {
      assert a[..n] == a && b[..n] == b;
    }
  }

  /** Completes the matching of every slot. */
  method FixAll(scheds: seq<seq<int>>, n: nat) returns (fixed: seq<seq<int>>)
    requires IsFrame(scheds, |scheds|, n, n)
    ensures AllCompleted(fixed, scheds)
  {
    hide IsFull;
    fixed := scheds;
    for f := 0 to |scheds|
      invariant |fixed| == |scheds| && forall x :: 0 <= x < f ==> Completes(fixed[x], scheds[x])
      invariant forall x :: f <= x < |scheds| ==> fixed[x] == scheds[x]
    {
      var s := new int[n](i requires 0 <= i < n && |scheds[f]| == n => scheds[f][i]);
      assert s[..] == scheds[f];
      var ok := FixMatching(s);
      fixed := fixed[f := s[..]];
    }
  }

  method WeightComputation(s: seq<int>, weights: seq<seq<int>>) returns (result: int)
    requires InPorts(s) && Covers(weights, |s|)
    ensures result == Weight(s, weights)
  {
    result := 0;
    ghost var values := Values(s, weights);
    for i := 0 to |s|
      invariant result == Sum(values[..i])
    {
      SumPrefixStep(values, i);
      if s[i] != UNMATCHED {
        result := result + weights[i][s[i]];
      }
    }
    assert values[..|s|] == values;
  }

  /** `r` is the first of the heaviest matchings. */
  ghost predicate IsFirstHeaviest(r: seq<int>, scheds: seq<seq<int>>, n: nat, weights: seq<seq<int>>)
    requires AreFull(scheds, n, weights)
  {
    exists f :: 0 <= f < |scheds| && r == scheds[f] && forall x :: 0 <= x < |scheds| ==>
      if x < f then Weight(scheds[x], weights) < Weight(scheds[f], weights)
      else Weight(scheds[x], weights) <= Weight(scheds[f], weights)
  }

  /** The first of the heaviest slots. */
  method SelectHeaviest(scheds: seq<seq<int>>, ghost n: nat, weights: seq<seq<int>>) returns (r: seq<int>, weight: int)
    requires AreFull(scheds, n, weights) && scheds != []
    ensures Outweighs(r, scheds, n, weights, 0, |scheds|) && weight == Weight(r, weights)
    ensures IsFirstHeaviest(r, scheds, n, weights)
  {
    var best: nat := 0;
    weight := WeightComputation(scheds[0], weights);
    for f := 1 to |scheds|
      invariant best < f && weight == Weight(scheds[best], weights)
      invariant forall x :: 0 <= x < f ==> Weight(scheds[x], weights) <= weight
      invariant forall x :: 0 <= x < best ==> Weight(scheds[x], weights) < weight
    {
      var w := WeightComputation(scheds[f], weights);
      if w > weight {
        best, weight := f, w;
      }
    }
    r := scheds[best];
  }

  /** `r` is the matchings from `lo` to `hi` merged one after the other. */
  ghost predicate IsMergedRange(scheds: seq<seq<int>>, n: nat, weights: seq<seq<int>>, lo: nat, hi: nat, r: seq<int>)
    requires AreFull(scheds, n, weights) && lo < hi <= |scheds|
  {
    if hi == lo + 1 then r == scheds[lo]
    else exists m: seq<int> :: |m| == n && IsMergedRange(scheds, n, weights, lo, hi - 1, m)
                               && IsMerge(r, m, scheds[hi - 1], weights)
  }

  /** Merging a range has one result. */
  lemma {:induction false} MergedRangeIsUnique(scheds: seq<seq<int>>, n: nat, weights: seq<seq<int>>, lo: nat, hi: nat,
      a: seq<int>, b: seq<int>)
    requires AreFull(scheds, n, weights) && lo < hi <= |scheds|
    requires IsMergedRange(scheds, n, weights, lo, hi, a) && IsMergedRange(scheds, n, weights, lo, hi, b)
    ensures a == b
    decreases hi
  {
    if hi > lo + 1 {
      var m: seq<int> :|
        |m| == n && IsMergedRange(scheds, n, weights, lo, hi - 1, m) && IsMerge(a, m, scheds[hi - 1], weights);
      var m': seq<int> :|
        |m'| == n && IsMergedRange(scheds, n, weights, lo, hi - 1, m') && IsMerge(b, m', scheds[hi - 1], weights);
      MergedRangeIsUnique(scheds, n, weights, lo, hi - 1, m, m');
      MergeIsUnique(a, b, m, scheds[hi - 1], weights);
    }
  }

  lemma MergedOneMore(scheds: seq<seq<int>>, n: nat, weights: seq<seq<int>>, lo: nat, i: nat, m: seq<int>, r: seq<int>)
    requires AreFull(scheds, n, weights) && lo < i < |scheds|
    requires |m| == n && IsMergedRange(scheds, n, weights, lo, i, m) && IsMerge(r, m, scheds[i], weights)
    ensures IsMergedRange(scheds, n, weights, lo, i + 1, r)
  {
    hide IsMerge, IsFull;
  }

  lemma OutweighsOneMore(scheds: seq<seq<int>>, n: nat, weights: seq<seq<int>>, lo: nat, i: nat, m: seq<int>,
      r: seq<int>)
    requires AreFull(scheds, n, weights) && lo < i < |scheds|
    requires Outweighs(m, scheds, n, weights, lo, i) && IsMerge(r, m, scheds[i], weights)
    ensures Outweighs(r, scheds, n, weights, lo, i + 1)
  {
    hide IsMerge, Weight;
    MergeOutweighs(r, m, scheds[i], weights);
  }

  /** Merges a matching into another one, in place. */
  method MergeInto(merged: array<int>, other: seq<int>, weights: seq<seq<int>>)
    requires IsFull(merged[..]) && IsFull(other) && |other| == merged.Length && Covers(weights, merged.Length)
    modifies merged
    ensures IsFull(merged[..]) && IsMerge(merged[..], old(merged[..]), other, weights)
  {
    var s := new int[|other|](i requires 0 <= i < |other| => other[i]);
    assert s[..] == other;
    Merge(merged, s, merged, weights);
  }

  /** The slots from `lo` on merged one after the other. */
  method MergeRange(scheds: seq<seq<int>>, n: nat, weights: seq<seq<int>>, lo: nat, hi: nat) returns (r: seq<int>)
    requires AreFull(scheds, n, weights) && lo < hi <= |scheds|
    ensures IsMergedRange(scheds, n, weights, lo, hi, r) && Outweighs(r, scheds, n, weights, lo, hi)
  {
    hide IsFull, Weight, Covers, IsMerge;
    var merged := new int[n](i requires 0 <= i < n && |scheds[lo]| == n => scheds[lo][i]);
    assert merged[..] == scheds[lo];
    for i := lo + 1 to hi
      invariant IsMergedRange(scheds, n, weights, lo, i, merged[..]) && Outweighs(merged[..], scheds, n, weights, lo, i)
    {
      ghost var before := merged[..];
      MergeInto(merged, scheds[i], weights);
      MergedOneMore(scheds, n, weights, lo, i, before, merged[..]);
      OutweighsOneMore(scheds, n, weights, lo, i, before, merged[..]);
    }
    r := merged[..];
  }

  // Groups of slots

  function Groups(frames: nat, size: nat): nat
    requires size > 0
  {
    frames / size + if frames % size != 0 then 1 else 0
  }

  /** Every group has a slot, and the groups cover the frame. */
  lemma GroupsCover(frames: nat, size: nat, g: nat)
    requires size > 0
    ensures g < Groups(frames, size) <==> Times(g, size) < frames
  {
    var q, r := frames / size, frames % size;
    assert frames == Times(q, size) + r by {
      TimesIsProduct(q, size);
    }
    WholeGroups(size, g, q, r);
  }

  lemma WholeGroups(size: nat, g: nat, q: nat, r: nat)
    requires r < size
    ensures g < q + (if r != 0 then 1 else 0) <==> Times(g, size) < Times(q, size) + r
  {
    if g < q {
      TimesAdd(g, q - g, size);
    } else {
      TimesAdd(q, g - q, size);
    }
  }

  /** Where group `g` ends. */
  function GroupEnd(frames: nat, size: nat, g: nat): nat {
    if Times(g + 1, size) <= frames then Times(g + 1, size) else frames
  }

  lemma OnlyInGroup(size: nat, g: nat, q: nat, r: nat)
    requires r < size
    ensures Times(g, size) <= Times(q, size) + r < Times(g + 1, size) <==> g == q
  {
    if g < q {
      TimesAdd(g + 1, q - g - 1, size);
    } else if q < g {
      TimesAdd(q + 1, g - q - 1, size);
    }
  }

  lemma QuotientSplits(f: nat, size: nat)
    requires size > 0
    ensures 0 <= f / size && 0 <= f % size < size && f == Times(f / size, size) + f % size
  {
    TimesIsProduct(f / size, size);
  }

  /** The group of slot `f` is `f / size`, and the groups end with the frame. */
  lemma GroupHolds(frames: nat, size: nat, g: nat, f: nat)
    requires size > 0 && f < frames
    ensures Times(g, size) <= f < GroupEnd(frames, size, g) <==> g == f / size
    ensures f / size < Groups(frames, size) && GroupEnd(frames, size, Groups(frames, size) - 1) == frames
  {
    QuotientSplits(f, size);
    OnlyInGroup(size, g, f / size, f % size);
    GroupsCover(frames, size, f / size);
    hide Groups;
    GroupsCover(frames, size, Groups(frames, size));
  }

  /** The merged groups of a frame. */
  ghost predicate AreGroupMerges(groups: seq<seq<int>>, scheds: seq<seq<int>>, n: nat, weights: seq<seq<int>>,
      size: nat)
    requires AreFull(scheds, n, weights) && size > 0
  {
    && |groups| == Groups(|scheds|, size)
    && forall g :: 0 <= g < |groups| ==> IsGroupMerge(groups[g], scheds, n, weights, size, g)
  }

  ghost predicate IsGroupMerge(r: seq<int>, scheds: seq<seq<int>>, n: nat, weights: seq<seq<int>>, size: nat, g: nat)
    requires AreFull(scheds, n, weights) && size > 0 && g < Groups(|scheds|, size)
  {
    GroupsCover(|scheds|, size, g);
    && IsMergedRange(scheds, n, weights, Times(g, size), GroupEnd(|scheds|, size, g), r)
    && Outweighs(r, scheds, n, weights, Times(g, size), GroupEnd(|scheds|, size, g))
  }

  /** A frame has one list of merged groups. */
  lemma GroupMergesAreUnique(a: seq<seq<int>>, b: seq<seq<int>>, scheds: seq<seq<int>>, n: nat, weights: seq<seq<int>>,
      size: nat)
    requires AreFull(scheds, n, weights) && size > 0
    requires AreGroupMerges(a, scheds, n, weights, size) && AreGroupMerges(b, scheds, n, weights, size)
    ensures a == b
  {
    forall g | 0 <= g < |a|
      ensures a[g] == b[g]
    {
      assert IsGroupMerge(a[g], scheds, n, weights, size, g) && IsGroupMerge(b[g], scheds, n, weights, size, g);
      GroupsCover(|scheds|, size, g);
      MergedRangeIsUnique(scheds, n, weights, Times(g, size), GroupEnd(|scheds|, size, g), a[g], b[g]);
    }
  }

  /** Every merged group has a negative weight. */
  ghost predicate AllNegative(groups: seq<seq<int>>, n: nat, weights: seq<seq<int>>)
    requires AreFull(groups, n, weights)
  {
    forall g :: 0 <= g < |groups| ==> Weight(groups[g], weights) < 0
  }

  ghost predicate NonNegativeWeights(weights: seq<seq<int>>, n: nat)
    requires Covers(weights, n)
  {
    forall i, o :: 0 <= i < n && 0 <= o < n ==> weights[i][o] >= 0
  }

  lemma WeightNonNegative(s: seq<int>, weights: seq<seq<int>>)
    requires IsFull(s) && Covers(weights, |s|) && NonNegativeWeights(weights, |s|)
    ensures Weight(s, weights) >= 0
  {
    SumNonNegative(Values(s, weights));
  }

  lemma GroupMergesAreFull(groups: seq<seq<int>>, scheds: seq<seq<int>>, n: nat, weights: seq<seq<int>>, size: nat)
    requires AreFull(scheds, n, weights) && size > 0 && AreGroupMerges(groups, scheds, n, weights, size)
    ensures AreFull(groups, n, weights)
  {
    forall g | 0 <= g < |groups|
      ensures |groups[g]| == n && IsFull(groups[g])
    {
      assert IsGroupMerge(groups[g], scheds, n, weights, size, g);
    }
  }

  /** What outweighs every merged group outweighs every slot. */
  lemma GroupsToSlots(r: seq<int>, groups: seq<seq<int>>, scheds: seq<seq<int>>, n: nat, weights: seq<seq<int>>,
      size: nat)
    requires AreFull(scheds, n, weights) && size > 0 && AreGroupMerges(groups, scheds, n, weights, size)
    requires AreFull(groups, n, weights) && Outweighs(r, groups, n, weights, 0, |groups|)
    ensures Outweighs(r, scheds, n, weights, 0, |scheds|)
  {
    forall f | 0 <= f < |scheds|
      ensures Weight(scheds[f], weights) <= Weight(r, weights)
    {
      var g := GroupOf(groups, scheds, n, weights, size, f);
      assert Weight(groups[g], weights) <= Weight(r, weights);
    }
  }

  /** Every slot is in a group, whose merge is at least as heavy. */
  lemma GroupOf(groups: seq<seq<int>>, scheds: seq<seq<int>>, n: nat, weights: seq<seq<int>>, size: nat, f: nat)
    returns (g: nat)
    requires AreFull(scheds, n, weights) && size > 0 && AreGroupMerges(groups, scheds, n, weights, size) && f < |scheds|
    ensures AreFull(groups, n, weights)
    ensures g < |groups| && Weight(scheds[f], weights) <= Weight(groups[g], weights)
  {
    hide Weight, IsMergedRange;
    GroupMergesAreFull(groups, scheds, n, weights, size);
    g := 0;
    GroupsCover(|scheds|, size, Groups(|scheds|, size));
    GroupsCover(|scheds|, size, 0);
    while Times(g + 1, size) <= f
      invariant g < |groups| && Times(g, size) <= f
      decreases |groups| - g
    {
      g := g + 1;
      GroupsCover(|scheds|, size, g);
    }
    GroupsCover(|scheds|, size, g);
    assert IsGroupMerge(groups[g], scheds, n, weights, size, g);
  }

  /** What each selection selects; `groups` are the merged groups where it uses groups. */
  ghost predicate IsSelected(selection: SelectionMethod, r: seq<int>, groups: seq<seq<int>>, scheds: seq<seq<int>>,
      n: nat, weights: seq<seq<int>>, size: nat)
    requires AreFull(scheds, n, weights) && size > 0 && scheds != []
  {
    match selection
    case First => r == scheds[0]
    case Heaviest => IsFirstHeaviest(r, scheds, n, weights)
    case MergeAll => IsMergedRange(scheds, n, weights, 0, |scheds|, r)
    case MaxOfGroups =>
      && AreGroupMerges(groups, scheds, n, weights, size) && AreFull(groups, n, weights)
      && if AllNegative(groups, n, weights) then r == [] else IsFirstHeaviest(r, groups, n, weights)
    case MergeOfGroups =>
      && AreGroupMerges(groups, scheds, n, weights, size) && AreFull(groups, n, weights) && groups != []
      && IsMergedRange(groups, n, weights, 0, |groups|, r)
  }

  lemma FirstHeaviestIsUnique(a: seq<int>, b: seq<int>, scheds: seq<seq<int>>, n: nat, weights: seq<seq<int>>)
    requires AreFull(scheds, n, weights)
    requires IsFirstHeaviest(a, scheds, n, weights) && IsFirstHeaviest(b, scheds, n, weights)
    ensures a == b
  {
    hide Weight;
  }

  /** A selection has one result. */
  lemma SelectedIsUnique(selection: SelectionMethod, a: seq<int>, groupsA: seq<seq<int>>, b: seq<int>,
      groupsB: seq<seq<int>>, scheds: seq<seq<int>>, n: nat, weights: seq<seq<int>>, size: nat)
    requires AreFull(scheds, n, weights) && size > 0 && scheds != []
    requires IsSelected(selection, a, groupsA, scheds, n, weights, size)
    requires IsSelected(selection, b, groupsB, scheds, n, weights, size)
    ensures a == b
  {
    hide AreGroupMerges, IsMergedRange, AreFull, IsFirstHeaviest, AllNegative;
    match selection
    case First =>
    case Heaviest =>
      FirstHeaviestIsUnique(a, b, scheds, n, weights);
    case MergeAll =>
      MergedRangeIsUnique(scheds, n, weights, 0, |scheds|, a, b);
    case MaxOfGroups =>
      GroupMergesAreUnique(groupsA, groupsB, scheds, n, weights, size);
      if !AllNegative(groupsA, n, weights) {
        FirstHeaviestIsUnique(a, b, groupsA, n, weights);
      }
    case MergeOfGroups =>
      GroupMergesAreUnique(groupsA, groupsB, scheds, n, weights, size);
      MergedRangeIsUnique(groupsA, n, weights, 0, |groupsA|, a, b);
  }

  /** The index of the first of the largest weights, or -1 if all are negative. */
  ghost predicate IsFirstLargest(best: int, ws: seq<int>) {
    if best == -1 then forall x :: 0 <= x < |ws| ==> ws[x] < 0
    else
      && 0 <= best < |ws| && ws[best] >= 0
      && forall x :: 0 <= x < |ws| ==> if x < best then ws[x] < ws[best] else ws[x] <= ws[best]
  }

  /** Comparing one more weight. */
  lemma FirstLargestOneMore(best: int, ws: seq<int>, w: int)
    requires IsFirstLargest(best, ws)
    ensures IsFirstLargest(if w > (if best == -1 then -1 else ws[best]) then |ws| else best, ws + [w])
  {
  }

  ghost predicate AreWeights(ws: seq<int>, groups: seq<seq<int>>, n: nat, weights: seq<seq<int>>)
    requires AreFull(groups, n, weights)
  {
    |ws| == |groups| && forall g :: 0 <= g < |groups| ==> ws[g] == Weight(groups[g], weights)
  }

  /**
   The first of the heaviest merged groups. Weights are compared from -1 on, so nothing is found exactly
   when all merged groups have negative weights.
   */
  method MixedMaxMerge(scheds: seq<seq<int>>, n: nat, weights: seq<seq<int>>, size: nat)
    returns (r: seq<int>, weight: int, ghost groups: seq<seq<int>>, ghost best: int)
    requires AreFull(scheds, n, weights) && size > 0
    ensures AreGroupMerges(groups, scheds, n, weights, size) && AreFull(groups, n, weights)
    ensures weight == -1 <==> AllNegative(groups, n, weights)
    ensures weight == -1 ==> r == [] && forall f :: 0 <= f < |scheds| ==> Weight(scheds[f], weights) < 0
    ensures weight != -1 ==> 0 <= best < |groups| && r == groups[best] && weight == Weight(groups[best], weights) >= 0
    ensures weight != -1 ==> IsFirstHeaviest(r, groups, n, weights)
    ensures weight != -1 ==> Outweighs(r, scheds, n, weights, 0, |scheds|)
    ensures NonNegativeWeights(weights, n) && scheds != [] ==> weight != -1
  {
    hide Weight, IsMergedRange;
    var frames := |scheds|;
    r, weight, groups, best := [], -1, [], -1;
    ghost var ws: seq<int> := [];
    for g := 0 to Groups(frames, size)
      invariant |groups| == g && forall x :: 0 <= x < g ==> IsGroupMerge(groups[x], scheds, n, weights, size, x)
      invariant AreFull(groups, n, weights) && AreWeights(ws, groups, n, weights) && IsFirstLargest(best, ws)
      invariant if best == -1 then r == [] && weight == -1 else r == groups[best] && weight == ws[best]
    {
      GroupsCover(frames, size, g);
      var merged := MergeRange(scheds, n, weights, Times(g, size), GroupEnd(frames, size, g));
      var w := WeightComputation(merged, weights);
      FirstLargestOneMore(best, ws, w);
      groups, ws := groups + [merged], ws + [w];
      assert groups[g] == merged;
      if w > weight {
        r, weight, best := merged, w, g;
      }
    }
    FrameSummary(best, ws, groups, scheds, n, weights, size);
  }

  lemma FrameSummary(best: int, ws: seq<int>, groups: seq<seq<int>>, scheds: seq<seq<int>>, n: nat,
      weights: seq<seq<int>>, size: nat)
    requires AreFull(scheds, n, weights) && size > 0 && AreGroupMerges(groups, scheds, n, weights, size)
    requires AreFull(groups, n, weights) && AreWeights(ws, groups, n, weights) && IsFirstLargest(best, ws)
    ensures best == -1 <==> AllNegative(groups, n, weights)
    ensures best == -1 ==> forall f :: 0 <= f < |scheds| ==> Weight(scheds[f], weights) < 0
    ensures best != -1 ==> Outweighs(groups[best], scheds, n, weights, 0, |scheds|)
    ensures best != -1 ==> IsFirstHeaviest(groups[best], groups, n, weights)
    ensures NonNegativeWeights(weights, n) && scheds != [] ==> best != -1
  {
    hide Weight, IsMergedRange;
    if best != -1 {
      assert Weight(groups[best], weights) == ws[best];
      GroupsToSlots(groups[best], groups, scheds, n, weights, size);
    } else {
      forall f | 0 <= f < |scheds|
        ensures Weight(scheds[f], weights) < 0
      {
        var g := GroupOf(groups, scheds, n, weights, size, f);
      }
    }
    if NonNegativeWeights(weights, n) && scheds != [] {
      WeightNonNegative(scheds[0], weights);
    }
  }

  /** The merged groups merged. */
  method MixedMergeMerge(scheds: seq<seq<int>>, n: nat, weights: seq<seq<int>>, size: nat)
    returns (r: seq<int>, ghost groups: seq<seq<int>>)
    requires AreFull(scheds, n, weights) && size > 0 && scheds != []
    ensures AreGroupMerges(groups, scheds, n, weights, size) && AreFull(groups, n, weights) && groups != []
    ensures IsMergedRange(groups, n, weights, 0, |groups|, r)
    ensures Outweighs(r, scheds, n, weights, 0, |scheds|)
  {
    hide Weight, IsFull, IsMerge;
    var frames := |scheds|;
    groups := [];
    var merges: seq<seq<int>> := [];
    GroupsCover(frames, size, 0);
    for g := 0 to Groups(frames, size)
      invariant |merges| == g && forall x :: 0 <= x < g ==> IsGroupMerge(merges[x], scheds, n, weights, size, x)
      invariant AreFull(merges, n, weights)
    {
      GroupsCover(frames, size, g);
      var merged := MergeRange(scheds, n, weights, Times(g, size), GroupEnd(frames, size, g));
      merges := merges + [merged];
      assert merges[g] == merged;
    }
    groups := merges;
    r := MergeRange(merges, n, weights, 0, |merges|);
    GroupsToSlots(r, groups, scheds, n, weights, size);
  }

  /**
   Every selection but the first yields a full matching at least as heavy as that of every slot, except
   exactly when the maximum over groups finds all merged groups negative; with nonnegative weights
   it never does.
   */
  method Select(selection: SelectionMethod, scheds: seq<seq<int>>, n: nat, weights: seq<seq<int>>, size: nat)
    returns (r: seq<int>, ghost groups: seq<seq<int>>)
    requires AreFull(scheds, n, weights) && size > 0 && scheds != []
    ensures IsSelected(selection, r, groups, scheds, n, weights, size)
    ensures selection == MaxOfGroups && AllNegative(groups, n, weights) ==> n > 0
    ensures selection != First && (selection == MaxOfGroups ==> !AllNegative(groups, n, weights)) ==>
      Outweighs(r, scheds, n, weights, 0, |scheds|)
    ensures selection != First && NonNegativeWeights(weights, n) ==> Outweighs(r, scheds, n, weights, 0, |scheds|)
  {
    hide IsFull, IsMergedRange, AreGroupMerges, IsFirstHeaviest, Weight;
    groups := [];
    match selection
    case First =>
      r := scheds[0];
    case Heaviest =>
      var weight;
      r, weight := SelectHeaviest(scheds, n, weights);
    case MergeAll =>
      r := MergeRange(scheds, n, weights, 0, |scheds|);
    case MaxOfGroups =>
      var weight;
      ghost var best;
      r, weight, groups, best := MixedMaxMerge(scheds, n, weights, size);
      if weight == -1 {
        NegativeHasPorts(scheds[0], weights);
      }
    case MergeOfGroups =>
      r, groups := MixedMergeMerge(scheds, n, weights, size);
  }

  lemma NegativeHasPorts(s: seq<int>, weights: seq<seq<int>>)
    requires IsFull(s) && Covers(weights, |s|) && Weight(s, weights) < 0
    ensures |s| > 0
  {
  }

  /** One slot with a single pair of negative weight: its only merged group is negative. */
  lemma NegativeGroup(groups: seq<seq<int>>)
    requires AreFull([[0]], 1, [[-1]]) && AreGroupMerges(groups, [[0]], 1, [[-1]], 1)
    ensures AreFull(groups, 1, [[-1]]) && AllNegative(groups, 1, [[-1]])
  {
    GroupMergesAreFull(groups, [[0]], 1, [[-1]], 1);
    assert Groups(1, 1) == 1;
    assert IsGroupMerge(groups[0], [[0]], 1, [[-1]], 1, 0);
    GroupsCover(1, 1, 0);
    assert Times(1, 1) == 1 && GroupEnd(1, 1, 0) == 1;
    assert groups[0] == [0];
    assert Values([0], [[-1]]) == [-1];
    assert Sum([-1]) == -1;
  }

  /** So the maximum over groups returns nothing for it. */
  method NegativeGroupGivesNothing() returns (r: seq<int>)
    ensures r == []
  {
    var weight;
    ghost var groups, best;
    assert AreFull([[0]], 1, [[-1]]) by {
      assert IsFull([0]);
    }
    r, weight, groups, best := MixedMaxMerge([[0]], 1, [[-1]], 1);
    NegativeGroup(groups);
  }
}
