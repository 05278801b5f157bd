/**
 Vector-based binary sum trees: node k has children 2k and 2k+1, the leaves start at index `leaves`
 (a power of two), and every inner node holds the sum of its children. They sample an output in
 proportion to its queue length.
 */
module SumTrees {
  import opened Sums

  /** The least power of two that is at least `n`. */
  function LeastPow2(n: nat): (r: nat)
    requires n > 0
    ensures Pow2(r) && n <= r && (r > 1 ==> r / 2 < n)
  {
    if n == 1 then 1 else 2 * LeastPow2((n + 1) / 2)
  }

  /** Node `k`, short of `delta`, holds the sum of its children. */
  ghost predicate SumsUp(t: seq<int>, k: nat, delta: int)
    requires 2 * k + 1 < |t|
  {
    t[k] + delta == t[2 * k] + t[2 * k + 1]
  }

  ghost predicate IsSumTree(t: seq<int>, leaves: nat) {
    |t| == 2 * leaves && forall k :: 1 <= k < leaves ==> SumsUp(t, k, 0)
  }

  ghost predicate NoNegativeNode(t: seq<int>) {
    forall k :: 1 <= k < |t| ==> t[k] >= 0
  }

  /** Node `c` spans the leaves from `lo` on, `w` of them. */
  ghost predicate Spans(c: nat, lo: nat, w: nat, leaves: nat) {
    Pow2(w) && lo == Times(c, w) && leaves <= lo && lo + w <= 2 * leaves
  }

  lemma RootSpansAll(leaves: nat)
    requires Pow2(leaves)
    ensures Spans(1, leaves, leaves, leaves)
  {
    TimesIsProduct(1, leaves);
  }

  /** A node spanning more than one leaf is an inner node whose children span one half each. */
  lemma ChildrenSpanHalves(c: nat, lo: nat, w: nat, leaves: nat)
    requires Spans(c, lo, w, leaves) && w > 1
    ensures 1 <= c < leaves || c == 0
    ensures Spans(2 * c, lo, w / 2, leaves) && Spans(2 * c + 1, lo + w / 2, w / 2, leaves)
  {
    var h := w / 2;
    assert w == 2 * h;
    TimesIsProduct(c, w);
    TimesIsProduct(2 * c, h);
    TimesIsProduct(2 * c + 1, h);
    MulHalves(c, h);
  }

  lemma MulHalves(c: nat, h: nat)
    requires h > 0
    ensures c * (2 * h) == (2 * c) * h && (2 * c + 1) * h == (2 * c) * h + h
    ensures c * (2 * h) + 2 * h >= 2 * c + 2
  {
    assert (c + 1) * h >= c + 1;
  }

  lemma LeafSpansItself(c: nat, lo: nat, leaves: nat)
    requires Spans(c, lo, 1, leaves)
    ensures c == lo && leaves <= c < 2 * leaves
  {
    TimesIsProduct(c, 1);
  }

  /** A node holds the sum of the leaves it spans. */
  lemma {:induction false} NodeIsSpanSum(t: seq<int>, leaves: nat, c: nat, lo: nat, w: nat)
    requires IsSumTree(t, leaves) && c >= 1 && Spans(c, lo, w, leaves)
    ensures c < |t| && t[c] == Sum(t[lo..lo + w])
    decreases w
  {
    if w == 1 {
      LeafSpansItself(c, lo, leaves);
      assert t[lo..lo + 1] == [t[lo]];
    } else {
      var h := w / 2;
      ChildrenSpanHalves(c, lo, w, leaves);
      NodeIsSpanSum(t, leaves, 2 * c, lo, h);
      NodeIsSpanSum(t, leaves, 2 * c + 1, lo + h, h);
      assert SumsUp(t, c, 0);
      assert t[lo..lo + w] == t[lo..lo + h] + t[lo + h..lo + w];
      SumConcat(t[lo..lo + h], t[lo + h..lo + w]);
    }
  }

  /** The root holds the total. */
  lemma RootIsTotal(t: seq<int>, leaves: nat)
    requires IsSumTree(t, leaves) && Pow2(leaves)
    ensures t[1] == Sum(t[leaves..])
  {
    RootSpansAll(leaves);
    NodeIsSpanSum(t, leaves, 1, leaves, leaves);
    assert t[leaves..2 * leaves] == t[leaves..];
  }

  /** The leaves determine the tree: two sum trees with the same leaves agree in every node. */
  lemma {:induction false} LeavesDetermine(t: seq<int>, u: seq<int>, leaves: nat, k: nat)
    requires IsSumTree(t, leaves) && IsSumTree(u, leaves) && t[leaves..] == u[leaves..] && 1 <= k < 2 * leaves
    ensures t[k] == u[k]
    decreases 2 * leaves - k
  {
    if k >= leaves {
      assert t[k] == t[leaves..][k - leaves] && u[k] == u[leaves..][k - leaves];
    } else {
      LeavesDetermine(t, u, leaves, 2 * k);
      LeavesDetermine(t, u, leaves, 2 * k + 1);
      assert SumsUp(t, k, 0) && SumsUp(u, k, 0);
    }
  }

  lemma SameLeavesSameTree(t: seq<int>, u: seq<int>, leaves: nat)
    requires IsSumTree(t, leaves) && IsSumTree(u, leaves) && leaves > 0
    requires t[leaves..] == u[leaves..] && t[0] == u[0]
    ensures t == u
  {
    forall k | 1 <= k < 2 * leaves {
      LeavesDetermine(t, u, leaves, k);
    }
  }

  // Sampling

  /** The descent of `BST::_upper_bound_search`. */
  function Search(t: seq<int>, current: nat, bound: real): nat
    requires current >= 1
    decreases |t| - current
  {
    var left, right := 2 * current, 2 * current + 1;
    if left >= |t| || right >= |t| then current
    else if bound < t[left] as real then Search(t, left, bound)
    else Search(t, right, bound - t[left] as real)
  }

  /** The descent of `Queue_Sampler::search`, on integer indices. */
  function SearchIndex(t: seq<int>, current: nat, idx: int): nat
    requires current >= 1
    decreases |t| - current
  {
    var left, right := 2 * current, 2 * current + 1;
    if left >= |t| || right >= |t| then current
    else if idx < t[left] then SearchIndex(t, left, idx)
    else SearchIndex(t, right, idx - t[left])
  }

  lemma FloorMinus(x: real, n: int)
    ensures (x - n as real).Floor == x.Floor - n
    ensures x < n as real <==> x.Floor < n
  {
  }

  /** A real bound descends as its integer part does. */
  lemma {:induction false} SearchesAgree(t: seq<int>, current: nat, bound: real)
    requires current >= 1
    ensures Search(t, current, bound) == SearchIndex(t, current, bound.Floor)
    decreases |t| - current
  {
    var left, right := 2 * current, 2 * current + 1;
    if left < |t| && right < |t| {
      FloorMinus(bound, t[left]);
      if bound < t[left] as real {
        SearchesAgree(t, left, bound);
      } else {
        SearchesAgree(t, right, bound - t[left] as real);
      }
    }
  }

  /** The reference: walk along the queues and stop in the one whose interval holds `idx`. */
  function Scan(queues: seq<int>, idx: int): nat {
    if queues == [] then 0
    else if idx < queues[0] then 0
    else 1 + Scan(queues[1..], idx - queues[0])
  }

  lemma {:induction false} ScanConcat(a: seq<int>, b: seq<int>, idx: nat)
    requires NonNegative(a)
    ensures idx < Sum(a) ==> Scan(a + b, idx) == Scan(a, idx)
    ensures idx >= Sum(a) ==> Scan(a + b, idx) == |a| + Scan(b, idx - Sum(a))
  {
    if a == [] {
      assert a + b == b;
    } else {
      SumNonNegative(a[1..]);
      assert (a + b)[1..] == a[1..] + b;
      if idx >= a[0] {
        ScanConcat(a[1..], b, idx - a[0]);
      }
    }
  }

  /** One step of the descent, given what the descents into the halves `a` and `b` find. */
  lemma SearchStep(t: seq<int>, c: nat, a: seq<int>, b: seq<int>, idx: nat, lo: nat)
    requires c >= 1 && 2 * c + 1 < |t| && NonNegative(a) && Sum(a) == t[2 * c]
    requires idx < t[2 * c] ==> SearchIndex(t, 2 * c, idx) == lo + Scan(a, idx)
    requires idx >= t[2 * c] ==> SearchIndex(t, 2 * c + 1, idx - t[2 * c]) == lo + |a| + Scan(b, idx - t[2 * c])
    ensures SearchIndex(t, c, idx) == lo + Scan(a + b, idx)
  {
    ScanConcat(a, b, idx);
  }

  lemma LeavesNonNegative(t: seq<int>, lo: nat, hi: nat)
    requires NoNegativeNode(t) && 1 <= lo <= hi <= |t|
    ensures NonNegative(t[lo..hi])
  {
  }

  /** The descent from a node finds what a scan of its leaves, `queues`, finds. */
  lemma {:induction false} SearchIsScanBelow(t: seq<int>, leaves: nat, c: nat, lo: nat, w: nat, queues: seq<int>,
      idx: nat)
    requires IsSumTree(t, leaves) && NoNegativeNode(t) && c >= 1 && Spans(c, lo, w, leaves)
    requires queues == t[lo..lo + w]
    requires c < |t| && idx < t[c]
    ensures SearchIndex(t, c, idx) == lo + Scan(queues, idx)
    decreases w
  {
    if w == 1 {
      LeafSpansItself(c, lo, leaves);
      assert queues[0] == t[lo];
    } else {
      hide Scan, Sum, SearchIndex, NoNegativeNode;
      var h := w / 2;
      var a, b := t[lo..lo + h], t[lo + h..lo + h + h];
      ChildrenSpanHalves(c, lo, w, leaves);
      assert queues == a + b;
      assert NonNegative(a) by { LeavesNonNegative(t, lo, lo + h); }
      assert SumsUp(t, c, 0);
      assert Sum(a) == t[2 * c] by { NodeIsSpanSum(t, leaves, 2 * c, lo, h); }
      if idx < t[2 * c] {
        SearchIsScanBelow(t, leaves, 2 * c, lo, h, a, idx);
      } else {
        var rest := idx - t[2 * c];
        SearchIsScanBelow(t, leaves, 2 * c + 1, lo + h, h, b, rest);
        assert SearchIndex(t, 2 * c + 1, rest) == lo + h + Scan(b, rest);
      }
      SearchStep(t, c, a, b, idx, lo);
    }
  }

  /** Sampling a tree is scanning its leaves. */
  lemma SearchIsScan(t: seq<int>, leaves: nat, idx: nat)
    requires IsSumTree(t, leaves) && NoNegativeNode(t) && Pow2(leaves) && idx < t[1]
    ensures SearchIndex(t, 1, idx) == leaves + Scan(t[leaves..], idx)
  {
    RootSpansAll(leaves);
    assert t[leaves..2 * leaves] == t[leaves..];
    SearchIsScanBelow(t, leaves, 1, leaves, leaves, t[leaves..], idx);
  }

  /** A scan stops exactly in the queue whose prefix interval holds the index. */
  lemma {:induction false} ScanIsInterval(queues: seq<int>, idx: nat, i: nat)
    requires NonNegative(queues) && idx < Sum(queues) && i < |queues|
    ensures Scan(queues, idx) == i <==> Sum(queues[..i]) <= idx < Sum(queues[..i + 1])
    ensures Scan(queues, idx) < |queues|
    decreases |queues|
  {
    SumNonNegative(queues[1..]);
    var rest := idx - queues[0];
    if i == 0 {
      assert queues[..1] == [queues[0]];
      if rest >= 0 {
        ScanIsInterval(queues[1..], rest, 0);
      }
    } else {
      assert queues[..i][1..] == queues[1..][..i - 1];
      assert queues[..i + 1][1..] == queues[1..][..i];
      if rest >= 0 {
        ScanIsInterval(queues[1..], rest, i - 1);
      } else {
        SumNonNegative(queues[1..][..i - 1]);
      }
    }
  }

  /**
   On integer indices, output `i` is sampled exactly for the indices of its own interval, as many as
   packets wait in its queue; so an empty queue or a padding leaf never is.
   */
  lemma IndexSampleIsProportional(t: seq<int>, leaves: nat, idx: nat, i: nat)
    requires IsSumTree(t, leaves) && NoNegativeNode(t) && Pow2(leaves) && idx < t[1] && i < leaves
    ensures SearchIndex(t, 1, idx) == leaves + i
            <==> Sum(t[leaves..][..i]) <= idx < Sum(t[leaves..][..i]) + t[leaves + i]
    ensures leaves <= SearchIndex(t, 1, idx) < 2 * leaves && t[SearchIndex(t, 1, idx)] > 0
  {
    var queues := t[leaves..];
    SearchIsScan(t, leaves, idx);
    RootIsTotal(t, leaves);
    ScanIsInterval(queues, idx, i);
    SumPrefixStep(queues, i);
    var k := Scan(queues, idx);
    ScanIsInterval(queues, idx, k);
    SumPrefixStep(queues, k);
    assert queues[k] == t[leaves + k] && queues[i] == t[leaves + i];
  }

  /** A real bound drawn from [0, total) falls on output `i` exactly in an interval as long as its queue. */
  lemma SampleIsProportional(t: seq<int>, leaves: nat, bound: real, i: nat)
    requires IsSumTree(t, leaves) && NoNegativeNode(t) && Pow2(leaves)
    requires 0.0 <= bound < t[1] as real && i < leaves
    ensures Search(t, 1, bound) == leaves + i
            <==> Sum(t[leaves..][..i]) as real <= bound < (Sum(t[leaves..][..i]) + t[leaves + i]) as real
    ensures leaves <= Search(t, 1, bound) < 2 * leaves && t[Search(t, 1, bound)] > 0
  {
    var before := Sum(t[leaves..][..i]);
    FloorMinus(bound, t[1]);
    FloorMinus(bound, before);
    FloorMinus(bound, before + t[leaves + i]);
    SearchesAgree(t, 1, bound);
    IndexSampleIsProportional(t, leaves, bound.Floor, i);
  }

  // Updates

  /** All sums are right except that node `i`, if inner, lacks `delta`. */
  ghost predicate LacksAt(t: seq<int>, leaves: nat, i: nat, delta: int) {
    |t| == 2 * leaves
    && (forall k :: 1 <= k < leaves && k != i ==> SumsUp(t, k, 0))
    && (1 <= i < leaves ==> SumsUp(t, i, delta))
  }

  /** Adding what is lacking at `i` moves the lack to its parent. */
  lemma LackMovesUp(t: seq<int>, leaves: nat, i: nat, delta: int)
    requires LacksAt(t, leaves, i, delta) && 1 <= i < 2 * leaves && NoNegativeNode(t) && t[i] + delta >= 0
    ensures var r := t[i := t[i] + delta];
            && NoNegativeNode(r) && r[leaves..] == LeavesWith(t, leaves, i, t[i] + delta) && r[0] == t[0]
            && (i == 1 ==> IsSumTree(r, leaves))
            && (i > 1 ==> LacksAt(r, leaves, i / 2, delta) && r[i / 2] + delta >= 0)
  {
    var r := t[i := t[i] + delta];
    forall k | 1 <= k < leaves && k != i / 2
      ensures SumsUp(r, k, 0)
    {
      if k == i {
        assert SumsUp(t, i, delta);
      } else {
        assert SumsUp(t, k, 0);
      }
    }
    if i > 1 {
      assert i / 2 != i ==> SumsUp(t, i / 2, 0);
    }
  }

  /** The leaves once node `i` holds `v`. */
  function LeavesWith(t: seq<int>, leaves: nat, i: nat, v: int): seq<int>
    requires leaves <= |t| && i < |t|
  {
    if i >= leaves then t[leaves..][i - leaves := v] else t[leaves..]
  }

  /** `BST::update`: adds `delta` to node `i` and to all its ancestors. */
  method Update(t: seq<int>, ghost leaves: nat, i: nat, delta: int) returns (r: seq<int>)
    requires LacksAt(t, leaves, i, delta) && 1 <= i < 2 * leaves
    requires NoNegativeNode(t) && t[i] + delta >= 0
    ensures IsSumTree(r, leaves) && NoNegativeNode(r) && r[0] == t[0]
    ensures r[leaves..] == LeavesWith(t, leaves, i, t[i] + delta)
    decreases i
  {
    LackMovesUp(t, leaves, i, delta);
    assert t[i] + delta >= 0;
    r := t[i := t[i] + delta];
    if i == 1 {
      return;
    }
    r := Update(r, leaves, i / 2, delta);
  }

  /** `BST::remove`: empties leaf `i` and returns what it held. */
  method Remove(t: seq<int>, ghost leaves: nat, i: nat) returns (r: seq<int>, old_: int)
    requires IsSumTree(t, leaves) && NoNegativeNode(t) && leaves <= i < 2 * leaves
    ensures IsSumTree(r, leaves) && NoNegativeNode(r) && r[0] == t[0]
    ensures old_ == t[i] && r[leaves..] == t[leaves..][i - leaves := 0]
  {
    old_ := t[i];
    r := Update(t, leaves, i, -old_);
  }

  // Builds

  /** `k` is `i` or a descendant of it. */
  predicate IsUnder(k: nat, i: nat) {
    k == i || (k > i && IsUnder(k / 2, i))
  }

  /** A node under `i` is `i` itself or under exactly one of its children. */
  lemma {:induction false} UnderSplits(k: nat, i: nat)
    requires i >= 1
    ensures IsUnder(k, i) <==> k == i || IsUnder(k, 2 * i) || IsUnder(k, 2 * i + 1)
    ensures !(IsUnder(k, 2 * i) && IsUnder(k, 2 * i + 1))
    ensures IsUnder(i, 2 * i) || IsUnder(i, 2 * i + 1) ==> false
    decreases k
  {
    if k > i {
      UnderSplits(k / 2, i);
    }
  }

  lemma {:induction false} AllUnderRoot(k: nat)
    requires k >= 1
    ensures IsUnder(k, 1)
  {
    if k > 1 {
      AllUnderRoot(k / 2);
    }
  }

  /** The recursive build: fills in the inner nodes under `i` from the leaves. */
  method Build(t: seq<int>, leaves: nat, i: nat) returns (r: seq<int>)
    requires |t| == 2 * leaves && 1 <= i < 2 * leaves
    ensures |r| == |t| && forall k :: 0 <= k < |r| && (k >= leaves || !IsUnder(k, i)) ==> r[k] == t[k]
    ensures forall k :: 1 <= k < leaves && IsUnder(k, i) ==> SumsUp(r, k, 0)
    decreases 2 * leaves - i
  {
    if i >= leaves {
      return t;
    }
    var a := Build(t, leaves, 2 * i);
    var b := Build(a, leaves, 2 * i + 1);
    r := b[i := b[2 * i] + b[2 * i + 1]];
    forall k | 1 <= k < leaves && IsUnder(k, i)
      ensures SumsUp(r, k, 0)
    {
      UnderSplits(k, i);
      UnderSplits(2 * k, i);
      UnderSplits(2 * k + 1, i);
    }
    forall k | 0 <= k < |r| && (k >= leaves || !IsUnder(k, i))
      ensures r[k] == t[k]
    {
      UnderSplits(k, i);
    }
  }

  /** Building from the root gives the sum tree of the leaves. */
  method BuildTree(t: seq<int>, leaves: nat) returns (r: seq<int>)
    requires |t| == 2 * leaves && leaves >= 1
    ensures IsSumTree(r, leaves) && r[leaves..] == t[leaves..] && r[0] == t[0]
  {
    r := Build(t, leaves, 1);
    forall k | 1 <= k < leaves
      ensures SumsUp(r, k, 0)
    {
      AllUnderRoot(k);
    }
    assert !IsUnder(0, 1);
  }

  /**
   `Queue_Sampler::update` from inner node `p`: adds `delta` to it and its ancestors. `u` is the same
   tree with the leaves not yet added still 0, so it lacks exactly `delta` at `p`.
   */
  method AddUp(t: seq<int>, ghost u: seq<int>, leaves: nat, p: nat, delta: int)
    returns (r: seq<int>, ghost u': seq<int>)
    requires |t| == |u| == 2 * leaves && 1 <= p < leaves && t[..leaves] == u[..leaves]
    requires LacksAt(u, leaves, p, delta) && NoNegativeNode(u) && u[p] + delta >= 0
    ensures |r| == |t| && r[leaves..] == t[leaves..] && r[0] == t[0]
    ensures IsSumTree(u', leaves) && NoNegativeNode(u') && u'[leaves..] == u[leaves..]
    ensures r[..leaves] == u'[..leaves]
    decreases p
  {
    LackMovesUp(u, leaves, p, delta);
    assert t[p] == t[..leaves][p] == u[..leaves][p] == u[p];
    r, u' := t[p := t[p] + delta], u[p := u[p] + delta];
    assert r[..leaves] == t[..leaves][p := t[p] + delta] == u'[..leaves];
    if p > 1 {
      r, u' := AddUp(r, u', leaves, p / 2, delta);
    }
  }

  /** Sets the inner nodes to 0. */
  method ClearInner(t: seq<int>, leaves: nat) returns (r: seq<int>)
    requires |t| == 2 * leaves && leaves >= 1
    ensures r == [t[0]] + Fill(leaves - 1, 0) + t[leaves..]
  {
    r := t;
    for i := 1 to leaves
      invariant |r| == |t| && r[0] == t[0] && forall k :: 1 <= k < i ==> r[k] == 0
      invariant forall k :: i <= k < |t| ==> r[k] == t[k]
    {
      r := r[i := 0];
    }
  }

  lemma ZerosAreSumTree(u: seq<int>, leaves: nat)
    requires |u| == 2 * leaves && forall k :: 1 <= k < |u| ==> u[k] == 0
    ensures IsSumTree(u, leaves) && NoNegativeNode(u)
  {
    forall k | 1 <= k < leaves
      ensures SumsUp(u, k, 0)
    {
    }
  }

  // An update ends by reaching the root

  /** The node an update has come to after `n` calls. */
  function Halved(pos: nat, n: nat): nat {
    if n == 0 then pos else Halved(pos / 2, n - 1)
  }

  /** The recursion of `update` from node `pos` ends, which it does at the root only. */
  ghost predicate UpdateReturns(pos: nat) {
    exists n: nat :: Halved(pos, n) == 1
  }

  lemma {:induction false} HalvesToRoot(pos: nat) returns (n: nat)
    requires pos >= 1
    ensures Halved(pos, n) == 1
  {
    if pos == 1 {
      n := 0;
    } else {
      var rest := HalvesToRoot(pos / 2);
      n := rest + 1;
    }
  }

  lemma {:induction false} StaysAtZero(n: nat)
    ensures Halved(0, n) == 0
  {
    if n > 0 {
      StaysAtZero(n - 1);
    }
  }

  /** An update returns from every node but node 0. */
  lemma UpdateReturnsIff(pos: nat)
    ensures UpdateReturns(pos) <==> pos >= 1
  {
    if pos >= 1 {
      var n := HalvesToRoot(pos);
    } else {
      forall n: nat {
        StaysAtZero(n);
      }
    }
  }

  /** The update that adds leaf `i` of the leaf-by-leaf build starts at its parent. */
  ghost predicate LeafReturns(i: nat) {
    UpdateReturns(i / 2)
  }

  /** The leaf-by-leaf build returns unless there is a single leaf. */
  lemma LeafByLeafReturnsIff(leaves: nat)
    requires leaves >= 1
    ensures (forall i :: leaves <= i < 2 * leaves ==> LeafReturns(i)) <==> leaves >= 2
  {
    forall i | leaves <= i < 2 * leaves
      ensures LeafReturns(i) <==> i >= 2
    {
      UpdateReturnsIff(i / 2);
    }
    assert LeafReturns(leaves) <==> leaves >= 2;
  }

  /** The leaf-by-leaf build before leaf `i`: `u` is the same tree with the leaves from `i` on still 0. */
  ghost predicate PartlyBuilt(t: seq<int>, r: seq<int>, u: seq<int>, leaves: nat, i: nat)
    requires |t| == 2 * leaves && 1 <= leaves <= i <= 2 * leaves
  {
    && |r| == |u| == 2 * leaves && r[0] == t[0] && r[leaves..] == t[leaves..] && r[..leaves] == u[..leaves]
    && IsSumTree(u, leaves) && NoNegativeNode(u)
    && u[leaves..] == t[leaves..i] + Fill(2 * leaves - i, 0)
  }

  lemma NothingBuilt(t: seq<int>, r: seq<int>, leaves: nat)
    requires |t| == 2 * leaves && leaves >= 1 && r == [t[0]] + Fill(leaves - 1, 0) + t[leaves..]
    ensures PartlyBuilt(t, r, [t[0]] + Fill(leaves - 1, 0) + Fill(leaves, 0), leaves, leaves)
  {
    ZerosAreSumTree([t[0]] + Fill(leaves - 1, 0) + Fill(leaves, 0), leaves);
  }

  lemma AllBuilt(t: seq<int>, r: seq<int>, u: seq<int>, leaves: nat)
    requires |t| == 2 * leaves && leaves >= 1 && PartlyBuilt(t, r, u, leaves, 2 * leaves)
    ensures IsSumTree(r, leaves) && NoNegativeNode(r) && r[leaves..] == t[leaves..] && r[0] == t[0]
  {
    hide IsSumTree, NoNegativeNode;
    assert r == r[..leaves] + r[leaves..] && u == u[..leaves] + u[leaves..];
    assert t[leaves..2 * leaves] == t[leaves..];
    assert r == u;
  }

  /** Adding leaf `i` to its ancestors. */
  method AddLeaf(t: seq<int>, r: seq<int>, ghost u: seq<int>, leaves: nat, i: nat)
    returns (r': seq<int>, ghost u': seq<int>)
    requires |t| == 2 * leaves && 2 <= leaves <= i < 2 * leaves && PartlyBuilt(t, r, u, leaves, i) && t[i] >= 0
    ensures PartlyBuilt(t, r', u', leaves, i + 1)
  {
    hide IsSumTree, NoNegativeNode, LacksAt;
    assert r[i] == r[leaves..][i - leaves] == t[leaves..][i - leaves] == t[i];
    assert u[i] == u[leaves..][i - leaves] == 0;
    LackOfLeaf(u, leaves, i, t[i]);
    ghost var v := u[i := t[i]];
    assert r[..leaves] == v[..leaves];
    r', u' := AddUp(r, v, leaves, i / 2, r[i]);
    AddedLeaf(t, u, u', leaves, i);
    assert r'[0] == r[0];
  }

  lemma LackOfLeaf(u: seq<int>, leaves: nat, i: nat, v: int)
    requires IsSumTree(u, leaves) && NoNegativeNode(u) && 2 <= leaves <= i < 2 * leaves && |u| == 2 * leaves
    requires u[i] == 0 && v >= 0
    ensures var r := u[i := v];
            LacksAt(r, leaves, i / 2, v) && NoNegativeNode(r) && r[i / 2] + v >= 0
            && r[leaves..] == u[leaves..][i - leaves := v]
  {
    LackMovesUp(u, leaves, i, v);
  }

  lemma AddedLeaf(t: seq<int>, u: seq<int>, u': seq<int>, leaves: nat, i: nat)
    requires |t| == |u| == |u'| == 2 * leaves && leaves <= i < 2 * leaves
    requires u[leaves..] == t[leaves..i] + Fill(2 * leaves - i, 0) && u'[leaves..] == u[leaves..][i - leaves := t[i]]
    ensures u'[leaves..] == t[leaves..i + 1] + Fill(2 * leaves - i - 1, 0)
  {
    var a, b := u'[leaves..], t[leaves..i + 1] + Fill(2 * leaves - i - 1, 0);
    forall k | 0 <= k < leaves
      ensures a[k] == b[k]
    {
      assert k != i - leaves ==> a[k] == u[leaves..][k];
    }
    assert |a| == |b| == leaves;
  }

  /**
   The leaf-by-leaf build: clears the inner nodes, then adds each leaf to its ancestors. With a single
   leaf the first update starts at node 0 and never returns.
   */
  method BuildLeafByLeaf(t: seq<int>, leaves: nat) returns (r: seq<int>, returned: bool)
    requires |t| == 2 * leaves && leaves >= 1
    requires forall k :: leaves <= k < 2 * leaves ==> t[k] >= 0
    ensures returned <==> forall i :: leaves <= i < 2 * leaves ==> LeafReturns(i)
    ensures returned <==> leaves >= 2
    ensures returned ==> IsSumTree(r, leaves) && NoNegativeNode(r) && r[leaves..] == t[leaves..] && r[0] == t[0]
  {
    hide PartlyBuilt, LeafReturns;
    LeafByLeafReturnsIff(leaves);
    r := ClearInner(t, leaves);
    ghost var u := [t[0]] + Fill(leaves - 1, 0) + Fill(leaves, 0);
    NothingBuilt(t, r, leaves);
    for i := leaves to 2 * leaves
      invariant leaves >= 2 || i == leaves
      invariant PartlyBuilt(t, r, u, leaves, i)
    {
      if i / 2 == 0 {
        return r, false;
      }
      r, u := AddLeaf(t, r, u, leaves, i);
    }
    AllBuilt(t, r, u, leaves);
    returned := true;
  }

  /** Starts from an empty tree and adds the queues one by one, skipping empty ones. */
  method BuildByUpdates(queues: seq<int>, leaves: nat) returns (r: seq<int>)
    requires leaves >= 1 && |queues| <= leaves && NonNegative(queues)
    ensures IsSumTree(r, leaves) && NoNegativeNode(r) && r[0] == 0
    ensures r[leaves..] == queues + Fill(leaves - |queues|, 0)
  {
    hide IsSumTree, NoNegativeNode, LacksAt;
    r := Fill(2 * leaves, 0);
    ZerosAreSumTree(r, leaves);
    SumTreeLength(r, leaves);
    for d := 0 to |queues|
      invariant |r| == 2 * leaves && IsSumTree(r, leaves) && NoNegativeNode(r) && r[0] == 0
      invariant r[leaves..] == queues[..d] + Fill(leaves - d, 0)
    {
      if queues[d] > 0 {
        assert r[d + leaves] == r[leaves..][d] == 0;
        LacksNothing(r, leaves, d + leaves, queues[d]);
        ghost var was := r[leaves..];
        r := Update(r, leaves, d + leaves, queues[d]);
        SumTreeLength(r, leaves);
        assert r[leaves..] == was[d := queues[d]];
      }
      assert r[leaves..] == queues[..d + 1] + Fill(leaves - d - 1, 0);
    }
    assert queues[..|queues|] == queues;
  }

  lemma SumTreeLength(t: seq<int>, leaves: nat)
    requires IsSumTree(t, leaves)
    ensures |t| == 2 * leaves
  {
  }

  lemma LacksNothing(t: seq<int>, leaves: nat, i: nat, delta: int)
    requires IsSumTree(t, leaves) && leaves <= i < 2 * leaves
    ensures LacksAt(t, leaves, i, delta)
  {
  }

  /**
   The recursive build, the leaf-by-leaf build where it returns, and updating an empty tree leaf by leaf
   all end in the same tree, node by node.
   */
  method BuildsAgree(queues: seq<int>, leaves: nat) returns (built: seq<int>, leafByLeaf: seq<int>, updated: seq<int>)
    requires leaves >= 1 && |queues| <= leaves && NonNegative(queues)
    ensures built == updated && (leaves >= 2 ==> leafByLeaf == built)
    ensures IsSumTree(built, leaves) && built[leaves..] == queues + Fill(leaves - |queues|, 0)
  {
    var t := Fill(leaves, 0) + queues + Fill(leaves - |queues|, 0);
    assert t[leaves..] == queues + Fill(leaves - |queues|, 0);
    assert forall k :: leaves <= k < 2 * leaves ==> t[k] == t[leaves..][k - leaves];
    hide IsSumTree, NoNegativeNode;
    built := BuildTree(t, leaves);
    var returned;
    leafByLeaf, returned := BuildLeafByLeaf(t, leaves);
    updated := BuildByUpdates(queues, leaves);
    SameLeavesSameTree(built, updated, leaves);
    if returned {
      SameLeavesSameTree(built, leafByLeaf, leaves);
    }
  }
}
