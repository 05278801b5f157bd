/**
 Vector-based max-tournament trees over the queues of one input, and the proposer built on them, which
 always proposes to the longest queue.
 */
module MaxTrees {
  import opened Sums
  import opened SumTrees

  function Max(a: int, b: int): int {
    if a >= b then a else b
  }

  /** Node `k` holds the larger of its children. */
  ghost predicate Wins(t: seq<int>, k: nat)
    requires 2 * k + 1 < |t|
  {
    t[k] == Max(t[2 * k], t[2 * k + 1])
  }

  ghost predicate IsMaxTree(t: seq<int>, leaves: nat) {
    |t| == 2 * leaves && forall k :: 1 <= k < leaves ==> Wins(t, k)
  }

  /** Tree `t` represents the queues `row`, padded with empty leaves. */
  ghost predicate Represents(t: seq<int>, leaves: nat, row: seq<int>) {
    && IsMaxTree(t, leaves) && Pow2(leaves) && t[0] == 0 && NonNegative(row) && |row| <= leaves
    && t[leaves..] == row + Fill(leaves - |row|, 0)
  }

  lemma RepresentedLeaf(t: seq<int>, leaves: nat, row: seq<int>, d: nat)
    requires Represents(t, leaves, row) && d < leaves
    ensures t[leaves + d] == if d < |row| then row[d] else 0
  {
    assert t[leaves + d] == t[leaves..][d];
  }

  /** The descent of `Max_Propose::search`: to the left unless the right is larger. */
  function Descend(t: seq<int>, current: nat): nat
    requires current >= 1
    decreases |t| - current
  {
    var left, right := 2 * current, 2 * current + 1;
    if left >= |t| || right >= |t| then current
    else if t[left] >= t[right] then Descend(t, left)
    else Descend(t, right)
  }

  /** Leaf `k` is the first of the largest leaves in [lo, hi). */
  ghost predicate IsFirstLargest(t: seq<int>, lo: nat, hi: nat, k: nat) {
    && lo <= k < hi <= |t|
    && (forall x :: lo <= x < hi ==> t[x] <= t[k])
    && (forall x :: lo <= x < k ==> t[x] < t[k])
  }

  /** The descent from a node ends in the first of the largest leaves under it, whose value the node holds. */
  lemma {:induction false} DescendFindsFirstLargest(t: seq<int>, leaves: nat, c: nat, lo: nat, w: nat)
    requires IsMaxTree(t, leaves) && c >= 1 && Spans(c, lo, w, leaves)
    ensures c < |t| && IsFirstLargest(t, lo, lo + w, Descend(t, c)) && t[Descend(t, c)] == t[c]
    decreases w
  {
    if w == 1 {
      LeafSpansItself(c, lo, leaves);
    } else {
      var h := w / 2;
      ChildrenSpanHalves(c, lo, w, leaves);
      DescendFindsFirstLargest(t, leaves, 2 * c, lo, h);
      DescendFindsFirstLargest(t, leaves, 2 * c + 1, lo + h, h);
      assert Wins(t, c);
    }
  }

  /** `d` is the first of the longest queues of a row. */
  ghost predicate IsLongest(row: seq<int>, d: nat) {
    && d < |row|
    && (forall x :: 0 <= x < |row| ==> row[x] <= row[d])
    && (forall x :: 0 <= x < d ==> row[x] < row[d])
  }

  /** The root is zero exactly when all queues are empty; otherwise the descent finds the first longest queue. */
  lemma RootAndSample(t: seq<int>, leaves: nat, row: seq<int>)
    requires Represents(t, leaves, row)
    ensures t[1] == 0 <==> forall d :: 0 <= d < |row| ==> row[d] == 0
    ensures t[1] >= 0
    ensures t[1] != 0 ==>
      leaves <= Descend(t, 1) && IsLongest(row, Descend(t, 1) - leaves) && row[Descend(t, 1) - leaves] > 0
  {
    RootSpansAll(leaves);
    DescendFindsFirstLargest(t, leaves, 1, leaves, leaves);
    var k := Descend(t, 1);
    RepresentedLeaf(t, leaves, row, k - leaves);
    forall d | 0 <= d < |row|
      ensures row[d] == t[leaves + d]
    {
      RepresentedLeaf(t, leaves, row, d);
    }
  }

  // Updating

  /** All inner nodes but `i` hold the larger of their children. */
  ghost predicate WinsExcept(t: seq<int>, leaves: nat, i: nat) {
    |t| == 2 * leaves && forall k :: 1 <= k < leaves && k != i ==> Wins(t, k)
  }

  lemma RecomputeMovesUp(t: seq<int>, leaves: nat, i: nat)
    requires WinsExcept(t, leaves, i) && 1 <= i < leaves
    ensures var r := t[i := Max(t[2 * i], t[2 * i + 1])];
            WinsExcept(r, leaves, i / 2) && r[leaves..] == t[leaves..] && r[0] == t[0]
  {
    var r := t[i := Max(t[2 * i], t[2 * i + 1])];
    forall k | 1 <= k < leaves && k != i / 2
      ensures Wins(r, k)
    {
      assert k != i ==> Wins(t, k);
    }
  }

  /** `r` is `t` with the inner nodes under `i` recomputed from the leaves. */
  ghost predicate Built(t: seq<int>, r: seq<int>, leaves: nat, i: nat) {
    && |r| == |t| == 2 * leaves
    && (forall k :: 0 <= k < |t| && (k >= leaves || !IsUnder(k, i)) ==> r[k] == t[k])
    && (forall k :: 1 <= k < leaves && IsUnder(k, i) ==> Wins(r, k))
  }

  /** The recursive build: recomputes the inner nodes under `i` from the leaves. */
  method BuildMax(t: seq<int>, leaves: nat, i: nat) returns (r: seq<int>)
    requires |t| == 2 * leaves && 1 <= i < 2 * leaves
    ensures Built(t, r, leaves, i)
    decreases 2 * leaves - i
  {
    if i >= leaves {
      BuiltLeaf(t, leaves, i);
      return t;
    }
    var left := BuildMax(t, leaves, 2 * i);
    var both := BuildMax(left, leaves, 2 * i + 1);
    BuildStep(t, left, both, leaves, i);
    r := both[i := Max(both[2 * i], both[2 * i + 1])];
  }

  /** `Max_Propose`: the queue lengths of one input, kept in a tournament tree. */
  class MaxPropose {
    const numOutputs: nat
    const leafNum: nat
    var queue: seq<int>

    /** The tree represents exactly the queues `row`. */
    ghost predicate Holds(row: seq<int>)
      reads this
    {
      numOutputs > 0 && |row| == numOutputs && Represents(queue, leafNum, row)
    }

    constructor (numOutputs: nat)
      requires numOutputs > 0
      ensures this.numOutputs == numOutputs && Holds(Fill(numOutputs, 0))
    {
      this.numOutputs := numOutputs;
      leafNum := LeastPow2(numOutputs);
      queue := Fill(2 * LeastPow2(numOutputs), 0);
    }

    /** `operator=`: takes over new lengths. */
    method Assign(weights: seq<int>)
      requires numOutputs > 0 && |weights| == numOutputs && NonNegative(weights)
      requires exists row :: Holds(row)
      modifies this
      ensures Holds(weights)
    {
      queue := queue[..leafNum] + weights + queue[leafNum + numOutputs..];
      ghost var t := queue;
      ghost var row :| old(Holds(row));
      assert old(queue)[leafNum + numOutputs..] == old(queue)[leafNum..][numOutputs..] == Fill(leafNum - numOutputs, 0);
      queue := BuildMax(queue, leafNum, 1);
      forall k | 1 <= k < leafNum
        ensures Wins(queue, k)
      {
        AllUnderRoot(k);
      }
      assert !IsUnder(0, 1);
      assert queue[leafNum..] == t[leafNum..] == weights + Fill(leafNum - numOutputs, 0);
    }

    /** Recomputes node `pos` and its ancestors. */
    method Update(pos: nat)
      requires WinsExcept(queue, leafNum, pos) && pos < leafNum
      modifies this
      ensures IsMaxTree(queue, leafNum) && queue[leafNum..] == old(queue)[leafNum..] && queue[0] == old(queue)[0]
    {
      var p: nat := pos;
      while p > 0
        invariant WinsExcept(queue, leafNum, p) && p < leafNum && |queue| == |old(queue)|
        invariant queue[leafNum..] == old(queue)[leafNum..] && queue[0] == old(queue)[0]
        decreases p
      {
        RecomputeMovesUp(queue, leafNum, p);
        queue := queue[p := Max(queue[2 * p], queue[2 * p + 1])];
        p := p / 2;
      }
    }

    method Increment(dst: nat, delta: int, ghost row: seq<int>)
      requires Holds(row) && dst < numOutputs && row[dst] + delta >= 0
      modifies this
      ensures Holds(row[dst := row[dst] + delta])
    {
      RepresentedLeaf(queue, leafNum, row, dst);
      queue := queue[leafNum + dst := queue[leafNum + dst] + delta];
      ghost var t := queue;
      assert WinsExcept(queue, leafNum, (leafNum + dst) / 2) by {
        forall k | 1 <= k < leafNum && k != (leafNum + dst) / 2
          ensures Wins(queue, k)
        {
          assert Wins(old(queue), k);
        }
      }
      assert t[leafNum..] == old(queue)[leafNum..][dst := row[dst] + delta];
      Update((leafNum + dst) / 2);
      assert queue[leafNum..] == row[dst := row[dst] + delta] + Fill(leafNum - numOutputs, 0);
    }

    /** Proposes to the first of the longest queues, or to none exactly when all are empty. */
    method Sample(ghost row: seq<int>) returns (out: int)
      requires Holds(row)
      ensures out == -1 <==> forall d :: 0 <= d < numOutputs ==> row[d] == 0
      ensures out != -1 ==> 0 <= out < numOutputs && IsLongest(row, out) && row[out] > 0
    {
      RootAndSample(queue, leafNum, row);
      if queue[1] == 0 {
        return -1;
      }
      out := Descend(queue, 1) - leafNum;
      assert 0 <= out < numOutputs;
    }

    method GetQueueLength(ghost row: seq<int>) returns (result: int)
      requires Holds(row)
      ensures result == Sum(row)
    {
      result := 0;
      ghost var leaves := queue[leafNum..];
      for i := leafNum to 2 * leafNum
        invariant result == Sum(leaves[..i - leafNum])
      {
        SumPrefixStep(leaves, i - leafNum);
        result := result + queue[i];
      }
      assert leaves[..leafNum] == leaves == row + Fill(leafNum - numOutputs, 0);
      SumConcat(row, Fill(leafNum - numOutputs, 0));
      SumZeros(Fill(leafNum - numOutputs, 0));
    }

    method GetPacketNumber(dst: nat, ghost row: seq<int>) returns (length: int)
      requires Holds(row) && dst < numOutputs
      ensures length == row[dst]
    {
      RepresentedLeaf(queue, leafNum, row, dst);
      length := queue[dst + leafNum];
    }

    /** Every node is zero exactly when every queue is empty. */
    method IsEmpty(ghost row: seq<int>) returns (empty: bool)
      requires Holds(row)
      ensures empty <==> forall d :: 0 <= d < numOutputs ==> row[d] == 0
    {
      empty := true;
      for i := 0 to |queue|
        invariant empty <==> forall k :: 0 <= k < i ==> queue[k] == 0
      {
        if queue[i] != 0 {
          empty := false;
        }
      }
      if empty {
        forall d | 0 <= d < numOutputs
          ensures row[d] == 0
        {
          RepresentedLeaf(queue, leafNum, row, d);
        }
      }
      if forall d :: 0 <= d < numOutputs ==> row[d] == 0 {
        forall k | 1 <= k < 2 * leafNum
          ensures queue[k] == 0
        {
          AllZero(queue, leafNum, row, k);
        }
      }
    }
  }

  lemma {:induction false} AllZero(t: seq<int>, leaves: nat, row: seq<int>, k: nat)
    requires Represents(t, leaves, row) && (forall d :: 0 <= d < |row| ==> row[d] == 0) && 1 <= k < 2 * leaves
    ensures t[k] == 0
    decreases 2 * leaves - k
  {
    if k >= leaves {
      RepresentedLeaf(t, leaves, row, k - leaves);
    } else {
      AllZero(t, leaves, row, 2 * k);
      AllZero(t, leaves, row, 2 * k + 1);
      assert Wins(t, k);
    }
  }

  /** A node under `i` other than `i` is under one child with both its own children, and under the other with none. */
  lemma UnderChild(k: nat, i: nat, c: nat, other: nat)
    requires i >= 1 && IsUnder(k, c) && ((c == 2 * i && other == 2 * i + 1) || (c == 2 * i + 1 && other == 2 * i))
    ensures k != i && !IsUnder(k, other) && !IsUnder(2 * k, other) && !IsUnder(2 * k + 1, other)
    ensures 2 * k != i && 2 * k + 1 != i
  {
    UnderIsLater(k, c);
    assert IsUnder(2 * k, c) && IsUnder(2 * k + 1, c);
    UnderSplits(k, i);
    UnderSplits(2 * k, i);
    UnderSplits(2 * k + 1, i);
  }

  lemma {:induction false} UnderIsLater(k: nat, i: nat)
    ensures k < i ==> !IsUnder(k, i)
  {
  }

  lemma BuiltLeaf(t: seq<int>, leaves: nat, i: nat)
    requires |t| == 2 * leaves && leaves <= i
    ensures Built(t, t, leaves, i)
  {
    forall k | 1 <= k < leaves {
      UnderIsLater(k, i);
    }
  }

  /** Building both children and then the node builds everything under the node. */
  lemma BuildStep(t: seq<int>, left: seq<int>, both: seq<int>, leaves: nat, i: nat)
    requires 1 <= i < leaves && Built(t, left, leaves, 2 * i) && Built(left, both, leaves, 2 * i + 1)
    ensures Built(t, both[i := Max(both[2 * i], both[2 * i + 1])], leaves, i)
  {
    var r := both[i := Max(both[2 * i], both[2 * i + 1])];
    forall k | 1 <= k < leaves && IsUnder(k, i)
      ensures Wins(r, k)
    {
      UnderSplits(k, i);
      if IsUnder(k, 2 * i) {
        UnderChild(k, i, 2 * i, 2 * i + 1);
        assert Wins(left, k);
        assert both[k] == left[k] && both[2 * k] == left[2 * k] && both[2 * k + 1] == left[2 * k + 1];
      } else if IsUnder(k, 2 * i + 1) {
        UnderChild(k, i, 2 * i + 1, 2 * i);
        assert Wins(both, k);
      }
    }
    forall k | 0 <= k < |t| && (k >= leaves || !IsUnder(k, i))
      ensures r[k] == t[k]
    {
      UnderSplits(k, i);
    }
  }
}
