/** What the parallel scheduler returns when its threads merge schedules the way `merge` does. */
module FutureMerge {
  import opened FutureTree
  import opened SerenaSpec
  import opened Sums

  /** Full matchings of `n` ports, one per thread. */
  ghost predicate AreSchedules(own: seq<seq<int>>, n: nat) {
    own != [] && forall k :: 0 <= k < |own| ==> IsSchedule(own[k], n)
  }

  ghost predicate IsSchedule(s: seq<int>, n: nat) {
    IsFull(s) && |s| == n
  }

  /** The function merges full matchings of `n` ports. */
  ghost predicate Merges(merge: (seq<int>, seq<int>) -> seq<int>, weights: seq<seq<int>>, n: nat)
    requires Covers(weights, n)
  {
    forall a: seq<int>, b: seq<int> :: IsSchedule(a, n) && IsSchedule(b, n) ==> IsMerge(merge(a, b), a, b, weights)
  }

  ghost predicate Outweighs(r: seq<int>, s: seq<int>, weights: seq<seq<int>>, n: nat)
    requires Covers(weights, n)
  {
    IsSchedule(r, n) && IsSchedule(s, n) && Weight(s, weights) <= Weight(r, weights)
  }

  /** One merge outweighs both of its arguments. */
  lemma MergeOnce(a: seq<int>, b: seq<int>, merge: (seq<int>, seq<int>) -> seq<int>, weights: seq<seq<int>>, n: nat)
    requires Covers(weights, n) && Merges(merge, weights, n) && IsSchedule(a, n) && IsSchedule(b, n)
    ensures Outweighs(merge(a, b), a, weights, n) && Outweighs(merge(a, b), b, weights, n)
  {
    hide IsFull, IsMerge, Weight;
    MergeOutweighs(merge(a, b), a, b, weights);
  }

  lemma OutweighsOther(r: seq<int>, s: seq<int>, t: seq<int>, weights: seq<seq<int>>, n: nat)
    requires Covers(weights, n) && Outweighs(r, s, weights, n) && Outweighs(s, t, weights, n)
    ensures Outweighs(r, t, weights, n)
  {
  }

  /** What thread 0 has merged outweighs the schedules it has merged. */
  lemma {:induction false} MergedOutweighs(own: seq<seq<int>>, jump: nat, merge: (seq<int>, seq<int>) -> seq<int>,
      weights: seq<seq<int>>, n: nat, k: nat)
    requires AreSchedules(own, n) && Covers(weights, n) && Merges(merge, weights, n)
    requires Pow2(jump) && IsMergedThread(k) && k < |own|
    ensures IsSchedule(Merged(own, jump, merge), n)
    ensures k < jump ==> Outweighs(Merged(own, jump, merge), own[k], weights, n)
  {
    hide Outweighs, Merges, Covers, IsSchedule;
    if jump > 1 {
      var half := jump / 2;
      var before := Merged(own, half, merge);
      MergedOutweighs(own, half, merge, weights, n, k);
      if half < |own| {
        MergeOnce(before, own[half], merge, weights, n);
        IsScheduleIfOutweighs(merge(before, own[half]), before, weights, n);
      }
      if k > 0 {
        PowersDouble(half, k);
      }
      if k < half && half < |own| {
        OutweighsOther(merge(before, own[half]), before, own[k], weights, n);
      }
    } else {
      OutweighsItself(own[0], weights, n);
    }
  }

  lemma IsScheduleIfOutweighs(r: seq<int>, s: seq<int>, weights: seq<seq<int>>, n: nat)
    requires Covers(weights, n) && Outweighs(r, s, weights, n)
    ensures IsSchedule(r, n)
  {
  }

  lemma OutweighsItself(s: seq<int>, weights: seq<seq<int>>, n: nat)
    requires Covers(weights, n) && IsSchedule(s, n)
    ensures Outweighs(s, s, weights, n)
  {
  }

  lemma {:induction false} ResultOutweighs(own: seq<seq<int>>, jump: nat, merge: (seq<int>, seq<int>) -> seq<int>,
      weights: seq<seq<int>>, n: nat, k: nat)
    requires AreSchedules(own, n) && Covers(weights, n) && Merges(merge, weights, n)
    requires Pow2(jump) && IsMergedThread(k) && k < |own|
    ensures Outweighs(Result(own, jump, merge), own[k], weights, n)
    decreases |own| - jump
  {
    if jump >= |own| {
      MergedOutweighs(own, jump, merge, weights, n, k);
    } else {
      hide Outweighs, Merges, Covers, IsSchedule, Merged;
      PowerOfDouble(jump);
      ResultOutweighs(own, 2 * jump, merge, weights, n, k);
    }
  }

  // The merge function

  /** The merge of two full matchings of `n` ports; the first argument when that makes no sense. */
  ghost function MergeOf(a: seq<int>, b: seq<int>, weights: seq<seq<int>>, n: nat): (r: seq<int>)
    ensures Covers(weights, n) && IsSchedule(a, n) && IsSchedule(b, n) ==> IsMerge(r, a, b, weights)
  {
    if Covers(weights, n) && IsSchedule(a, n) && IsSchedule(b, n) then
      MergeExists(a, b, weights);
      var r :| IsMerge(r, a, b, weights);
      r
    else a
  }

  /** What `merge` computes, as the function the threads apply. */
  ghost function Merging(weights: seq<seq<int>>, n: nat): (seq<int>, seq<int>) -> seq<int> {
    (a: seq<int>, b: seq<int>) => MergeOf(a, b, weights, n)
  }

  lemma MergingMerges(weights: seq<seq<int>>, n: nat)
    requires Covers(weights, n)
    ensures Merges(Merging(weights, n), weights, n)
  {
    hide IsMerge, IsSchedule;
  }

  /** The threads have run until none can go on. */
  ghost predicate IsCompleteRun(own: seq<seq<int>>, ids: seq<nat>, merge: (seq<int>, seq<int>) -> seq<int>)
    requires own != []
  {
    IsRun(own, ids, merge) && forall id :: !Enabled(After(own, ids, merge), id, |own|)
  }

  /** `r` is at least as heavy as the schedule of every thread that is merged. */
  ghost predicate OutweighsMerged(r: seq<int>, own: seq<seq<int>>, weights: seq<seq<int>>, n: nat)
    requires Covers(weights, n)
  {
    forall k :: 0 <= k < |own| && IsMergedThread(k) ==> Outweighs(r, own[k], weights, n)
  }

  /**
   However the threads are interleaved, the main thread finds a full matching in future 0 that is at least as
   heavy as the schedules of threads 0, 1, 2, 4, 8 and so on.
   */
  lemma ParallelResult(own: seq<seq<int>>, ids: seq<nat>, weights: seq<seq<int>>, n: nat)
    requires AreSchedules(own, n) && Covers(weights, n) && IsCompleteRun(own, ids, Merging(weights, n))
    ensures After(own, ids, Merging(weights, n)).futures[0].Ready?
    ensures OutweighsMerged(After(own, ids, Merging(weights, n)).futures[0].value, own, weights, n)
  {
    hide Outweighs, Merges, Result, IsRun, Merging;
    var merge := Merging(weights, n);
    MergingMerges(weights, n);
    CompleteRunsAgree(own, ids, merge);
    forall k | 0 <= k < |own| && IsMergedThread(k)
      ensures Outweighs(Result(own, 1, merge), own[k], weights, n)
    {
      ResultOutweighs(own, 1, merge, weights, n, k);
    }
  }

  // What the result leaves out

  /** The result is at least as heavy as the schedule of every thread. */
  ghost predicate OutweighsAll(own: seq<seq<int>>, weights: seq<seq<int>>, n: nat)
    requires own != [] && Covers(weights, n)
  {
    forall k :: 0 <= k < |own| ==> Outweighs(Result(own, 1, Merging(weights, n)), own[k], weights, n)
  }

  /** It is the merge of all schedules, one after the other. */
  ghost predicate MergesAll(own: seq<seq<int>>, weights: seq<seq<int>>, n: nat)
    requires own != []
  {
    CombinesAll(own, Merging(weights, n))
  }

  /** Any schedules of so many threads on `n` ports, and any weights for them. */
  ghost predicate IsInstance(own: seq<seq<int>>, weights: seq<seq<int>>, threads: nat, n: nat) {
    |own| == threads && AreSchedules(own, n) && Covers(weights, n)
  }

  ghost predicate AlwaysOutweighsAll(threads: nat, n: nat) {
    forall own: seq<seq<int>>, weights: seq<seq<int>> :: IsInstance(own, weights, threads, n) ==>
      OutweighsAll(own, weights, n)
  }

  ghost predicate AlwaysMergesAll(threads: nat, n: nat) {
    forall own: seq<seq<int>>, weights: seq<seq<int>> :: IsInstance(own, weights, threads, n) ==>
      MergesAll(own, weights, n)
  }

  lemma FewThreadsOutweighAll(own: seq<seq<int>>, weights: seq<seq<int>>, n: nat)
    requires AreSchedules(own, n) && Covers(weights, n) && |own| <= 3
    ensures OutweighsAll(own, weights, n) && MergesAll(own, weights, n)
  {
    FewThreadsCombineAll(own, Merging(weights, n));
    MergingMerges(weights, n);
    hide Outweighs, Result, Merging, Merges;
    forall k | 0 <= k < |own|
      ensures Outweighs(Result(own, 1, Merging(weights, n)), own[k], weights, n)
    {
      assert IsMergedThread(k);
      ResultOutweighs(own, 1, Merging(weights, n), weights, n, k);
    }
  }

  /** Merging all schedules outweighs all of them. */
  lemma {:induction false} AllMergedOutweighs(own: seq<seq<int>>, weights: seq<seq<int>>, n: nat, m: nat, k: nat)
    requires AreSchedules(own, n) && Covers(weights, n) && k < m <= |own|
    ensures Outweighs(AllMerged(own, m, Merging(weights, n)), own[k], weights, n)
  {
    hide Outweighs, Merging, Covers, IsSchedule;
    if m == 1 {
      OutweighsItself(own[0], weights, n);
    } else {
      var merge := Merging(weights, n);
      var before := AllMerged(own, m - 1, merge);
      MergingMerges(weights, n);
      AllMergedOutweighs(own, weights, n, m - 1, if k < m - 1 then k else 0);
      IsScheduleIfOutweighs(before, own[if k < m - 1 then k else 0], weights, n);
      MergeOnce(before, own[m - 1], merge, weights, n);
      if k < m - 1 {
        OutweighsOther(merge(before, own[m - 1]), before, own[k], weights, n);
      }
    }
  }

  /** One port has one schedule only. */
  lemma OnePort(a: seq<int>, b: seq<int>, n: nat)
    requires IsSchedule(a, n) && IsSchedule(b, n) && n <= 1
    ensures a == b
  {
  }

  lemma OnePortMergesAll(own: seq<seq<int>>, weights: seq<seq<int>>, n: nat)
    requires AreSchedules(own, n) && Covers(weights, n) && n <= 1
    ensures OutweighsAll(own, weights, n) && MergesAll(own, weights, n)
  {
    var r, all := Result(own, 1, Merging(weights, n)), AllMerged(own, |own|, Merging(weights, n));
    MergingMerges(weights, n);
    AllMergedOutweighs(own, weights, n, |own|, 0);
    assert IsMergedThread(0);
    ResultOutweighs(own, 1, Merging(weights, n), weights, n, 0);
    OnePort(r, all, n);
    hide Result, AllMerged, Merging, Merges;
    forall k | 0 <= k < |own|
      ensures Outweighs(r, own[k], weights, n)
    {
      OnePort(own[0], own[k], n);
    }
  }

  // Thread 3 alone finds the only heavy pairs

  function Straight(n: nat): (r: seq<int>)
    ensures |r| == n && forall i :: 0 <= i < n ==> r[i] == i
  {
    seq(n, i requires 0 <= i < n => i)
  }

  /** The first two ports crossed. */
  function Crossed(n: nat): (r: seq<int>)
    requires n >= 2
    ensures |r| == n && r[0] == 1 && r[1] == 0 && forall i :: 2 <= i < n ==> r[i] == i
  {
    Straight(n)[0 := 1][1 := 0]
  }

  /** Packets for the crossed pairs only. */
  function CrossedWeights(n: nat): (r: seq<seq<int>>)
    ensures |r| == n && forall i :: 0 <= i < n ==> |r[i]| == n
    ensures forall i, o :: 0 <= i < n && 0 <= o < n ==> r[i][o] == if i < 2 && o == 1 - i then 1 else 0
  {
    seq(n, i requires 0 <= i < n => seq(n, o requires 0 <= o < n => if i < 2 && o == 1 - i then 1 else 0))
  }

  function LateCrossing(threads: nat, n: nat): (r: seq<seq<int>>)
    requires n >= 2
    ensures |r| == threads
    ensures forall k :: 0 <= k < threads ==> r[k] == if k == 3 then Crossed(n) else Straight(n)
  {
    seq(threads, k requires 0 <= k < threads => if k == 3 then Crossed(n) else Straight(n))
  }

  lemma CrossingIsHeavier(n: nat)
    requires n >= 2
    ensures Covers(CrossedWeights(n), n) && IsSchedule(Straight(n), n) && IsSchedule(Crossed(n), n)
    ensures Weight(Straight(n), CrossedWeights(n)) < Weight(Crossed(n), CrossedWeights(n))
  {
    hide Straight, Crossed, CrossedWeights;
    SumZeros(Values(Straight(n), CrossedWeights(n)));
    var values := Values(Crossed(n), CrossedWeights(n));
    assert values[0] == 1;
    SumNonNegative(values[1..]);
  }

  /** Merging a schedule with itself changes nothing. */
  lemma MergeSame(s: seq<int>, weights: seq<seq<int>>, n: nat)
    requires IsSchedule(s, n) && Covers(weights, n)
    ensures MergeOf(s, s, weights, n) == s
  {
  }

  lemma {:induction false} MergedSame(own: seq<seq<int>>, jump: nat, s: seq<int>, weights: seq<seq<int>>, n: nat)
    requires own != [] && IsSchedule(s, n) && Covers(weights, n) && Pow2(jump)
    requires forall k :: 0 <= k < |own| && IsMergedThread(k) ==> own[k] == s
    ensures Merged(own, jump, Merging(weights, n)) == s
  {
    hide MergeOf, IsSchedule, Covers;
    assert IsMergedThread(0);
    if jump > 1 {
      assert IsMergedThread(jump / 2);
      MergedSame(own, jump / 2, s, weights, n);
      MergeSame(s, weights, n);
    }
  }

  lemma {:induction false} ResultSame(own: seq<seq<int>>, jump: nat, s: seq<int>, weights: seq<seq<int>>, n: nat)
    requires own != [] && IsSchedule(s, n) && Covers(weights, n) && Pow2(jump)
    requires forall k :: 0 <= k < |own| && IsMergedThread(k) ==> own[k] == s
    ensures Result(own, jump, Merging(weights, n)) == s
    decreases |own| - jump
  {
    hide Merging, Merged, IsSchedule, Covers;
    if jump >= |own| {
      MergedSame(own, jump, s, weights, n);
    } else {
      PowerOfDouble(jump);
      ResultSame(own, 2 * jump, s, weights, n);
    }
  }

  lemma LateCrossingIsLost(threads: nat, n: nat)
    requires threads > 3 && n >= 2
    ensures IsInstance(LateCrossing(threads, n), CrossedWeights(n), threads, n)
    ensures !OutweighsAll(LateCrossing(threads, n), CrossedWeights(n), n)
    ensures !MergesAll(LateCrossing(threads, n), CrossedWeights(n), n)
  {
    CrossingIsHeavier(n);
    assert !Pow2(3);
    var own, weights := LateCrossing(threads, n), CrossedWeights(n);
    ResultSame(own, 1, Straight(n), weights, n);
    AllMergedOutweighs(own, weights, n, threads, 3);
    hide Weight, Result, AllMerged, Merging, IsSchedule, LateCrossing, CrossedWeights, Straight, Crossed;
    assert own[3] == Crossed(n);
  }

  /**
   The result is at least as heavy as every thread's schedule, whatever the schedules and the weights, exactly
   when there are at most three threads or at most one port; and then it is the merge of them all.
   */
  lemma OutweighsAllIff(threads: nat, n: nat)
    requires threads > 0
    ensures AlwaysOutweighsAll(threads, n) <==> threads <= 3 || n <= 1
    ensures AlwaysMergesAll(threads, n) <==> threads <= 3 || n <= 1
  {
    hide OutweighsAll, MergesAll, AreSchedules, Covers;
    if threads <= 3 || n <= 1 {
      forall own: seq<seq<int>>, weights: seq<seq<int>> | IsInstance(own, weights, threads, n)
        ensures OutweighsAll(own, weights, n) && MergesAll(own, weights, n)
      {
        if threads <= 3 {
          FewThreadsOutweighAll(own, weights, n);
        } else {
          OnePortMergesAll(own, weights, n);
        }
      }
    } else {
      LateCrossingIsLost(threads, n);
    }
  }
}
