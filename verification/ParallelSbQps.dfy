/** The parallel scheduler whole: every thread schedules on its own, and what the threads merge. */
module ParallelSbQps {
  import opened FutureMerge
  import opened FutureTree
  import opened SbQpsPools
  import opened Sums
  import SbQps
  import SerenaSpec

  /** The schedule a thread starts with. */
  method MatchingThread(settings: Settings, lengths: seq<seq<int>>, randoms: seq<seq<nat>>, inputs: nat, outputs: nat)
    returns (schedule: seq<int>)
    requires settings.Valid() && AreLengths(lengths, inputs, outputs) && AreRandoms(randoms, inputs)
    ensures IsSchedule(schedule, inputs) && IsCall(settings, lengths, randoms, inputs, outputs, schedule)
  {
    var qps := new SbQps.Scheduler(inputs, outputs, settings.frameSize, settings.cutoff);
    ghost var draws;
    schedule, draws := ScheduleLengths(qps, settings, lengths, randoms);
  }

  /** Every complete interleaving of the threads ends with a full matching that outweighs the merged schedules. */
  ghost predicate AllRunsOutweigh(own: seq<seq<int>>, lengths: seq<seq<int>>, n: nat)
    requires own != [] && SerenaSpec.Covers(lengths, n)
  {
    forall ids: seq<nat> :: IsCompleteRun(own, ids, Merging(lengths, n)) ==> RunOutweighs(own, ids, lengths, n)
  }

  ghost predicate RunOutweighs(own: seq<seq<int>>, ids: seq<nat>, lengths: seq<seq<int>>, n: nat)
    requires own != [] && SerenaSpec.Covers(lengths, n) && IsCompleteRun(own, ids, Merging(lengths, n))
  {
    var result := After(own, ids, Merging(lengths, n)).futures[0];
    && result.Ready? && OutweighsMerged(result.value, own, lengths, n)
    && (|own| <= 3 ==> forall k :: 0 <= k < |own| ==> FutureMerge.Outweighs(result.value, own[k], lengths, n))
  }

  lemma RunsOutweigh(own: seq<seq<int>>, ids: seq<nat>, lengths: seq<seq<int>>, n: nat)
    requires AreSchedules(own, n) && SerenaSpec.Covers(lengths, n) && IsCompleteRun(own, ids, Merging(lengths, n))
    ensures RunOutweighs(own, ids, lengths, n)
  {
    ParallelResult(own, ids, lengths, n);
    hide FutureMerge.Outweighs, IsCompleteRun;
    if |own| <= 3 {
      forall k | 0 <= k < |own|
        ensures IsMergedThread(k)
      {
      }
    }
  }

  /** `compute`: the schedules of all threads; the interleaving that merges them is arbitrary. */
  method Compute(settings: Settings, lengths: seq<seq<int>>, randoms: seq<seq<seq<nat>>>, inputs: nat, outputs: nat)
    returns (own: seq<seq<int>>)
    requires settings.Valid() && AreLengths(lengths, inputs, outputs) && randoms != []
    requires forall id :: 0 <= id < |randoms| ==> AreRandoms(randoms[id], inputs)
    ensures |own| == |randoms| && AreSchedules(own, inputs) && AllRunsOutweigh(own, lengths, inputs)
    ensures forall id :: 0 <= id < |own| ==> IsCall(settings, lengths, randoms[id], inputs, outputs, own[id])
  {
    own := [];
    hide IsSchedule, AreRandoms, IsCall;
    for id := 0 to |randoms|
      invariant |own| == id
      invariant forall k :: 0 <= k < id ==> IsCall(settings, lengths, randoms[k], inputs, outputs, own[k])
      invariant forall k :: 0 <= k < id ==> IsSchedule(own[k], inputs)
    {
      var schedule := MatchingThread(settings, lengths, randoms[id], inputs, outputs);
      own := own + [schedule];
    }
    hide IsCompleteRun, RunOutweighs;
    forall ids: seq<nat> | IsCompleteRun(own, ids, Merging(lengths, inputs))
      ensures RunOutweighs(own, ids, lengths, inputs)
    {
      RunsOutweigh(own, ids, lengths, inputs);
    }
  }

  /** Lengths and random numbers determine what the main thread finds, whatever the interleavings. */
  lemma ComputeIsDetermined(settings: Settings, lengths: seq<seq<int>>, randoms: seq<seq<seq<nat>>>, inputs: nat,
      outputs: nat, a: seq<seq<int>>, b: seq<seq<int>>, ids: seq<nat>, ids': seq<nat>)
    requires settings.Valid() && AreLengths(lengths, inputs, outputs) && |a| == |b| == |randoms| > 0
    requires forall id :: 0 <= id < |a| ==> IsCall(settings, lengths, randoms[id], inputs, outputs, a[id])
    requires forall id :: 0 <= id < |b| ==> IsCall(settings, lengths, randoms[id], inputs, outputs, b[id])
    requires IsCompleteRun(a, ids, Merging(lengths, inputs)) && IsCompleteRun(b, ids', Merging(lengths, inputs))
    ensures a == b
    ensures After(a, ids, Merging(lengths, inputs)).futures[0] == After(b, ids', Merging(lengths, inputs)).futures[0]
  {
    hide IsCall, IsRun, Merging;
    forall id | 0 <= id < |a|
      ensures a[id] == b[id]
    {
      CallIsUnique(settings, lengths, randoms[id], inputs, outputs, a[id], b[id]);
    }
    CompleteRunsAgree(a, ids, Merging(lengths, inputs));
    CompleteRunsAgree(b, ids', Merging(lengths, inputs));
  }
}
