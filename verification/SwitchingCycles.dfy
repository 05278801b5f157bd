/**
 The simplified switch driven by the schedulers that keep their own record of the queues: a switching cycle
 leaves the record in agreement with the switch, so from the constructors on the two agree after every slot
 of every run.
 */
module SwitchingCycles {
  import opened Matchings
  import opened Sums
  import opened SwitchSpec
  import opened Switches
  import opened Tracking
  import opened Voq
  import Ipoc
  import Qps
  import QpsSpec
  import RandomizedMaximal
  import SerenaSpec

  /** What a cycle does to the lengths: everything offered is enqueued, then the matched queues send. */
  ghost predicate Cycle(before: seq<seq<int>>, offered: seq<Pair>, inMatch: seq<int>, after: seq<seq<int>>) {
    |inMatch| == |before| && after == Departed(Enqueued(before, offered), inMatch)
  }

  /** The matching of a cycle uses nonempty queues and leaves none with both ends free. */
  ghost predicate MaximalOn(before: seq<seq<int>>, offered: seq<Pair>, inMatch: seq<int>, outMatch: seq<int>)
    requires IsGrid(before, |inMatch|, |outMatch|)
  {
    IsMatching(inMatch, outMatch) && IsMaximal(inMatch, outMatch, NonEmpty(Enqueued(before, offered)))
  }

  /** The switch has channels, holding packets for its own ports. */
  ghost predicate Ready(sw: SIQSwitch, inputs: nat, outputs: nat)
    reads sw
  {
    && sw.Valid() && sw.channelInstalled && sw.numInputs == inputs && sw.numOutputs == outputs
    && InRange(Pairs(Offered(sw.inputChannel)), inputs, outputs)
  }

  /** After a cycle the switch still has its channels, and they are empty. */
  ghost predicate CycleDone(sw: SIQSwitch)
    reads sw
  {
    sw.Valid() && sw.channelInstalled && sw.inputChannel == Fill(sw.numInputs, [])
  }

  method SwitchingWithMaximal(sw: SIQSwitch, sched: RandomizedMaximal.Scheduler, shuffle: seq<Pair> -> seq<Pair>)
    requires Ready(sw, sched.numInputs, sched.numOutputs) && RandomizedMaximal.Shuffles(shuffle)
    requires sched.Valid() && RandomizedMaximal.Present(sched.index) == NonEmpty(sw.queueLenMat)
    modifies sw, sched
    ensures CycleDone(sw) && sched.Valid() && RandomizedMaximal.Present(sched.index) == NonEmpty(sw.queueLenMat)
    ensures Cycle(old(sw.queueLenMat), Pairs(Offered(old(sw.inputChannel))), sched.inMatch, sw.queueLenMat)
    ensures MaximalOn(old(sw.queueLenMat), Pairs(Offered(old(sw.inputChannel))), sched.inMatch, sched.outMatch)
  {
    MarkedTracks(sw.queueLenMat, Pairs(Offered(sw.inputChannel)), sw.numInputs, sw.numOutputs);
    var _ := sw.ReadInputs();
    ghost var _ := sched.Schedule(sw.arrivals, sw.queueLenMat, shuffle);
    ClearedTracks(sw.queueLenMat, sched.inMatch, sw.numInputs, sw.numOutputs);
    var _ := sw.WriteOutputs(sched.inMatch);
  }

  /** Without replacement and with as many rounds as the smaller side has ports. */
  ghost predicate HasEnoughRounds(sched: Qps.Scheduler) {
    sched.withoutReplacement && (sched.iterations >= sched.numInputs || sched.iterations >= sched.numOutputs)
  }

  method SwitchingWithQps(sw: SIQSwitch, sched: Qps.Scheduler, orders: seq<seq<int>>, draws: seq<seq<real>>)
    requires Ready(sw, sched.numInputs, sched.numOutputs) && sched.Tracks(sw.queueLenMat)
    requires |orders| == sched.iterations == |draws|
    requires forall it :: 0 <= it < sched.iterations ==>
      QpsSpec.IsOrder(orders[it], sched.numInputs) && QpsSpec.AreDraws(draws[it], sched.numInputs)
    modifies sw, sched
    ensures CycleDone(sw) && sched.Tracks(sw.queueLenMat)
    ensures Cycle(old(sw.queueLenMat), Pairs(Offered(old(sw.inputChannel))), sched.inMatch, sw.queueLenMat)
    ensures HasEnoughRounds(sched) ==>
      MaximalOn(old(sw.queueLenMat), Pairs(Offered(old(sw.inputChannel))), sched.inMatch, sched.outMatch)
  {
    ghost var before := sw.queueLenMat;
    var _ := sw.ReadInputs();
    ghost var _ := sched.Schedule(sw.arrivals, sw.queueLenMat, orders, draws, before);
    var _ := sw.WriteOutputs(sched.inMatch);
  }

  method SwitchingWithIpoc(sw: SIQSwitch, sched: Ipoc.Scheduler, order: seq<int>, first: seq<nat>, second: seq<nat>)
    requires Ready(sw, sched.numInputs, sched.numOutputs) && Ipoc.ListsAll(sched.nonEmptyVoqs, NonEmpty(sw.queueLenMat))
    requires SerenaSpec.IsFull(order) && |order| == |first| == |second| == sched.numInputs
    modifies sw, sched
    ensures CycleDone(sw) && Ipoc.ListsAll(sched.nonEmptyVoqs, NonEmpty(sw.queueLenMat))
    ensures Cycle(old(sw.queueLenMat), Pairs(Offered(old(sw.inputChannel))), sched.inMatch, sw.queueLenMat)
    ensures IsMatching(sched.inMatch, sched.outMatch)
  {
    ghost var before := sw.queueLenMat;
    var _ := sw.ReadInputs();
    ghost var _, _ := sched.Schedule(sw.arrivals, sw.queueLenMat, order, first, second, before);
    var _ := sw.WriteOutputs(sched.inMatch);
  }

  // Runs

  /** What a scheduler and its switch look like between two slots. */
  datatype Snapshot<R> = Snapshot(record: R, lengths: seq<seq<int>>, inMatch: seq<int>, outMatch: seq<int>)

  /** The packets put on the input channels in every slot. */
  ghost predicate AreOffers(offers: seq<seq<seq<Packet>>>, inputs: nat, outputs: nat) {
    forall t :: 0 <= t < |offers| ==> |offers[t]| == inputs && InRange(Pairs(Offered(offers[t])), inputs, outputs)
  }

  ghost predicate CycleBetween<R>(a: Snapshot<R>, channels: seq<seq<Packet>>, b: Snapshot<R>) {
    Cycle(a.lengths, Pairs(Offered(channels)), b.inMatch, b.lengths)
  }

  ghost predicate MaximalBetween<R>(a: Snapshot<R>, channels: seq<seq<Packet>>, b: Snapshot<R>) {
    && IsGrid(a.lengths, |b.inMatch|, |b.outMatch|)
    && MaximalOn(a.lengths, Pairs(Offered(channels)), b.inMatch, b.outMatch)
  }

  /** The first slots of a run from an empty switch. */
  ghost predicate IsRun<R>(run: seq<Snapshot<R>>, offers: seq<seq<seq<Packet>>>, inputs: nat, outputs: nat) {
    && 0 < |run| <= |offers| + 1 && run[0].lengths == Fill(inputs, Fill(outputs, 0))
    && forall t :: 0 <= t < |run| - 1 ==> CycleBetween(run[t], offers[t], run[t + 1])
  }

  lemma OneMoreSlot<R>(run: seq<Snapshot<R>>, next: Snapshot<R>, offers: seq<seq<seq<Packet>>>, inputs: nat,
      outputs: nat)
    requires IsRun(run, offers, inputs, outputs) && |run| <= |offers|
    requires CycleBetween(run[|run| - 1], offers[|run| - 1], next)
    ensures IsRun(run + [next], offers, inputs, outputs)
  {
    hide CycleBetween;
    var more := run + [next];
    forall t | 0 <= t < |run|
      ensures CycleBetween(more[t], offers[t], more[t + 1])
    {
      assert t < |run| - 1 ==> CycleBetween(run[t], offers[t], run[t + 1]);
    }
  }

  ghost predicate MaximalRun<R>(run: seq<Snapshot<R>>, offers: seq<seq<seq<Packet>>>)
    requires |run| <= |offers| + 1
  {
    forall t :: 0 <= t < |run| - 1 ==> MaximalBetween(run[t], offers[t], run[t + 1])
  }

  lemma OneMoreMaximal<R>(run: seq<Snapshot<R>>, next: Snapshot<R>, offers: seq<seq<seq<Packet>>>)
    requires 0 < |run| <= |offers| && MaximalRun(run, offers)
    requires MaximalBetween(run[|run| - 1], offers[|run| - 1], next)
    ensures MaximalRun(run + [next], offers)
  {
    hide MaximalBetween;
    var more := run + [next];
    forall t | 0 <= t < |run|
      ensures MaximalBetween(more[t], offers[t], more[t + 1])
    {
      assert t < |run| - 1 ==> MaximalBetween(run[t], offers[t], run[t + 1]);
    }
  }

  /** A record that marks queues marks exactly the nonempty ones. */
  ghost predicate StatusAgrees(run: seq<Snapshot<seq<seq<bool>>>>) {
    forall t :: 0 <= t < |run| ==> run[t].record == NonEmpty(run[t].lengths)
  }

  // The edge set of randomized maximal matching

  ghost function WithEdges(sw: SIQSwitch, sched: RandomizedMaximal.Scheduler): Snapshot<seq<seq<bool>>>
    reads sw, sched
  {
    Snapshot(RandomizedMaximal.Present(sched.index), sw.queueLenMat, sched.inMatch, sched.outMatch)
  }

  ghost predicate EdgesReady(sw: SIQSwitch, sched: RandomizedMaximal.Scheduler, inputs: nat, outputs: nat)
    reads sw, sched
  {
    && sw.Valid() && sw.channelInstalled && sw.numInputs == inputs && sw.numOutputs == outputs
    && sched.Valid() && sched.numInputs == inputs && sched.numOutputs == outputs
    && RandomizedMaximal.Present(sched.index) == NonEmpty(sw.queueLenMat)
  }

  lemma NothingQueued(lengths: seq<seq<int>>, inputs: nat, outputs: nat)
    requires IsGrid(lengths, inputs, outputs)
    requires forall s, d :: 0 <= s < inputs && 0 <= d < outputs ==> lengths[s][d] == 0
    ensures lengths == Fill(inputs, Fill(outputs, 0)) && NonEmpty(lengths) == Fill(inputs, Fill(outputs, false))
  {
    GridsEqual(lengths, Fill(inputs, Fill(outputs, 0)));
    GridsEqual(NonEmpty(lengths), Fill(inputs, Fill(outputs, false)));
  }

  /** One slot: packets are put on the channels and the switch runs a cycle. */
  method SlotWithMaximal(sw: SIQSwitch, sched: RandomizedMaximal.Scheduler, channels: seq<seq<Packet>>,
      shuffle: seq<Pair> -> seq<Pair>)
    requires EdgesReady(sw, sched, sw.numInputs, sw.numOutputs) && RandomizedMaximal.Shuffles(shuffle)
    requires |channels| == sw.numInputs && InRange(Pairs(Offered(channels)), sw.numInputs, sw.numOutputs)
    modifies sw, sched
    ensures EdgesReady(sw, sched, sw.numInputs, sw.numOutputs)
    ensures CycleBetween(old(WithEdges(sw, sched)), channels, WithEdges(sw, sched))
    ensures MaximalBetween(old(WithEdges(sw, sched)), channels, WithEdges(sw, sched))
  {
    sw.inputChannel := channels;
    SwitchingWithMaximal(sw, sched, shuffle);
  }

  /** In every run the edge set holds exactly the nonempty queues, and every matching is maximal. */
  method RunWithMaximal(inputs: nat, outputs: nat, offers: seq<seq<seq<Packet>>>, shuffles: seq<seq<Pair> -> seq<Pair>>)
    returns (sw: SIQSwitch, sched: RandomizedMaximal.Scheduler, ghost run: seq<Snapshot<seq<seq<bool>>>>)
    requires AreOffers(offers, inputs, outputs) && |shuffles| == |offers|
    requires forall t :: 0 <= t < |shuffles| ==> RandomizedMaximal.Shuffles(shuffles[t])
    ensures |run| == |offers| + 1 && IsRun(run, offers, inputs, outputs)
    ensures StatusAgrees(run) && MaximalRun(run, offers) && run[|offers|] == WithEdges(sw, sched)
    ensures EdgesReady(sw, sched, inputs, outputs)
  {
    hide CycleBetween, MaximalBetween, RandomizedMaximal.Shuffles, RandomizedMaximal.Present, NonEmpty;
    sw := new SIQSwitch(inputs, outputs);
    sched := new RandomizedMaximal.Scheduler(inputs, outputs);
    NothingQueued(sw.queueLenMat, inputs, outputs);
    run := [WithEdges(sw, sched)];
    hide MaximalRun, IsRun, EdgesReady;
    for t := 0 to |offers|
      invariant EdgesReady(sw, sched, inputs, outputs) && sw.numInputs == inputs && sw.numOutputs == outputs
      invariant |run| == t + 1 && run[t] == WithEdges(sw, sched)
      invariant IsRun(run, offers, inputs, outputs) && MaximalRun(run, offers) && StatusAgrees(run)
    {
      SlotWithMaximal(sw, sched, offers[t], shuffles[t]);
      OneMoreSlot(run, WithEdges(sw, sched), offers, inputs, outputs);
      OneMoreMaximal(run, WithEdges(sw, sched), offers);
      run := run + [WithEdges(sw, sched)];
    }
  }

  // The trees of queue-proportional sampling

  ghost predicate TreesAgree(run: seq<Snapshot<seq<seq<int>>>>, leaves: nat) {
    forall t :: 0 <= t < |run| ==> QpsSpec.RepresentsAll(run[t].record, leaves, run[t].lengths)
  }

  ghost function WithTrees(sw: SIQSwitch, sched: Qps.Scheduler): Snapshot<seq<seq<int>>>
    reads sw, sched
  {
    Snapshot(sched.bst, sw.queueLenMat, sched.inMatch, sched.outMatch)
  }

  ghost predicate TreesReady(sw: SIQSwitch, sched: Qps.Scheduler)
    reads sw, sched
  {
    && sw.Valid() && sw.channelInstalled && sw.numInputs == sched.numInputs && sw.numOutputs == sched.numOutputs
    && sched.Tracks(sw.queueLenMat)
  }

  method SlotWithQps(sw: SIQSwitch, sched: Qps.Scheduler, channels: seq<seq<Packet>>, orders: seq<seq<int>>,
      draws: seq<seq<real>>)
    requires TreesReady(sw, sched)
    requires |channels| == sw.numInputs && InRange(Pairs(Offered(channels)), sw.numInputs, sw.numOutputs)
    requires |orders| == sched.iterations && QpsSpec.AreChoices(orders, draws, sched.numInputs)
    modifies sw, sched
    ensures TreesReady(sw, sched) && QpsSpec.RepresentsAll(sched.bst, sched.leftStart, sw.queueLenMat)
    ensures CycleBetween(old(WithTrees(sw, sched)), channels, WithTrees(sw, sched))
    ensures HasEnoughRounds(sched) ==> MaximalBetween(old(WithTrees(sw, sched)), channels, WithTrees(sw, sched))
  {
    sw.inputChannel := channels;
    SwitchingWithQps(sw, sched, orders, draws);
  }

  method StartQps(inputs: nat, outputs: nat, iterations: nat, policy: QpsSpec.AcceptPolicy, withoutReplacement: bool)
    returns (sw: SIQSwitch, sched: Qps.Scheduler)
    requires inputs > 0 && outputs > 0 && iterations > 0
    ensures fresh(sw) && fresh(sched) && TreesReady(sw, sched) && sw.queueLenMat == Fill(inputs, Fill(outputs, 0))
    ensures QpsSpec.RepresentsAll(sched.bst, sched.leftStart, sw.queueLenMat)
    ensures sw.numInputs == inputs && sw.numOutputs == outputs && sched.iterations == iterations
    ensures sched.numInputs == inputs && sched.withoutReplacement == withoutReplacement
    ensures HasEnoughRounds(sched) <==> withoutReplacement && (iterations >= inputs || iterations >= outputs)
  {
    sw := new SIQSwitch(inputs, outputs);
    sched := new Qps.Scheduler(inputs, outputs, iterations, policy, withoutReplacement);
    GridsEqual(sw.queueLenMat, Fill(inputs, Fill(outputs, 0)));
  }

  /** In every run the trees represent the lengths, and enough rounds make every matching maximal. */
  method RunWithQps(inputs: nat, outputs: nat, iterations: nat, policy: QpsSpec.AcceptPolicy, withoutReplacement: bool,
      offers: seq<seq<seq<Packet>>>, orders: seq<seq<seq<int>>>, draws: seq<seq<seq<real>>>)
    returns (sw: SIQSwitch, sched: Qps.Scheduler, ghost run: seq<Snapshot<seq<seq<int>>>>)
    requires inputs > 0 && outputs > 0 && iterations > 0
    requires AreOffers(offers, inputs, outputs) && |orders| == |draws| == |offers|
    requires forall t :: 0 <= t < |orders| ==>
      |orders[t]| == iterations && QpsSpec.AreChoices(orders[t], draws[t], inputs)
    ensures |run| == |offers| + 1 && IsRun(run, offers, inputs, outputs)
    ensures TreesAgree(run, sched.leftStart) && run[|offers|] == WithTrees(sw, sched) && TreesReady(sw, sched)
    ensures withoutReplacement && (iterations >= inputs || iterations >= outputs) ==> MaximalRun(run, offers)
  {
    hide TreesReady, HasEnoughRounds, QpsSpec.RepresentsAll, QpsSpec.AreChoices;
    sw, sched := StartQps(inputs, outputs, iterations, policy, withoutReplacement);
    run := [WithTrees(sw, sched)];
    hide CycleBetween, MaximalBetween, MaximalRun, IsRun;
    for t := 0 to |offers|
      invariant TreesReady(sw, sched) && sw.numInputs == inputs && sw.numOutputs == outputs
      invariant |run| == t + 1 && run[t] == WithTrees(sw, sched)
      invariant IsRun(run, offers, inputs, outputs) && TreesAgree(run, sched.leftStart)
      invariant HasEnoughRounds(sched) ==> MaximalRun(run, offers)
    {
      SlotWithQps(sw, sched, offers[t], orders[t], draws[t]);
      OneMoreSlot(run, WithTrees(sw, sched), offers, inputs, outputs);
      if HasEnoughRounds(sched) {
        OneMoreMaximal(run, WithTrees(sw, sched), offers);
      }
      run := run + [WithTrees(sw, sched)];
    }
  }

  // The lists of iPOC

  ghost predicate ListsAgree(run: seq<Snapshot<seq<seq<int>>>>) {
    forall t :: 0 <= t < |run| ==>
      Ipoc.ListsAll(run[t].record, NonEmpty(run[t].lengths)) && IsMatching(run[t].inMatch, run[t].outMatch)
  }

  ghost function WithLists(sw: SIQSwitch, sched: Ipoc.Scheduler): Snapshot<seq<seq<int>>>
    reads sw, sched
  {
    Snapshot(sched.nonEmptyVoqs, sw.queueLenMat, sched.inMatch, sched.outMatch)
  }

  ghost predicate ListsReady(sw: SIQSwitch, sched: Ipoc.Scheduler)
    reads sw, sched
  {
    && sw.Valid() && sw.channelInstalled && sw.numInputs == sched.numInputs && sw.numOutputs == sched.numOutputs
    && Ipoc.ListsAll(sched.nonEmptyVoqs, NonEmpty(sw.queueLenMat))
  }

  /** An order of the inputs and two choices per input for every slot. */
  ghost predicate ArePicks(orders: seq<seq<int>>, first: seq<seq<nat>>, second: seq<seq<nat>>, slots: nat, inputs: nat)
  {
    && |orders| == |first| == |second| == slots
    && forall t :: 0 <= t < slots ==>
         SerenaSpec.IsFull(orders[t]) && |orders[t]| == |first[t]| == |second[t]| == inputs
  }

  method SlotWithIpoc(sw: SIQSwitch, sched: Ipoc.Scheduler, channels: seq<seq<Packet>>, order: seq<int>,
      first: seq<nat>, second: seq<nat>)
    requires ListsReady(sw, sched)
    requires |channels| == sw.numInputs && InRange(Pairs(Offered(channels)), sw.numInputs, sw.numOutputs)
    requires SerenaSpec.IsFull(order) && |order| == |first| == |second| == sched.numInputs
    modifies sw, sched
    ensures ListsReady(sw, sched) && Ipoc.ListsAll(sched.nonEmptyVoqs, NonEmpty(sw.queueLenMat))
    ensures CycleBetween(old(WithLists(sw, sched)), channels, WithLists(sw, sched))
    ensures IsMatching(sched.inMatch, sched.outMatch)
  {
    sw.inputChannel := channels;
    SwitchingWithIpoc(sw, sched, order, first, second);
  }

  /** In every run the lists hold exactly the nonempty queues, and every decision is a matching. */
  method RunWithIpoc(inputs: nat, outputs: nat, offers: seq<seq<seq<Packet>>>, orders: seq<seq<int>>,
      first: seq<seq<nat>>, second: seq<seq<nat>>)
    returns (sw: SIQSwitch, sched: Ipoc.Scheduler, ghost run: seq<Snapshot<seq<seq<int>>>>)
    requires AreOffers(offers, inputs, outputs) && ArePicks(orders, first, second, |offers|, inputs)
    ensures |run| == |offers| + 1 && IsRun(run, offers, inputs, outputs)
    ensures ListsAgree(run) && run[|offers|] == WithLists(sw, sched) && ListsReady(sw, sched)
  {
    sw := new SIQSwitch(inputs, outputs);
    sched := new Ipoc.Scheduler(inputs, outputs);
    GridsEqual(sw.queueLenMat, Fill(inputs, Fill(outputs, 0)));
    run := [WithLists(sw, sched)];
    hide CycleBetween, IsRun, ListsReady, Ipoc.ListsAll, IsMatching, SerenaSpec.IsFull;
    for t := 0 to |offers|
      invariant ListsReady(sw, sched) && sw.numInputs == inputs && sw.numOutputs == outputs
      invariant |run| == t + 1 && run[t] == WithLists(sw, sched)
      invariant IsRun(run, offers, inputs, outputs) && ListsAgree(run)
    {
      SlotWithIpoc(sw, sched, offers[t], orders[t], first[t], second[t]);
      OneMoreSlot(run, WithLists(sw, sched), offers, inputs, outputs);
      run := run + [WithLists(sw, sched)];
    }
  }
}
