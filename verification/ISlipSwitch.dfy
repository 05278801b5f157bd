/** The simplified switch driven by iSLIP: the system the liveness theorem is about. */
module ISlipSwitch {
  import opened ISlipLiveness
  import opened ISlipSpec
  import opened Matchings
  import opened Sums
  import opened SwitchSpec
  import opened SwitchingCycles
  import opened Switches
  import opened Tracking
  import opened Voq
  import ISlip

  /** Pointers and lengths of a switch and its scheduler. */
  ghost function SysOf(sw: SIQSwitch, sched: ISlip.Scheduler): Sys
    reads sw, sched
  {
    Sys(sched.grantPointers, sched.acceptPointer, sw.queueLenMat)
  }

  /** The scheduler's status marks exactly the switch's nonempty queues. */
  ghost predicate InStep(sw: SIQSwitch, sched: ISlip.Scheduler)
    reads sw, sched
  {
    && sw.Valid() && sched.Valid() && sw.channelInstalled
    && sw.numInputs == sched.numInputs && sw.numOutputs == sched.numOutputs
    && sched.queueStatus == NonEmpty(sw.queueLenMat)
  }

  /** The scheduler's part of a slot, seen as a step of the system. */
  lemma ScheduleIsMatched(sys: Sys, arrivals: seq<Pair>, iterations: nat)
    requires sys.Valid()
    ensures Marked(NonEmpty(sys.lengths), arrivals) == NonEmpty(Loaded(sys, arrivals))
    ensures var m := Matched(sys, arrivals, iterations);
            && IsMatchVector(m.inMatch, |sys.accept|, |sys.grant|)
            && Cleared(NonEmpty(Loaded(sys, arrivals)), m.inMatch, Loaded(sys, arrivals), |sys.accept|)
               == NonEmpty(Slot(sys, arrivals, iterations).lengths)
  {
    MarkedTracks(sys.lengths, arrivals, |sys.accept|, |sys.grant|);
    ClearedTracks(Loaded(sys, arrivals), Matched(sys, arrivals, iterations).inMatch, |sys.accept|, |sys.grant|);
  }

  /** The scheduler's part of a cycle: it decides as in the system, and its status is what it has to be afterwards. */
  method Decide(sw: SIQSwitch, sched: ISlip.Scheduler, ghost sys: Sys, ghost arrivals: seq<Pair>)
    requires sw.Valid() && sched.Valid() && sys.Valid()
    requires |sys.accept| == sched.numInputs == sw.numInputs && |sys.grant| == sched.numOutputs == sw.numOutputs
    requires sys.grant == sched.grantPointers && sys.accept == sched.acceptPointer
    requires sched.queueStatus == NonEmpty(sys.lengths) && Live(sw.arrivals) == arrivals
    requires InRange(arrivals, sw.numInputs, sw.numOutputs) && sw.queueLenMat == Loaded(sys, arrivals)
    modifies sched
    ensures sched.Valid() && sched.View() == Matched(sys, arrivals, sched.iterations)
    ensures IsMatchVector(sched.inMatch, sw.numInputs, sw.numOutputs)
    ensures sched.queueStatus == NonEmpty(Slot(sys, arrivals, sched.iterations).lengths)
  {
    ScheduleIsMatched(sys, arrivals, sched.iterations);
    hide NonEmpty, Live, InRange, Marked, Cleared, IsMatchVector;
    sched.Schedule(sw.arrivals, sw.queueLenMat);
    assert sched.View() == Matched(sys, arrivals, sched.iterations);
  }

  /** A switching cycle under iSLIP is one step of the system, and keeps the two in step. */
  method Switching(sw: SIQSwitch, sched: ISlip.Scheduler)
    requires InStep(sw, sched) && InRange(Pairs(Offered(sw.inputChannel)), sw.numInputs, sw.numOutputs)
    modifies sw, sched
    ensures InStep(sw, sched) && old(SysOf(sw, sched)).Valid()
    ensures SysOf(sw, sched) == Slot(old(SysOf(sw, sched)), Pairs(Offered(old(sw.inputChannel))), sched.iterations)
    ensures sched.View()
            == Matched(old(SysOf(sw, sched)), Pairs(Offered(old(sw.inputChannel))), sched.iterations)
    ensures CycleDone(sw)
  {
    ghost var sys, arrivals := SysOf(sw, sched), Pairs(Offered(sw.inputChannel));
    hide Matched, NonEmpty, Live, InRange, IsMatchVector;
    var _ := sw.ReadInputs();
    Decide(sw, sched, sys, arrivals);
    var _ := sw.WriteOutputs(sched.inMatch);
  }

  ghost function WithStatus(sw: SIQSwitch, sched: ISlip.Scheduler): Snapshot<seq<seq<bool>>>
    reads sw, sched
  {
    Snapshot(sched.queueStatus, sw.queueLenMat, sched.inMatch, sched.outMatch)
  }

  ghost predicate IsSystem(sys: Sys, inputs: nat, outputs: nat) {
    sys.Valid() && |sys.accept| == inputs && |sys.grant| == outputs
  }

  /** The states of the system in the first slots of a run. */
  ghost predicate IsSystemRun(states: seq<Sys>, offers: seq<seq<seq<Packet>>>, iterations: nat, inputs: nat,
      outputs: nat)
  {
    && 0 < |states| <= |offers| + 1 && (forall t :: 0 <= t < |states| ==> IsSystem(states[t], inputs, outputs))
    && forall t :: 0 <= t < |states| - 1 ==> StepsTo(states[t], offers[t], iterations, states[t + 1])
  }

  ghost predicate StepsTo(sys: Sys, channels: seq<seq<Packet>>, iterations: nat, next: Sys)
    requires sys.Valid()
  {
    next == Slot(sys, Pairs(Offered(channels)), iterations)
  }

  lemma OneMoreStep(states: seq<Sys>, next: Sys, offers: seq<seq<seq<Packet>>>, iterations: nat, inputs: nat,
      outputs: nat)
    requires IsSystemRun(states, offers, iterations, inputs, outputs) && |states| <= |offers|
    requires IsSystem(next, inputs, outputs)
    requires StepsTo(states[|states| - 1], offers[|states| - 1], iterations, next)
    ensures IsSystemRun(states + [next], offers, iterations, inputs, outputs)
  {
    hide StepsTo;
    var more := states + [next];
    forall t | 0 <= t < |states|
      ensures StepsTo(more[t], offers[t], iterations, more[t + 1])
    {
      assert t < |states| - 1 ==> StepsTo(states[t], offers[t], iterations, states[t + 1]);
    }
  }

  ghost function ArrivalsOf(offers: seq<seq<seq<Packet>>>): (r: seq<seq<Pair>>)
    ensures |r| == |offers| && forall t :: 0 <= t < |r| ==> r[t] == Pairs(Offered(offers[t]))
  {
    seq(|offers|, t requires 0 <= t < |offers| => Pairs(Offered(offers[t])))
  }

  /** A queue served at all in `n` slots is served in one of them. */
  lemma {:induction false} SomeSlotServes(states: seq<Sys>, offers: seq<seq<seq<Packet>>>, iterations: nat, t: nat,
      n: nat, i: nat, j: nat, inputs: nat, outputs: nat)
    requires IsSystemRun(states, offers, iterations, inputs, outputs) && |states| == |offers| + 1
    requires t + n <= |offers| && i < inputs && j < outputs
    requires Services(states[t], ArrivalsOf(offers)[t..t + n], iterations, i, j) >= 1
    ensures exists u :: t <= u < t + n && Serves(states[u], ArrivalsOf(offers)[u], iterations, i, j)
    decreases n
  {
    hide Slot, Serves, ArrivalsOf, Sys.Valid;
    var arrivals := ArrivalsOf(offers);
    assert n > 0;
    assert IsSystem(states[t], inputs, outputs);
    if !Serves(states[t], arrivals[t], iterations, i, j) {
      assert StepsTo(states[t], offers[t], iterations, states[t + 1]);
      assert arrivals[t..t + n][1..] == arrivals[t + 1..t + n];
      assert t + n == t + 1 + (n - 1);
      SomeSlotServes(states, offers, iterations, t + 1, n - 1, i, j, inputs, outputs);
    }
  }

  /** In every run of switch and scheduler, a queue that is nonempty in a slot sends a packet within the bound. */
  lemma RunServes(states: seq<Sys>, offers: seq<seq<seq<Packet>>>, iterations: nat, t: nat, i: nat, j: nat, inputs: nat,
      outputs: nat)
    requires IsSystemRun(states, offers, iterations, inputs, outputs) && |states| == |offers| + 1
    requires iterations > 0 && i < inputs && j < outputs && t + Bound(inputs, outputs) <= |offers| && t < |offers|
    requires Waiting(states[t], ArrivalsOf(offers)[t], i, j)
    ensures exists u :: t <= u < t + Bound(inputs, outputs) &&
                        Serves(states[u], ArrivalsOf(offers)[u], iterations, i, j)
  {
    hide Slot, Serves, ArrivalsOf, Services, Waiting, Bound, Sys.Valid;
    var arrivals := ArrivalsOf(offers);
    assert IsSystem(states[t], inputs, outputs);
    assert arrivals[t..][0] == arrivals[t];
    NoStarvation(states[t], arrivals[t..], iterations, i, j);
    assert arrivals[t..][..Bound(inputs, outputs)] == arrivals[t..t + Bound(inputs, outputs)];
    SomeSlotServes(states, offers, iterations, t, Bound(inputs, outputs), i, j, inputs, outputs);
  }

  /** A matching of a slot after enough iterations is maximal on the queues with the arrivals. */
  lemma SlotIsMaximal(sys: Sys, arrivals: seq<Pair>, iterations: nat)
    requires sys.Valid() && (iterations >= |sys.accept| || iterations >= |sys.grant|)
    ensures var m := Matched(sys, arrivals, iterations); MaximalOn(sys.lengths, arrivals, m.inMatch, m.outMatch)
  {
    Converges(Unmatched(sys.grant, sys.accept), NonEmpty(Loaded(sys, arrivals)), iterations);
  }

  /** One slot: packets are put on the channels and the switch runs a cycle. */
  method SlotWithISlip(sw: SIQSwitch, sched: ISlip.Scheduler, channels: seq<seq<Packet>>)
    requires InStep(sw, sched)
    requires |channels| == sw.numInputs && InRange(Pairs(Offered(channels)), sw.numInputs, sw.numOutputs)
    modifies sw, sched
    ensures InStep(sw, sched) && sched.queueStatus == NonEmpty(sw.queueLenMat)
    ensures old(SysOf(sw, sched)).Valid() && IsSystem(SysOf(sw, sched), sched.numInputs, sched.numOutputs)
    ensures StepsTo(old(SysOf(sw, sched)), channels, sched.iterations, SysOf(sw, sched))
    ensures CycleBetween(old(WithStatus(sw, sched)), channels, WithStatus(sw, sched))
    ensures sched.iterations >= sched.numInputs || sched.iterations >= sched.numOutputs ==>
      MaximalBetween(old(WithStatus(sw, sched)), channels, WithStatus(sw, sched))
  {
    ghost var sys := SysOf(sw, sched);
    sw.inputChannel := channels;
    Switching(sw, sched);
    if sched.iterations >= sched.numInputs || sched.iterations >= sched.numOutputs {
      SlotIsMaximal(sys, Pairs(Offered(channels)), sched.iterations);
    }
  }

  /**
   In every run from an empty switch the status marks exactly the nonempty queues, each slot is a step of
   the system of the liveness theorem, and enough iterations make every matching maximal.
   */
  method RunWithISlip(inputs: nat, outputs: nat, iterations: nat, grantPointers: seq<int>, acceptPointer: seq<int>,
      offers: seq<seq<seq<Packet>>>)
    returns (sw: SIQSwitch, sched: ISlip.Scheduler, ghost run: seq<Snapshot<seq<seq<bool>>>>, ghost states: seq<Sys>)
    requires inputs > 0 && outputs > 0 && iterations > 0 && AreOffers(offers, inputs, outputs)
    requires |grantPointers| == outputs && |acceptPointer| == inputs
    requires forall o :: 0 <= o < outputs ==> grantPointers[o] >= 0
    requires forall i :: 0 <= i < inputs ==> acceptPointer[i] >= 0
    ensures |run| == |offers| + 1 && IsRun(run, offers, inputs, outputs) && StatusAgrees(run)
    ensures |states| == |offers| + 1 && IsSystemRun(states, offers, iterations, inputs, outputs)
    ensures states[0] == Sys(grantPointers, acceptPointer, Fill(inputs, Fill(outputs, 0)))
    ensures iterations >= inputs || iterations >= outputs ==> MaximalRun(run, offers)
    ensures run[|offers|] == WithStatus(sw, sched) && states[|offers|] == SysOf(sw, sched) && InStep(sw, sched)
  {
    sw := new SIQSwitch(inputs, outputs);
    sched := new ISlip.Scheduler(inputs, outputs, iterations, grantPointers, acceptPointer);
    GridsEqual(sw.queueLenMat, Fill(inputs, Fill(outputs, 0)));
    GridsEqual(sched.queueStatus, NonEmpty(sw.queueLenMat));
    run, states := [WithStatus(sw, sched)], [SysOf(sw, sched)];
    assert sched.View() == Unmatched(grantPointers, acceptPointer);
    assert InStep(sw, sched);
    hide CycleBetween, MaximalBetween, MaximalRun, IsRun, IsSystemRun, StepsTo, InStep, NonEmpty;
    for t := 0 to |offers|
      invariant InStep(sw, sched) && sw.numInputs == inputs && sw.numOutputs == outputs
      invariant |run| == t + 1 && run[t] == WithStatus(sw, sched) && |states| == t + 1 && states[t] == SysOf(sw, sched)
      invariant IsRun(run, offers, inputs, outputs) && StatusAgrees(run)
      invariant IsSystemRun(states, offers, iterations, inputs, outputs)
      invariant states[0] == Sys(grantPointers, acceptPointer, Fill(inputs, Fill(outputs, 0)))
      invariant iterations >= inputs || iterations >= outputs ==> MaximalRun(run, offers)
    {
      SlotWithISlip(sw, sched, offers[t]);
      OneMoreSlot(run, WithStatus(sw, sched), offers, inputs, outputs);
      OneMoreStep(states, SysOf(sw, sched), offers, iterations, inputs, outputs);
      if iterations >= inputs || iterations >= outputs {
        OneMoreMaximal(run, WithStatus(sw, sched), offers);
      }
      run, states := run + [WithStatus(sw, sched)], states + [SysOf(sw, sched)];
    }
  }
}
