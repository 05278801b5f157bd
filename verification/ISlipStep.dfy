/** iSLIP as a function of its pointers and of what a switch shows it: one of the schedulers the simulators take. */
module ISlipStep {
  import opened ISlipLiveness
  import opened ISlipSpec
  import opened Matchings
  import opened Simulator
  import opened Sums
  import opened SwitchSpec
  import opened Switches
  import opened Voq
  import LittlesLaw
  import SimplifiedLaw

  /** What iSLIP keeps between two slots; its status bits show the queues that are nonempty anyway. */
  datatype Pointers = Pointers(grant: seq<int>, accept: seq<int>) {
    predicate Fit(inputs: nat, outputs: nat) {
      && |grant| == outputs && |accept| == inputs
      && (forall o :: 0 <= o < outputs ==> grant[o] >= 0)
      && (forall i :: 0 <= i < inputs ==> accept[i] >= 0)
    }
  }

  predicate AreLengths(lengths: seq<seq<int>>, inputs: nat, outputs: nat) {
    |lengths| == inputs && forall s :: 0 <= s < inputs ==> |lengths[s]| == outputs
  }

  /** The decision of one slot; without pointers or lengths for the ports there is none. */
  function Decision(p: Pointers, lengths: seq<seq<int>>, iterations: nat, inputs: nat, outputs: nat)
    : (r: (Pointers, seq<int>))
    requires inputs > 0 && outputs > 0
  {
    if p.Fit(inputs, outputs) && AreLengths(lengths, inputs, outputs) then
      var m := AfterIterations(Unmatched(p.grant, p.accept), NonEmpty(lengths), iterations);
      (Pointers(m.grant, m.accept), m.inMatch)
    else (p, Fill(inputs, UNMATCHED))
  }

  function StepOf(iterations: nat, inputs: nat, outputs: nat): SchedulerStep<Pointers>
    requires inputs > 0 && outputs > 0
  {
    (p: Pointers, arrivals: seq<Pair>, lengths: seq<seq<int>>) => Decision(p, lengths, iterations, inputs, outputs)
  }

  /** Whatever the pointers and the lengths, the decision uses every output once at most. */
  lemma DecisionIsLegal(p: Pointers, lengths: seq<seq<int>>, iterations: nat, inputs: nat, outputs: nat)
    requires inputs > 0 && outputs > 0
    ensures var inMatch := Decision(p, lengths, iterations, inputs, outputs).1;
            IsMatchVector(inMatch, inputs, outputs) && IsPartialInjection(inMatch, outputs)
  {
  }

  lemma StepIsLegal(iterations: nat, inputs: nat, outputs: nat)
    requires inputs > 0 && outputs > 0
    ensures LegalScheduler(StepOf(iterations, inputs, outputs), inputs, outputs)
  {
    hide IsMatchVector, IsPartialInjection, Decision;
    var sched := StepOf(iterations, inputs, outputs);
    forall p: Pointers, arrivals: seq<Pair>, lengths: seq<seq<int>>
      ensures IsMatchVector(sched(p, arrivals, lengths).1, inputs, outputs)
      ensures IsPartialInjection(sched(p, arrivals, lengths).1, outputs)
    {
      DecisionIsLegal(p, lengths, iterations, inputs, outputs);
    }
  }

  function PointersOf(sys: Sys): Pointers {
    Pointers(sys.grant, sys.accept)
  }

  /** A slot of the simplified switch under this scheduler is a slot of the system of the liveness theorem. */
  lemma StepIsSlot(sys: Sys, iterations: nat, offered: seq<Packet>, inputs: nat, outputs: nat)
    requires sys.Valid() && |sys.accept| == inputs && |sys.grant| == outputs
    requires Matches(StepOf(iterations, inputs, outputs), inputs, outputs)
    ensures var slot := SimplifiedSlot(sys.lengths, PointersOf(sys), StepOf(iterations, inputs, outputs), offered,
                                       inputs, outputs);
            var next := ISlipLiveness.Slot(sys, Pairs(offered), iterations);
            slot.0 == next.lengths && slot.1 == PointersOf(next)
  {
    assert PointersOf(sys).Fit(inputs, outputs) && AreLengths(Loaded(sys, Pairs(offered)), inputs, outputs);
  }

  /**
   Both simulators from their constructors, under iSLIP and the same traffic: neither finds anything to object to,
   and the length samples of one are the delays the other records, up to what is left and the transmission delays.
   */
  method SimulateBoth(inputs: nat, outputs: nat, iterations: nat, delay: nat, p: Pointers,
      destinations: seq<seq<int>>)
    returns (generic: IQSwitchSimulator, simple: SimplifiedSimulator)
    requires inputs > 0 && outputs > 0 && p.Fit(inputs, outputs) && LegalTraffic(destinations, inputs, outputs)
    ensures generic.sw.delay == delay && simple.View() == SimplifiedLaw.LengthsOnly(generic.View())
    ensures simple.queueLengthSamples
            == generic.delaySamples + LittlesLaw.TotalAge(generic.sw.voq, generic.sw.timer)
               - generic.totalDepartures * delay
    ensures simple.stalledPackets == 0 ==>
      simple.queueLengthSamples == generic.delaySamples - generic.totalDepartures * delay
  {
    StepIsLegal(iterations, inputs, outputs);
    var packets := new GIQSwitch(inputs, outputs, delay, false);
    var lengths := new SIQSwitch(inputs, outputs);
    GridsEqual(lengths.queueLenMat, Fill(inputs, Fill(outputs, 0)));
    generic := new IQSwitchSimulator(packets);
    simple := new SimplifiedSimulator(lengths);
    var sched := StepOf(iterations, inputs, outputs);
    assert Matches(sched, inputs, outputs);
    hide LegalScheduler, Matches, MatchesOnce, StepOf;
    var outcome, x := generic.SimulateOn(destinations, p, sched);
    var outcome', x' := simple.SimulateOn(destinations, p, sched, 0, delay);
  }
}
