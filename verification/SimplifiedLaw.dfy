/**
 Little's law for the simplified switch. It keeps no packets, so it knows no delays; still its queue length
 samples sum to exactly the delays that the generic switch records under the same scheduler and arrivals.
 */
module SimplifiedLaw {
  import opened LittlesLaw
  import opened Matchings
  import opened Sums
  import opened SwitchSpec
  import opened Voq

  /** The simplified switch with the simulator's counters between two slots. */
  datatype LengthCounters = LengthCounters(lengths: seq<seq<int>>, stalled: int, arrivals: nat, departures: nat,
                                           lengthSamples: int)

  ghost function LengthsOnly(c: Counters): LengthCounters {
    LengthCounters(Lengths(c.voq), c.stalled, c.arrivals, c.departures, c.lengthSamples)
  }

  /** The counters once `arrivals` packets have arrived and `left` have left. */
  function CountedLengths(c: LengthCounters, arrivals: nat, left: nat, lengths: seq<seq<int>>): LengthCounters {
    LengthCounters(lengths, c.stalled + arrivals - left, c.arrivals + arrivals, c.departures + left,
                   c.lengthSamples + c.stalled + arrivals - left)
  }

  /** One slot of the simplified switch. */
  ghost function LengthSlot(c: LengthCounters, offered: seq<Packet>, inMatch: seq<int>, inputs: nat,
      outputs: nat): (r: LengthCounters)
    requires IsGrid(c.lengths, inputs, outputs) && IsMatchVector(inMatch, inputs, outputs)
    ensures IsGrid(r.lengths, inputs, outputs)
  {
    var loaded := Enqueued(c.lengths, Pairs(offered));
    CountedLengths(c, |offered|, |DepartedPairs(loaded, inMatch, inputs)|, Departed(loaded, inMatch))
  }

  /** As many packets are sent as departures are listed. */
  lemma {:induction false} SentCount(plant: Plant, inMatch: seq<int>, stamp: nat, k: nat, inputs: nat, outputs: nat)
    requires plant.Valid(inputs, outputs) && IsMatchVector(inMatch, inputs, outputs) && k <= inputs
    ensures ChannelCount(SentBelow(plant, inMatch, stamp, k, inputs, outputs).out)
            == ChannelCount(plant.out) + |DepartedPairs(Lengths(plant.voq), inMatch, k)|
  {
    if k > 0 {
      SentCount(plant, inMatch, stamp, k - 1, inputs, outputs);
      var p, d := SentBelow(plant, inMatch, stamp, k - 1, inputs, outputs), inMatch[k - 1];
      assert p.voq[k - 1] == plant.voq[k - 1];
      if d != UNMATCHED && p.voq[k - 1][d] != [] {
        ChannelChanges(p.out, d, p.voq[k - 1][d][0].(departureTime := stamp));
      }
    }
  }

  lemma SwitchedLengths(voq: Queues, now: nat, offered: seq<Packet>, inMatch: seq<int>, delay: nat, inputs: nat,
      outputs: nat)
    requires IsGrid(voq, inputs, outputs) && InRange(Pairs(offered), inputs, outputs)
    requires IsMatchVector(inMatch, inputs, outputs)
    ensures var sent := Switched(Plant(voq, Fill(outputs, [])), now, offered, inMatch, delay, inputs, outputs);
            var loaded := Enqueued(Lengths(voq), Pairs(offered));
            Lengths(sent.voq) == Departed(loaded, inMatch)
            && ChannelCount(sent.out) == |DepartedPairs(loaded, inMatch, inputs)|
  {
    var plant := ReadIn(Plant(voq, Fill(outputs, [])), now, offered, inputs, outputs);
    LengthsPushed(voq, offered, now, inputs, outputs);
    LengthsSent(plant, inMatch, now + delay, inputs, outputs);
    SentCount(plant, inMatch, now + delay, inputs, inputs, outputs);
    EmptyChannels(plant.out);
    hide SentBelow, Lengths, Departed, DepartedPairs, Enqueued, Pushed, ChannelCount, Pairs;
  }

  /** A slot of the generic switch is one of the simplified switch, but for the delays. */
  lemma SlotLengths(c: Counters, offered: seq<Packet>, inMatch: seq<int>, delay: nat, inputs: nat, outputs: nat)
    requires IsGrid(c.voq, inputs, outputs) && InRange(Pairs(offered), inputs, outputs)
    requires IsMatchVector(inMatch, inputs, outputs)
    ensures LengthsOnly(Slot(c, offered, inMatch, delay, inputs, outputs))
            == LengthSlot(LengthsOnly(c), offered, inMatch, inputs, outputs)
  {
    SwitchedLengths(c.voq, c.now, offered, inMatch, delay, inputs, outputs);
    hide Switched, Lengths, Departed, DepartedPairs, Enqueued, ChannelCount, ChannelDelays, Pairs, InRange;
  }

  /** The counters after the first slots of a run from an empty switch. */
  ghost function LengthsAfter(run: seq<Input>, inputs: nat, outputs: nat): (r: LengthCounters)
    requires LegalRun(run, inputs, outputs)
    ensures IsGrid(r.lengths, inputs, outputs)
    decreases |run|
  {
    if run == [] then LengthCounters(Fill(inputs, Fill(outputs, 0)), 0, 0, 0, 0)
    else
      var last := run[|run| - 1];
      LengthSlot(LengthsAfter(run[..|run| - 1], inputs, outputs), last.offered, last.inMatch, inputs, outputs)
  }

  lemma {:induction false} SameCounters(run: seq<Input>, start: nat, delay: nat, inputs: nat, outputs: nat)
    requires LegalRun(run, inputs, outputs)
    ensures LengthsAfter(run, inputs, outputs) == LengthsOnly(After(run, start, delay, inputs, outputs))
    decreases |run|
  {
    if run == [] {
      GridsEqual(Lengths(Fill(inputs, Fill(outputs, []))), Fill(inputs, Fill(outputs, 0)));
    } else {
      var k := |run| - 1;
      SameCounters(run[..k], start, delay, inputs, outputs);
      SlotLengths(After(run[..k], start, delay, inputs, outputs), run[k].offered, run[k].inMatch, delay, inputs,
                  outputs);
    }
  }

  // What a scheduler decides in a run

  ghost predicate AreArrivals(arrivals: seq<seq<Packet>>, inputs: nat, outputs: nat) {
    forall t :: 0 <= t < |arrivals| ==> InRange(Pairs(arrivals[t]), inputs, outputs)
  }

  /** The run in which a scheduler decides from what the generic switch shows it. */
  ghost function Scheduled<S(!new)>(arrivals: seq<seq<Packet>>, x: S, sched: SchedulerStep<S>, start: nat, delay: nat,
      inputs: nat, outputs: nat): (r: (seq<Input>, S))
    requires AreArrivals(arrivals, inputs, outputs) && Matches(sched, inputs, outputs)
    ensures |r.0| == |arrivals| && LegalRun(r.0, inputs, outputs)
    decreases |arrivals|
  {
    if arrivals == [] then ([], x)
    else
      var k := |arrivals| - 1;
      var (run, y) := Scheduled(arrivals[..k], x, sched, start, delay, inputs, outputs);
      var c := After(run, start, delay, inputs, outputs);
      var (y', inMatch) := sched(y, Pairs(arrivals[k]), Lengths(Pushed(c.voq, arrivals[k], c.now, inputs, outputs)));
      (run + [Input(arrivals[k], inMatch)], y')
  }

  /** The run in which it decides from what the simplified switch shows it. */
  ghost function SimplyScheduled<S(!new)>(arrivals: seq<seq<Packet>>, x: S, sched: SchedulerStep<S>, inputs: nat,
      outputs: nat): (r: (seq<Input>, S))
    requires AreArrivals(arrivals, inputs, outputs) && Matches(sched, inputs, outputs)
    ensures |r.0| == |arrivals| && LegalRun(r.0, inputs, outputs)
    decreases |arrivals|
  {
    if arrivals == [] then ([], x)
    else
      var k := |arrivals| - 1;
      var (run, y) := SimplyScheduled(arrivals[..k], x, sched, inputs, outputs);
      var (y', inMatch) := sched(y, Pairs(arrivals[k]),
                                 Enqueued(LengthsAfter(run, inputs, outputs).lengths, Pairs(arrivals[k])));
      (run + [Input(arrivals[k], inMatch)], y')
  }

  /** It decides the same in both. */
  lemma {:induction false} SameDecisions<S(!new)>(arrivals: seq<seq<Packet>>, x: S, sched: SchedulerStep<S>, start: nat,
      delay: nat, inputs: nat, outputs: nat)
    requires AreArrivals(arrivals, inputs, outputs) && Matches(sched, inputs, outputs)
    ensures SimplyScheduled(arrivals, x, sched, inputs, outputs)
            == Scheduled(arrivals, x, sched, start, delay, inputs, outputs)
    decreases |arrivals|
  {
    if arrivals != [] {
      var k := |arrivals| - 1;
      SameDecisions(arrivals[..k], x, sched, start, delay, inputs, outputs);
      var run := Scheduled(arrivals[..k], x, sched, start, delay, inputs, outputs).0;
      var c := After(run, start, delay, inputs, outputs);
      SameCounters(run, start, delay, inputs, outputs);
      LengthsPushed(c.voq, arrivals[k], c.now, inputs, outputs);
    }
  }

  lemma {:induction false} EmptyQueuesHaveNoAge(voq: Queues, now: int)
    ensures Queued(voq) >= 0
    ensures Queued(voq) == 0 ==> TotalAge(voq, now) == 0
  {
    if voq != [] {
      EmptyQueuesHaveNoAge(voq[1..], now);
      assert Lengths(voq)[1..] == Lengths(voq[1..]) && Ages(voq, now)[1..] == Ages(voq[1..], now);
      EmptyRowHasNoAge(voq[0], now);
      assert Lengths(voq)[0] == RowLengths(voq[0]);
    }
  }

  function RowLengths(row: seq<seq<Packet>>): seq<int> {
    seq(|row|, d requires 0 <= d < |row| => |row[d]|)
  }

  lemma {:induction false} EmptyRowHasNoAge(row: seq<seq<Packet>>, now: int)
    ensures Sum(RowLengths(row)) >= 0
    ensures Sum(RowLengths(row)) == 0 ==> Sum(RowAges(row, now)) == 0
  {
    if row != [] {
      EmptyRowHasNoAge(row[1..], now);
      assert RowLengths(row)[1..] == RowLengths(row[1..]) && RowAges(row, now)[1..] == RowAges(row[1..], now);
    }
  }

  /**
   Little's law for the simplified switch: on every run of every scheduler its queue length samples sum to the
   delays the generic switch records, plus the ages of the packets it still holds, less the transmission delays;
   when nothing is left, to the delays less the transmission delays.
   */
  lemma SimplifiedLittlesLaw<S(!new)>(arrivals: seq<seq<Packet>>, x: S, sched: SchedulerStep<S>, start: nat, delay: nat,
      inputs: nat, outputs: nat)
    requires AreArrivals(arrivals, inputs, outputs) && Matches(sched, inputs, outputs)
    ensures var simple := LengthsAfter(SimplyScheduled(arrivals, x, sched, inputs, outputs).0, inputs, outputs);
            var generic := After(Scheduled(arrivals, x, sched, start, delay, inputs, outputs).0, start, delay, inputs,
                                 outputs);
            && simple.lengths == Lengths(generic.voq)
            && simple.arrivals == generic.arrivals && simple.departures == generic.departures
            && simple.lengthSamples
               == generic.delaySamples + TotalAge(generic.voq, generic.now) - generic.departures * delay
            && (simple.arrivals == simple.departures ==>
                  simple.lengthSamples == generic.delaySamples - simple.departures * delay)
  {
    var run := Scheduled(arrivals, x, sched, start, delay, inputs, outputs).0;
    SameDecisions(arrivals, x, sched, start, delay, inputs, outputs);
    SameCounters(run, start, delay, inputs, outputs);
    LittlesLawHolds(run, start, delay, inputs, outputs);
    EmptyQueuesHaveNoAge(After(run, start, delay, inputs, outputs).voq, After(run, start, delay, inputs, outputs).now);
  }
}
