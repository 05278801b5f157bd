/** The simulation loop over either switch: arrivals, switching, departures and the statistics. */
module Simulator {
  import opened LittlesLaw
  import opened SimplifiedLaw
  import opened Sums
  import opened SwitchSpec
  import opened Voq
  import opened Switches

  const NO_PACKET := -1

  /** The packets injected in one slot: at most one per input, `NO_PACKET` where there is none. */
  function Injected(destinations: seq<int>, s: nat): seq<Packet>
    requires s < |destinations|
  {
    if destinations[s] == NO_PACKET then [] else [Packet(s, destinations[s], 0, 0)]
  }

  function InjectedChannels(destinations: seq<int>): (r: seq<seq<Packet>>)
    ensures |r| == |destinations| && forall s :: 0 <= s < |r| ==> r[s] == Injected(destinations, s)
  {
    seq(|destinations|, s requires 0 <= s < |destinations| => Injected(destinations, s))
  }

  ghost predicate LegalDestinations(destinations: seq<int>, inputs: nat, outputs: nat) {
    && |destinations| == inputs
    && forall s :: 0 <= s < inputs ==> destinations[s] == NO_PACKET || 0 <= destinations[s] < outputs
  }

  lemma {:induction false} OfferedInRange(channels: seq<seq<Packet>>, inputs: nat, outputs: nat)
    requires forall s :: 0 <= s < |channels| ==> InRange(Pairs(channels[s]), inputs, outputs)
    ensures InRange(Pairs(Offered(channels)), inputs, outputs)
  {
    if channels != [] {
      OfferedInRange(channels[1..], inputs, outputs);
      assert Pairs(Offered(channels)) == Pairs(channels[0]) + Pairs(Offered(channels[1..]));
    }
  }

  /** How many packets the inputs below `s` inject. */
  function InjectedBelow(destinations: seq<int>, s: nat): nat
    requires s <= |destinations|
  {
    if s == 0 then 0 else InjectedBelow(destinations, s - 1) + |Injected(destinations, s - 1)|
  }

  lemma {:induction false} OfferedConcat(a: seq<seq<Packet>>, b: seq<seq<Packet>>)
    ensures Offered(a + b) == Offered(a) + Offered(b)
  {
    if a == [] {
      assert a + b == b;
    } else {
      OfferedConcat(a[1..], b);
      assert (a + b)[1..] == a[1..] + b;
    }
  }

  lemma {:induction false} InjectedCount(destinations: seq<int>, s: nat)
    requires s <= |destinations|
    ensures |Offered(InjectedChannels(destinations)[..s])| == InjectedBelow(destinations, s)
  {
    var channels := InjectedChannels(destinations);
    if s > 0 {
      InjectedCount(destinations, s - 1);
      OfferedConcat(channels[..s - 1], [channels[s - 1]]);
      assert channels[..s] == channels[..s - 1] + [channels[s - 1]];
      assert Offered([channels[s - 1]]) == channels[s - 1] + Offered([channels[s - 1]][1..]);
    }
  }

  /** The delays and the number of packets in the channels below `d`. */
  lemma {:induction false} ChannelTotalsStep(out: seq<seq<Packet>>, d: nat)
    requires d < |out|
    ensures ChannelDelays(out[..d + 1]) == ChannelDelays(out[..d]) + Delays(out[d])
    ensures ChannelCount(out[..d + 1]) == ChannelCount(out[..d]) + |out[d]|
  {
    if d == 0 {
      assert out[..1] == [out[0]];
      assert out[..1][1..] == [] && out[..0] == [];
    } else {
      ChannelTotalsStep(out[1..], d - 1);
      assert out[..d + 1][1..] == out[1..][..d];
      assert out[..d][1..] == out[1..][..d - 1];
    }
  }

  /** Each injected packet goes to the input channel of its source. */
  method Inject(channels: seq<seq<Packet>>, destinations: seq<int>)
    returns (channels': seq<seq<Packet>>, numArrivals: nat)
    requires channels == Fill(|destinations|, [])
    ensures channels' == InjectedChannels(destinations) && numArrivals == |Offered(channels')|
  {
    channels', numArrivals := channels, 0;
    for s := 0 to |destinations|
      invariant |channels'| == |destinations| && numArrivals == InjectedBelow(destinations, s)
      invariant forall x :: 0 <= x < s ==> channels'[x] == Injected(destinations, x)
      invariant forall x :: s <= x < |destinations| ==> channels'[x] == []
    {
      if destinations[s] != NO_PACKET {
        channels' := channels'[s := channels'[s] + [Packet(s, destinations[s], 0, 0)]];
        numArrivals := numArrivals + 1;
      }
    }
    InjectedCount(destinations, |destinations|);
    assert channels' == InjectedChannels(destinations);
    assert channels'[..|destinations|] == channels';
  }

  // The checks before a simulation

  datatype Outcome = Simulated | NonEmptyQueues | NonEmptyInputChannels | NonEmptyOutputChannels

  method AnyQueued(lengths: seq<seq<int>>, inputs: nat, outputs: nat) returns (some: bool)
    requires IsGrid(lengths, inputs, outputs)
    ensures some <==> lengths != Fill(inputs, Fill(outputs, 0))
  {
    for s := 0 to inputs
      invariant forall x, y :: 0 <= x < s && 0 <= y < outputs ==> lengths[x][y] == 0
    {
      for d := 0 to outputs
        invariant forall y :: 0 <= y < d ==> lengths[s][y] == 0
      {
        if lengths[s][d] != 0 {
          return true;
        }
      }
    }
    GridsEqual(lengths, Fill(inputs, Fill(outputs, 0)));
    return false;
  }

  method AnyOnChannels(channels: seq<seq<Packet>>) returns (some: bool)
    ensures some <==> channels != Fill(|channels|, [])
  {
    for c := 0 to |channels|
      invariant forall x :: 0 <= x < c ==> channels[x] == []
    {
      if channels[c] != [] {
        return true;
      }
    }
    assert channels == Fill(|channels|, []);
    return false;
  }

  lemma NoLengthsNoPackets(voq: Queues, inputs: nat, outputs: nat)
    requires IsGrid(voq, inputs, outputs)
    ensures Lengths(voq) == Fill(inputs, Fill(outputs, 0)) <==> voq == Fill(inputs, Fill(outputs, []))
  {
    if Lengths(voq) == Fill(inputs, Fill(outputs, 0)) {
      forall s, d | 0 <= s < inputs && 0 <= d < outputs
        ensures voq[s][d] == []
      {
        assert Lengths(voq)[s][d] == 0;
      }
      GridsEqual(voq, Fill(inputs, Fill(outputs, [])));
    } else if voq == Fill(inputs, Fill(outputs, [])) {
      GridsEqual(Lengths(voq), Fill(inputs, Fill(outputs, 0)));
    }
  }

  // The decisions a simulation depends on

  /** A scheduler of the generic switch: whatever it sees, it uses an output once at most. */
  ghost predicate LegalScheduler<S(!new)>(sched: SchedulerStep<S>, inputs: nat, outputs: nat) {
    Matches(sched, inputs, outputs) && MatchesOnce(sched, outputs)
  }

  ghost predicate LegalTraffic(destinations: seq<seq<int>>, inputs: nat, outputs: nat) {
    forall t :: 0 <= t < |destinations| ==> LegalDestinations(destinations[t], inputs, outputs)
  }

  /** What arrives in every slot. */
  ghost function ArrivalsOf(destinations: seq<seq<int>>, inputs: nat, outputs: nat): (r: seq<seq<Packet>>)
    requires LegalTraffic(destinations, inputs, outputs)
    ensures |r| == |destinations| && AreArrivals(r, inputs, outputs)
    ensures forall t :: 0 <= t < |r| ==> r[t] == Offered(InjectedChannels(destinations[t]))
  {
    forall t | 0 <= t < |destinations|
      ensures InRange(Pairs(Offered(InjectedChannels(destinations[t]))), inputs, outputs)
    {
      OfferedInRange(InjectedChannels(destinations[t]), inputs, outputs);
    }
    seq(|destinations|, t requires 0 <= t < |destinations| => Offered(InjectedChannels(destinations[t])))
  }

  /** The generic switch's counters and the scheduler's state after the first `n` slots. */
  ghost function StateAfter<S(!new)>(arrivals: seq<seq<Packet>>, n: nat, x: S, sched: SchedulerStep<S>, start: nat,
      delay: nat, inputs: nat, outputs: nat): (r: (Counters, S))
    requires AreArrivals(arrivals, inputs, outputs) && Matches(sched, inputs, outputs) && n <= |arrivals|
    ensures IsGrid(r.0.voq, inputs, outputs)
  {
    var (run, y) := Scheduled(arrivals[..n], x, sched, start, delay, inputs, outputs);
    (After(run, start, delay, inputs, outputs), y)
  }

  lemma StateAfterStep<S(!new)>(arrivals: seq<seq<Packet>>, n: nat, x: S, sched: SchedulerStep<S>, start: nat,
      delay: nat, inputs: nat, outputs: nat)
    requires AreArrivals(arrivals, inputs, outputs) && Matches(sched, inputs, outputs) && n < |arrivals|
    ensures var (c, y) := StateAfter(arrivals, n, x, sched, start, delay, inputs, outputs);
            var (y', inMatch) := sched(y, Pairs(arrivals[n]),
                                       Lengths(Pushed(c.voq, arrivals[n], c.now, inputs, outputs)));
            StateAfter(arrivals, n + 1, x, sched, start, delay, inputs, outputs)
            == (Slot(c, arrivals[n], inMatch, delay, inputs, outputs), y')
  {
    hide Slot, Pushed, Lengths, Matches;
    assert arrivals[..n + 1][..n] == arrivals[..n] && arrivals[..n + 1][n] == arrivals[n];
    var run := Scheduled(arrivals[..n], x, sched, start, delay, inputs, outputs).0;
    var more := Scheduled(arrivals[..n + 1], x, sched, start, delay, inputs, outputs).0;
    assert more[..n] == run;
  }

  /** The same for the simplified switch. */
  ghost function LengthStateAfter<S(!new)>(arrivals: seq<seq<Packet>>, n: nat, x: S, sched: SchedulerStep<S>,
      inputs: nat, outputs: nat): (r: (LengthCounters, S))
    requires AreArrivals(arrivals, inputs, outputs) && Matches(sched, inputs, outputs) && n <= |arrivals|
    ensures IsGrid(r.0.lengths, inputs, outputs)
  {
    var (run, y) := SimplyScheduled(arrivals[..n], x, sched, inputs, outputs);
    (LengthsAfter(run, inputs, outputs), y)
  }

  lemma LengthStateAfterStep<S(!new)>(arrivals: seq<seq<Packet>>, n: nat, x: S, sched: SchedulerStep<S>, inputs: nat,
      outputs: nat)
    requires AreArrivals(arrivals, inputs, outputs) && Matches(sched, inputs, outputs) && n < |arrivals|
    ensures var (c, y) := LengthStateAfter(arrivals, n, x, sched, inputs, outputs);
            var (y', inMatch) := sched(y, Pairs(arrivals[n]), Enqueued(c.lengths, Pairs(arrivals[n])));
            LengthStateAfter(arrivals, n + 1, x, sched, inputs, outputs)
            == (LengthSlot(c, arrivals[n], inMatch, inputs, outputs), y')
  {
    hide LengthSlot, Enqueued, Matches;
    assert arrivals[..n + 1][..n] == arrivals[..n] && arrivals[..n + 1][n] == arrivals[n];
    var run := SimplyScheduled(arrivals[..n], x, sched, inputs, outputs).0;
    var more := SimplyScheduled(arrivals[..n + 1], x, sched, inputs, outputs).0;
    assert more[..n] == run;
  }

  /** The simulator of the generic switch. */
  class IQSwitchSimulator {
    const sw: GIQSwitch
    var stalledPackets: int
    var totalArrivals: nat
    var totalDepartures: nat
    var queueLengthSamples: int
    var delaySamples: int

    /** The state between two slots. */
    ghost predicate Valid()
      reads this, sw
    {
      && sw.Valid() && sw.channelInstalled && sw.numInputs > 0
      && sw.inputChannel == Fill(sw.numInputs, []) && sw.outputChannel == Fill(sw.numOutputs, [])
    }

    ghost function View(): Counters
      reads this, sw
    {
      Counters(sw.voq, sw.timer, stalledPackets, totalArrivals, totalDepartures, queueLengthSamples, delaySamples)
    }

    constructor (sw: GIQSwitch)
      ensures this.sw == sw && stalledPackets == totalArrivals == totalDepartures == 0
      ensures queueLengthSamples == delaySamples == 0
    {
      this.sw := sw;
      stalledPackets, totalArrivals, totalDepartures, queueLengthSamples, delaySamples := 0, 0, 0, 0, 0;
    }

    /** Each injected packet goes to the input channel of its source. */
    method Arriving(destinations: seq<int>) returns (numArrivals: nat)
      requires Valid() && LegalDestinations(destinations, sw.numInputs, sw.numOutputs)
      modifies sw`inputChannel
      ensures sw.inputChannel == InjectedChannels(destinations)
      ensures forall s :: 0 <= s < sw.numInputs ==>
        sw.inputChannel[s] == if destinations[s] == NO_PACKET then [] else [Packet(s, destinations[s], 0, 0)]
      ensures numArrivals == |Offered(sw.inputChannel)|
    {
      var channels;
      channels, numArrivals := Inject(sw.inputChannel, destinations);
      sw.inputChannel := channels;
    }

    /** Every output channel holds one packet at most; its delay is recorded. */
    method Departing() returns (numDepartures: nat)
      requires |sw.outputChannel| == sw.numOutputs
      requires forall d :: 0 <= d < sw.numOutputs ==> |sw.outputChannel[d]| <= 1
      modifies this`delaySamples, sw`outputChannel
      ensures numDepartures == ChannelCount(old(sw.outputChannel))
      ensures delaySamples == old(delaySamples) + ChannelDelays(old(sw.outputChannel))
      ensures sw.outputChannel == Fill(sw.numOutputs, [])
    {
      numDepartures := 0;
      ghost var out := sw.outputChannel;
      for d := 0 to sw.numOutputs
        invariant |sw.outputChannel| == sw.numOutputs
        invariant forall x :: 0 <= x < d ==> sw.outputChannel[x] == []
        invariant forall x :: d <= x < sw.numOutputs ==> sw.outputChannel[x] == out[x]
        invariant numDepartures == ChannelCount(out[..d])
        invariant delaySamples == old(delaySamples) + ChannelDelays(out[..d])
      {
        ChannelTotalsStep(out, d);
        assert |sw.outputChannel[d]| <= 1;
        if sw.outputChannel[d] != [] {
          var pkt := sw.outputChannel[d][0];
          sw.outputChannel := sw.outputChannel[d := sw.outputChannel[d][1..]];
          delaySamples := delaySamples + pkt.departureTime - pkt.arrivalTime;
          assert out[d] == [pkt];
          numDepartures := numDepartures + 1;
        }
      }
      assert out[..sw.numOutputs] == out;
      assert sw.outputChannel == Fill(sw.numOutputs, []);
    }

    /** A switching cycle from empty output channels leaves one packet at most on each of them. */
    method Switching<S(!new)>(x: S, sched: SchedulerStep<S>) returns (x': S, ghost inMatch: seq<int>)
      requires sw.Valid() && sw.channelInstalled && sw.numInputs > 0 && sw.outputChannel == Fill(sw.numOutputs, [])
      requires LegalScheduler(sched, sw.numInputs, sw.numOutputs)
      requires InRange(Pairs(Offered(sw.inputChannel)), sw.numInputs, sw.numOutputs)
      modifies sw
      ensures sw.Valid() && sw.channelInstalled && sw.inputChannel == Fill(sw.numInputs, [])
      ensures sw.timer == old(sw.timer) + 1 && IsMatchVector(inMatch, sw.numInputs, sw.numOutputs)
      ensures var offered := Offered(old(sw.inputChannel));
              && (x', inMatch) == sched(x, Pairs(offered), Lengths(Pushed(old(sw.voq), offered, old(sw.timer),
                                                                           sw.numInputs, sw.numOutputs)))
              && sw.Inside() == Switched(old(sw.Inside()), old(sw.timer), offered, inMatch, sw.delay, sw.numInputs,
                                         sw.numOutputs)
      ensures forall d :: 0 <= d < sw.numOutputs ==> |sw.outputChannel[d]| <= 1
    {
      ghost var loaded := ReadIn(sw.Inside(), sw.timer, Offered(sw.inputChannel), sw.numInputs, sw.numOutputs);
      hide Offered, Live, Sorted, SentPairs, InRange;
      ghost var now := sw.timer;
      var m;
      x', m := sw.Switching(x, sched);
      inMatch := m;
      OnePacketPerChannel(loaded, inMatch, now + sw.delay, sw.numInputs, sw.numInputs, sw.numOutputs);
    }

    /** One pass of the simulation loop. */
    method SimulateSlot<S(!new)>(destinations: seq<int>, x: S, sched: SchedulerStep<S>)
      returns (x': S, ghost inMatch: seq<int>)
      requires Valid() && LegalDestinations(destinations, sw.numInputs, sw.numOutputs)
      requires LegalScheduler(sched, sw.numInputs, sw.numOutputs)
      modifies this, sw
      ensures Valid() && InRange(Pairs(Offered(InjectedChannels(destinations))), sw.numInputs, sw.numOutputs)
      ensures var offered := Offered(InjectedChannels(destinations));
              && (x', inMatch) == sched(x, Pairs(offered), Lengths(Pushed(old(sw.voq), offered, old(sw.timer),
                                                                           sw.numInputs, sw.numOutputs)))
              && IsMatchVector(inMatch, sw.numInputs, sw.numOutputs)
              && View() == Slot(old(View()), offered, inMatch, sw.delay, sw.numInputs, sw.numOutputs)
    {
      ghost var c := View();
      OfferedInRange(InjectedChannels(destinations), sw.numInputs, sw.numOutputs);
      hide Offered, Sorted, ChannelCount, ChannelDelays, InRange, LegalScheduler, Switched, Pushed;
      var numArrivals := Arriving(destinations);
      ghost var offered := Offered(sw.inputChannel);
      x', inMatch := Switching(x, sched);
      ghost var sent := sw.Inside();
      var numDepartures := Departing();
      Account(numArrivals, numDepartures);
      assert View() == Counted(c, |offered|, sent);
    }

    /** The counter updates of the loop body. */
    method Account(numArrivals: nat, numDepartures: nat)
      modifies this`stalledPackets, this`totalArrivals, this`totalDepartures, this`queueLengthSamples
      ensures stalledPackets == old(stalledPackets) + numArrivals - numDepartures
      ensures totalArrivals == old(totalArrivals) + numArrivals
      ensures totalDepartures == old(totalDepartures) + numDepartures
      ensures queueLengthSamples == old(queueLengthSamples) + stalledPackets
    {
      stalledPackets := stalledPackets + numArrivals;
      totalArrivals := totalArrivals + numArrivals;
      stalledPackets := stalledPackets - numDepartures;
      totalDepartures := totalDepartures + numDepartures;
      queueLengthSamples := queueLengthSamples + stalledPackets;
    }

    /** Queues and channels must be empty before a simulation. */
    method CheckEmpty() returns (outcome: Outcome)
      requires sw.Valid()
      ensures outcome == if sw.voq != Fill(sw.numInputs, Fill(sw.numOutputs, [])) then NonEmptyQueues
                         else if sw.inputChannel != Fill(sw.numInputs, []) then NonEmptyInputChannels
                         else if sw.outputChannel != Fill(sw.numOutputs, []) then NonEmptyOutputChannels
                         else Simulated
    {
      NoLengthsNoPackets(sw.voq, sw.numInputs, sw.numOutputs);
      var some := AnyQueued(Lengths(sw.voq), sw.numInputs, sw.numOutputs);
      if some {
        return NonEmptyQueues;
      }
      some := AnyOnChannels(sw.inputChannel);
      if some {
        return NonEmptyInputChannels;
      }
      some := AnyOnChannels(sw.outputChannel);
      return if some then NonEmptyOutputChannels else Simulated;
    }

    /**
     The simulation loop, for as many slots as the stopping rule allows, once the queues and channels have
     been found empty.
     */
    method SimulateOn<S(!new)>(destinations: seq<seq<int>>, x: S, sched: SchedulerStep<S>)
      returns (outcome: Outcome, x': S)
      requires sw.Valid() && sw.channelInstalled && sw.numInputs > 0
      requires totalArrivals == totalDepartures == 0 && queueLengthSamples == delaySamples == 0
      requires LegalTraffic(destinations, sw.numInputs, sw.numOutputs)
      requires LegalScheduler(sched, sw.numInputs, sw.numOutputs)
      modifies this, sw
      ensures outcome.NonEmptyQueues? <==> old(sw.voq) != Fill(sw.numInputs, Fill(sw.numOutputs, []))
      ensures outcome.Simulated? <==>
        && old(sw.voq) == Fill(sw.numInputs, Fill(sw.numOutputs, []))
        && old(sw.inputChannel) == Fill(sw.numInputs, []) && old(sw.outputChannel) == Fill(sw.numOutputs, [])
      ensures !outcome.Simulated? ==> unchanged(this, sw)
      ensures outcome.Simulated? ==>
        && Valid()
        && (View(), x') == StateAfter(ArrivalsOf(destinations, sw.numInputs, sw.numOutputs), |destinations|, x, sched,
                                      old(sw.timer), sw.delay, sw.numInputs, sw.numOutputs)
        && stalledPackets == Queued(sw.voq) == totalArrivals - totalDepartures
        && queueLengthSamples == delaySamples + TotalAge(sw.voq, sw.timer) - totalDepartures * sw.delay
    {
      x' := x;
      outcome := CheckEmpty();
      if outcome.Simulated? {
        stalledPackets := 0;
        x' := Loop(destinations, x, sched);
      }
    }

    /** The loop itself. */
    method Loop<S(!new)>(destinations: seq<seq<int>>, x: S, sched: SchedulerStep<S>) returns (x': S)
      requires Valid() && View() == Counters(Fill(sw.numInputs, Fill(sw.numOutputs, [])), sw.timer, 0, 0, 0, 0, 0)
      requires LegalTraffic(destinations, sw.numInputs, sw.numOutputs)
      requires LegalScheduler(sched, sw.numInputs, sw.numOutputs)
      modifies this, sw
      ensures Valid()
      ensures (View(), x') == StateAfter(ArrivalsOf(destinations, sw.numInputs, sw.numOutputs), |destinations|, x,
                                         sched, old(sw.timer), sw.delay, sw.numInputs, sw.numOutputs)
      ensures stalledPackets == Queued(sw.voq) == totalArrivals - totalDepartures
      ensures queueLengthSamples == delaySamples + TotalAge(sw.voq, sw.timer) - totalDepartures * sw.delay
    {
      ghost var start, arrivals := sw.timer, ArrivalsOf(destinations, sw.numInputs, sw.numOutputs);
      x' := x;
      hide Slot, Pushed, Lengths, Matches, MatchesOnce;
      for n := 0 to |destinations|
        invariant Valid()
        invariant (View(), x') == StateAfter(arrivals, n, x, sched, start, sw.delay, sw.numInputs, sw.numOutputs)
      {
        StateAfterStep(arrivals, n, x, sched, start, sw.delay, sw.numInputs, sw.numOutputs);
        ghost var inMatch;
        x', inMatch := SimulateSlot(destinations[n], x', sched);
      }
      ghost var run := Scheduled(arrivals[..|destinations|], x, sched, start, sw.delay, sw.numInputs, sw.numOutputs).0;
      LittlesLawHolds(run, start, sw.delay, sw.numInputs, sw.numOutputs);
      RunsStayBalanced(run, start, sw.delay, sw.numInputs, sw.numOutputs);
    }
  }

  /** The simulator of the simplified switch, which has no delays to record. */
  class SimplifiedSimulator {
    const sw: SIQSwitch
    var stalledPackets: int
    var totalArrivals: nat
    var totalDepartures: nat
    var queueLengthSamples: int

    /** The state between two slots. */
    ghost predicate Valid()
      reads this, sw
    {
      sw.Valid() && sw.channelInstalled && sw.inputChannel == Fill(sw.numInputs, [])
    }

    ghost function View(): LengthCounters
      reads this, sw
    {
      LengthCounters(sw.queueLenMat, stalledPackets, totalArrivals, totalDepartures, queueLengthSamples)
    }

    constructor (sw: SIQSwitch)
      ensures this.sw == sw && stalledPackets == totalArrivals == totalDepartures == queueLengthSamples == 0
    {
      this.sw := sw;
      stalledPackets, totalArrivals, totalDepartures, queueLengthSamples := 0, 0, 0, 0;
    }

    method Arriving(destinations: seq<int>) returns (numArrivals: nat)
      requires Valid() && LegalDestinations(destinations, sw.numInputs, sw.numOutputs)
      modifies sw`inputChannel
      ensures sw.inputChannel == InjectedChannels(destinations)
      ensures forall s :: 0 <= s < sw.numInputs ==>
        sw.inputChannel[s] == if destinations[s] == NO_PACKET then [] else [Packet(s, destinations[s], 0, 0)]
      ensures numArrivals == |Offered(sw.inputChannel)|
    {
      var channels;
      channels, numArrivals := Inject(sw.inputChannel, destinations);
      sw.inputChannel := channels;
    }

    /** Counts the departures listed before the sentinel. */
    method Departing() returns (numDepartures: nat)
      ensures numDepartures == |Live(sw.departures)|
    {
      numDepartures := 0;
      LiveAt(sw.departures, 0);
      while numDepartures < |sw.departures| && sw.departures[numDepartures].0 != SENTINEL
        invariant numDepartures <= |Live(sw.departures)| <= |sw.departures|
      {
        LiveAt(sw.departures, numDepartures);
        numDepartures := numDepartures + 1;
      }
      LiveAt(sw.departures, numDepartures);
    }

    /** A switching cycle takes the listed departures from the loaded queues. */
    method Switching<S(!new)>(x: S, sched: SchedulerStep<S>) returns (x': S, ghost inMatch: seq<int>)
      requires sw.Valid() && sw.channelInstalled && Matches(sched, sw.numInputs, sw.numOutputs)
      requires InRange(Pairs(Offered(sw.inputChannel)), sw.numInputs, sw.numOutputs)
      modifies sw
      ensures sw.Valid() && sw.channelInstalled && sw.inputChannel == Fill(sw.numInputs, [])
      ensures IsMatchVector(inMatch, sw.numInputs, sw.numOutputs)
      ensures var offered := Pairs(Offered(old(sw.inputChannel)));
              var loaded := Enqueued(old(sw.queueLenMat), offered);
              && (x', inMatch) == sched(x, offered, loaded) && sw.queueLenMat == Departed(loaded, inMatch)
              && Live(sw.departures) == DepartedPairs(loaded, inMatch, sw.numInputs)
    {
      var m;
      x', m := sw.Switching(x, sched);
      inMatch := m;
    }

    /** One pass of the simulation loop. */
    method SimulateSlot<S(!new)>(destinations: seq<int>, x: S, sched: SchedulerStep<S>)
      returns (x': S, ghost inMatch: seq<int>)
      requires Valid() && LegalDestinations(destinations, sw.numInputs, sw.numOutputs)
      requires Matches(sched, sw.numInputs, sw.numOutputs)
      modifies this, sw
      ensures Valid() && IsGrid(old(sw.queueLenMat), sw.numInputs, sw.numOutputs)
      ensures var offered := Offered(InjectedChannels(destinations));
              && (x', inMatch) == sched(x, Pairs(offered), Enqueued(old(sw.queueLenMat), Pairs(offered)))
              && IsMatchVector(inMatch, sw.numInputs, sw.numOutputs)
              && View() == LengthSlot(old(View()), offered, inMatch, sw.numInputs, sw.numOutputs)
    {
      OfferedInRange(InjectedChannels(destinations), sw.numInputs, sw.numOutputs);
      var numArrivals := Arriving(destinations);
      hide Offered, Live, InRange, Departed, DepartedPairs, Enqueued, Matches;
      x', inMatch := Switching(x, sched);
      var numDepartures := Departing();
      Account(numArrivals, numDepartures);
    }

    /** The counter updates of the loop body. */
    method Account(numArrivals: nat, numDepartures: nat)
      modifies this`stalledPackets, this`totalArrivals, this`totalDepartures, this`queueLengthSamples
      ensures stalledPackets == old(stalledPackets) + numArrivals - numDepartures
      ensures totalArrivals == old(totalArrivals) + numArrivals
      ensures totalDepartures == old(totalDepartures) + numDepartures
      ensures queueLengthSamples == old(queueLengthSamples) + stalledPackets
    {
      stalledPackets := stalledPackets + numArrivals;
      totalArrivals := totalArrivals + numArrivals;
      stalledPackets := stalledPackets - numDepartures;
      totalDepartures := totalDepartures + numDepartures;
      queueLengthSamples := queueLengthSamples + stalledPackets;
    }

    /** Queues and channels must be empty before a simulation. */
    method CheckEmpty() returns (outcome: Outcome)
      requires sw.Valid()
      ensures outcome == if sw.queueLenMat != Fill(sw.numInputs, Fill(sw.numOutputs, 0)) then NonEmptyQueues
                         else if sw.inputChannel != Fill(sw.numInputs, []) then NonEmptyInputChannels
                         else if sw.outputChannel != Fill(sw.numOutputs, []) then NonEmptyOutputChannels
                         else Simulated
    {
      var some := AnyQueued(sw.queueLenMat, sw.numInputs, sw.numOutputs);
      if some {
        return NonEmptyQueues;
      }
      some := AnyOnChannels(sw.inputChannel);
      if some {
        return NonEmptyInputChannels;
      }
      some := AnyOnChannels(sw.outputChannel);
      return if some then NonEmptyOutputChannels else Simulated;
    }

    /**
     The simulation: its length samples are the delays that the generic switch with any transmission delay
     would have recorded, up to the packets still queued and the transmission delays.
     */
    method SimulateOn<S(!new)>(destinations: seq<seq<int>>, x: S, sched: SchedulerStep<S>, ghost start: nat,
        ghost delay: nat)
      returns (outcome: Outcome, x': S)
      requires sw.Valid() && sw.channelInstalled
      requires totalArrivals == totalDepartures == 0 && queueLengthSamples == 0
      requires LegalTraffic(destinations, sw.numInputs, sw.numOutputs)
      requires Matches(sched, sw.numInputs, sw.numOutputs)
      modifies this, sw
      ensures outcome.NonEmptyQueues? <==> old(sw.queueLenMat) != Fill(sw.numInputs, Fill(sw.numOutputs, 0))
      ensures outcome.Simulated? <==>
        && old(sw.queueLenMat) == Fill(sw.numInputs, Fill(sw.numOutputs, 0))
        && old(sw.inputChannel) == Fill(sw.numInputs, []) && old(sw.outputChannel) == Fill(sw.numOutputs, [])
      ensures !outcome.Simulated? ==> unchanged(this, sw)
      ensures outcome.Simulated? ==>
        var generic := StateAfter(ArrivalsOf(destinations, sw.numInputs, sw.numOutputs), |destinations|, x, sched,
                                  start, delay, sw.numInputs, sw.numOutputs);
        && Valid() && (View(), x') == (LengthsOnly(generic.0), generic.1)
        && queueLengthSamples
           == generic.0.delaySamples + TotalAge(generic.0.voq, generic.0.now) - totalDepartures * delay
        && (stalledPackets == 0 ==> queueLengthSamples == generic.0.delaySamples - totalDepartures * delay)
    {
      x' := x;
      outcome := CheckEmpty();
      if outcome.Simulated? {
        stalledPackets := 0;
        x' := Loop(destinations, x, sched);
        LengthStateIsGeneric(ArrivalsOf(destinations, sw.numInputs, sw.numOutputs), x, sched, start, delay,
                             sw.numInputs, sw.numOutputs);
      }
    }

    /** The loop itself. */
    method Loop<S(!new)>(destinations: seq<seq<int>>, x: S, sched: SchedulerStep<S>) returns (x': S)
      requires Valid() && View() == LengthCounters(Fill(sw.numInputs, Fill(sw.numOutputs, 0)), 0, 0, 0, 0)
      requires LegalTraffic(destinations, sw.numInputs, sw.numOutputs)
      requires Matches(sched, sw.numInputs, sw.numOutputs)
      modifies this, sw
      ensures Valid()
      ensures (View(), x') == LengthStateAfter(ArrivalsOf(destinations, sw.numInputs, sw.numOutputs), |destinations|,
                                               x, sched, sw.numInputs, sw.numOutputs)
    {
      ghost var arrivals := ArrivalsOf(destinations, sw.numInputs, sw.numOutputs);
      x' := x;
      hide LengthSlot, Enqueued, Matches;
      for n := 0 to |destinations|
        invariant Valid()
        invariant (View(), x') == LengthStateAfter(arrivals, n, x, sched, sw.numInputs, sw.numOutputs)
      {
        LengthStateAfterStep(arrivals, n, x, sched, sw.numInputs, sw.numOutputs);
        ghost var inMatch;
        x', inMatch := SimulateSlot(destinations[n], x', sched);
      }
    }
  }

  lemma LengthStateIsGeneric<S(!new)>(arrivals: seq<seq<Packet>>, x: S, sched: SchedulerStep<S>, start: nat, delay: nat,
      inputs: nat, outputs: nat)
    requires AreArrivals(arrivals, inputs, outputs) && Matches(sched, inputs, outputs)
    ensures var simple := LengthStateAfter(arrivals, |arrivals|, x, sched, inputs, outputs);
            var generic := StateAfter(arrivals, |arrivals|, x, sched, start, delay, inputs, outputs);
            && simple == (LengthsOnly(generic.0), generic.1)
            && simple.0.stalled == simple.0.arrivals - simple.0.departures
            && simple.0.lengthSamples
               == generic.0.delaySamples + TotalAge(generic.0.voq, generic.0.now) - simple.0.departures * delay
            && (simple.0.stalled == 0 ==>
                  simple.0.lengthSamples == generic.0.delaySamples - simple.0.departures * delay)
  {
    assert arrivals[..|arrivals|] == arrivals;
    var run := Scheduled(arrivals, x, sched, start, delay, inputs, outputs).0;
    SameDecisions(arrivals, x, sched, start, delay, inputs, outputs);
    SameCounters(run, start, delay, inputs, outputs);
    RunsStayBalanced(run, start, delay, inputs, outputs);
    SimplifiedLittlesLaw(arrivals, x, sched, start, delay, inputs, outputs);
  }
}
