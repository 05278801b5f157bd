/**
 The simulator's counters over a run of the generic switch. Every packet adds one to the queue
 length sample of each slot it waits through, and that is exactly the delay recorded when it
 leaves: the sums satisfy Little's law on every run, not just on average.
 */
module LittlesLaw {
  import opened Matchings
  import opened Sums
  import opened SwitchSpec
  import opened Voq

  /** The waiting time so far of the packets of one queue. */
  function Age(queue: seq<Packet>, now: int): int {
    if queue == [] then 0 else (now - queue[0].arrivalTime) + Age(queue[1..], now)
  }

  function RowAges(row: seq<seq<Packet>>, now: int): (r: seq<int>)
    ensures |r| == |row| && forall d :: 0 <= d < |r| ==> r[d] == Age(row[d], now)
  {
    seq(|row|, d requires 0 <= d < |row| => Age(row[d], now))
  }

  function Ages(voq: Queues, now: int): (r: seq<seq<int>>)
    ensures |r| == |voq| && forall s :: 0 <= s < |r| ==> r[s] == RowAges(voq[s], now)
  {
    seq(|voq|, s requires 0 <= s < |voq| => RowAges(voq[s], now))
  }

  /** The waiting time so far of all queued packets. */
  function TotalAge(voq: Queues, now: int): int {
    MatrixSum(Ages(voq, now))
  }

  /** The number of queued packets. */
  function Queued(voq: Queues): int {
    MatrixSum(Lengths(voq))
  }

  /** The delays a channel's packets are about to record. */
  function Delays(channel: seq<Packet>): int {
    if channel == [] then 0
    else (channel[0].departureTime - channel[0].arrivalTime) + Delays(channel[1..])
  }

  function ChannelDelays(out: seq<seq<Packet>>): int {
    if out == [] then 0 else Delays(out[0]) + ChannelDelays(out[1..])
  }

  function ChannelCount(out: seq<seq<Packet>>): nat {
    if out == [] then 0 else |out[0]| + ChannelCount(out[1..])
  }

  lemma {:induction false} AgeConcat(a: seq<Packet>, b: seq<Packet>, now: int)
    ensures Age(a + b, now) == Age(a, now) + Age(b, now)
  {
    if a == [] {
      assert a + b == b;
    } else {
      AgeConcat(a[1..], b, now);
      assert (a + b)[1..] == a[1..] + b;
    }
  }

  lemma {:induction false} DelaysConcat(a: seq<Packet>, b: seq<Packet>)
    ensures Delays(a + b) == Delays(a) + Delays(b)
  {
    if a == [] {
      assert a + b == b;
    } else {
      DelaysConcat(a[1..], b);
      assert (a + b)[1..] == a[1..] + b;
    }
  }

  /** Changing one queue changes both totals by that queue's change. */
  lemma QueueChanges(voq: Queues, s: nat, d: nat, queue: seq<Packet>, now: int)
    requires s < |voq| && d < |voq[s]|
    ensures TotalAge(SetAt(voq, s, d, queue), now) == TotalAge(voq, now) - Age(voq[s][d], now) + Age(queue, now)
    ensures Queued(SetAt(voq, s, d, queue)) == Queued(voq) - |voq[s][d]| + |queue|
  {
    var voq' := SetAt(voq, s, d, queue);
    var row := RowAges(voq[s], now);
    assert RowAges(voq'[s], now) == row[d := Age(queue, now)];
    assert Ages(voq', now) == Ages(voq, now)[s := row[d := Age(queue, now)]];
    SumUpdate(row, d, Age(queue, now));
    MatrixSumUpdate(Ages(voq, now), s, row[d := Age(queue, now)]);
    var lens := Lengths(voq)[s];
    assert Lengths(voq')[s] == lens[d := |queue|];
    assert Lengths(voq') == Lengths(voq)[s := lens[d := |queue|]];
    SumUpdate(lens, d, |queue|);
    MatrixSumUpdate(Lengths(voq), s, lens[d := |queue|]);
  }

  lemma {:induction false} ChannelChanges(out: seq<seq<Packet>>, d: nat, p: Packet)
    requires d < |out|
    ensures ChannelDelays(out[d := out[d] + [p]]) == ChannelDelays(out) + p.departureTime - p.arrivalTime
    ensures ChannelCount(out[d := out[d] + [p]]) == ChannelCount(out) + 1
  {
    var out' := out[d := out[d] + [p]];
    if d == 0 {
      DelaysConcat(out[0], [p]);
      assert out'[1..] == out[1..];
    } else {
      ChannelChanges(out[1..], d - 1, p);
      assert out'[1..] == out[1..][d - 1 := out[1..][d - 1] + [p]];
    }
  }

  lemma {:induction false} EmptyChannels(out: seq<seq<Packet>>)
    requires forall d :: 0 <= d < |out| ==> out[d] == []
    ensures ChannelDelays(out) == 0 && ChannelCount(out) == 0
  {
    if out != [] {
      EmptyChannels(out[1..]);
    }
  }

  /** A packet read now has not waited yet. */
  lemma {:induction false} PushedTotals(voq: Queues, packets: seq<Packet>, now: nat, inputs: nat, outputs: nat)
    requires IsGrid(voq, inputs, outputs) && InRange(Pairs(packets), inputs, outputs)
    ensures var r := Pushed(voq, packets, now, inputs, outputs);
            TotalAge(r, now) == TotalAge(voq, now) && Queued(r) == Queued(voq) + |packets|
    decreases |packets|
  {
    if packets != [] {
      var front, p := packets[..|packets| - 1], packets[|packets| - 1];
      LastInRange(packets, inputs, outputs);
      PushedTotals(voq, front, now, inputs, outputs);
      var before := Pushed(voq, front, now, inputs, outputs);
      var queue := before[p.source][p.destination];
      AgeConcat(queue, [p.(arrivalTime := now)], now);
      QueueChanges(before, p.source, p.destination, queue + [p.(arrivalTime := now)], now);
    }
  }

  /** The packets inside the switch, queued or sent. */
  function Mass(plant: Plant): int {
    Queued(plant.voq) + ChannelCount(plant.out)
  }

  /** Their waiting time so far, without the transmission delay of the sent ones. */
  function Waited(plant: Plant, now: nat, delay: nat): int {
    TotalAge(plant.voq, now) + ChannelDelays(plant.out) - Times(ChannelCount(plant.out), delay)
  }

  /** Sending moves a packet and its waiting time from the queues to the output channels. */
  lemma SendTotals(plant: Plant, s: nat, d: nat, now: nat, delay: nat)
    requires s < |plant.voq| && d < |plant.voq[s]| && d < |plant.out| && plant.voq[s][d] != []
    ensures Waited(Send(plant, s, d, now + delay), now, delay) == Waited(plant, now, delay)
    ensures Mass(Send(plant, s, d, now + delay)) == Mass(plant)
  {
    var queue := plant.voq[s][d];
    QueueChanges(plant.voq, s, d, queue[1..], now);
    ChannelChanges(plant.out, d, queue[0].(departureTime := now + delay));
  }

  /** So does sending from all matched queues. */
  lemma {:induction false} SentTotals(plant: Plant, inMatch: seq<int>, now: nat, delay: nat, k: nat, inputs: nat,
      outputs: nat)
    requires plant.Valid(inputs, outputs) && IsMatchVector(inMatch, inputs, outputs) && k <= inputs
    ensures var r := SentBelow(plant, inMatch, now + delay, k, inputs, outputs);
            Waited(r, now, delay) == Waited(plant, now, delay) && Mass(r) == Mass(plant)
  {
    if k > 0 {
      SentTotals(plant, inMatch, now, delay, k - 1, inputs, outputs);
      var p := SentBelow(plant, inMatch, now + delay, k - 1, inputs, outputs);
      var d := inMatch[k - 1];
      if d != UNMATCHED && p.voq[k - 1][d] != [] {
        SendTotals(p, k - 1, d, now, delay);
      }
    }
  }

  /** Each queued packet waits one time unit more. */
  lemma {:induction false} AgeTick(queue: seq<Packet>, now: int)
    ensures Age(queue, now + 1) == Age(queue, now) + |queue|
  {
    if queue != [] {
      AgeTick(queue[1..], now);
    }
  }

  lemma {:induction false} TotalAgeTick(voq: Queues, now: int)
    ensures TotalAge(voq, now + 1) == TotalAge(voq, now) + Queued(voq)
  {
    if voq != [] {
      TotalAgeTick(voq[1..], now);
      assert Ages(voq, now)[1..] == Ages(voq[1..], now);
      assert Ages(voq, now + 1)[1..] == Ages(voq[1..], now + 1);
      assert Lengths(voq)[1..] == Lengths(voq[1..]);
      forall d | 0 <= d < |voq[0]| {
        AgeTick(voq[0][d], now);
      }
      SumAdd(RowAges(voq[0], now), Lengths(voq)[0], RowAges(voq[0], now + 1));
    }
  }

  /** The switch with the simulator's counters between two slots; the output channels are empty then. */
  datatype Counters = Counters(voq: Queues, now: nat, stalled: int, arrivals: nat, departures: nat,
                               lengthSamples: int, delaySamples: int)

  /** The counters once the simulator has emptied the output channels of `sent`. */
  ghost function Counted(c: Counters, offered: nat, sent: Plant): Counters {
    var left := ChannelCount(sent.out);
    Counters(sent.voq, c.now + 1, c.stalled + offered - left, c.arrivals + offered, c.departures + left,
             c.lengthSamples + c.stalled + offered - left, c.delaySamples + ChannelDelays(sent.out))
  }

  /** One slot: what `offered` holds arrives, `inMatch` is the scheduler's choice. */
  ghost function Slot(c: Counters, offered: seq<Packet>, inMatch: seq<int>, delay: nat, inputs: nat,
      outputs: nat): Counters
    requires IsGrid(c.voq, inputs, outputs) && InRange(Pairs(offered), inputs, outputs)
    requires IsMatchVector(inMatch, inputs, outputs)
  {
    Counted(c, |offered|, Switched(Plant(c.voq, Fill(outputs, [])), c.now, offered, inMatch, delay, inputs, outputs))
  }

  /** What the arrivals and the scheduler do in one slot. */
  datatype Input = Input(offered: seq<Packet>, inMatch: seq<int>)

  ghost predicate LegalRun(run: seq<Input>, inputs: nat, outputs: nat) {
    forall t :: 0 <= t < |run| ==>
      InRange(Pairs(run[t].offered), inputs, outputs) && IsMatchVector(run[t].inMatch, inputs, outputs)
  }

  /** The counters after the first slots of a run from an empty switch. */
  ghost function After(run: seq<Input>, start: nat, delay: nat, inputs: nat, outputs: nat): (r: Counters)
    requires LegalRun(run, inputs, outputs)
    ensures IsGrid(r.voq, inputs, outputs)
    decreases |run|
  {
    if run == [] then Counters(Fill(inputs, Fill(outputs, [])), start, 0, 0, 0, 0, 0)
    else
      var last := run[|run| - 1];
      Slot(After(run[..|run| - 1], start, delay, inputs, outputs), last.offered, last.inMatch, delay, inputs, outputs)
  }

  /** Packets are conserved and the sums satisfy Little's law. */
  ghost predicate Balanced(c: Counters, delay: nat) {
    && c.stalled == Queued(c.voq)
    && c.arrivals == c.departures + Queued(c.voq)
    && c.lengthSamples + Times(c.departures, delay) == c.delaySamples + TotalAge(c.voq, c.now)
  }

  /** A slot moves packets and their waiting time, and loses none of either. */
  lemma SwitchedTotals(voq: Queues, now: nat, offered: seq<Packet>, inMatch: seq<int>, delay: nat, inputs: nat,
      outputs: nat)
    requires IsGrid(voq, inputs, outputs) && InRange(Pairs(offered), inputs, outputs)
    requires IsMatchVector(inMatch, inputs, outputs)
    ensures var sent := Switched(Plant(voq, Fill(outputs, [])), now, offered, inMatch, delay, inputs, outputs);
            && Queued(sent.voq) + ChannelCount(sent.out) == Queued(voq) + |offered|
            && TotalAge(sent.voq, now) + ChannelDelays(sent.out) == TotalAge(voq,
                now) + Times(ChannelCount(sent.out), delay)
  {
    var plant := ReadIn(Plant(voq, Fill(outputs, [])), now, offered, inputs, outputs);
    PushedTotals(voq, offered, now, inputs, outputs);
    EmptyChannels(plant.out);
    SentTotals(plant, inMatch, now, delay, inputs, inputs, outputs);
  }

  lemma CountedKeepsBalance(c: Counters, offered: nat, sent: Plant, delay: nat)
    requires Balanced(c, delay)
    requires Queued(sent.voq) + ChannelCount(sent.out) == Queued(c.voq) + offered
    requires TotalAge(sent.voq, c.now) + ChannelDelays(sent.out)
             == TotalAge(c.voq, c.now) + Times(ChannelCount(sent.out), delay)
    ensures Balanced(Counted(c, offered, sent), delay)
  {
    TotalAgeTick(sent.voq, c.now);
    TimesAdd(c.departures, ChannelCount(sent.out), delay);
  }

  lemma SlotKeepsBalance(c: Counters, offered: seq<Packet>, inMatch: seq<int>, delay: nat, inputs: nat, outputs: nat)
    requires IsGrid(c.voq, inputs, outputs) && InRange(Pairs(offered), inputs, outputs)
    requires IsMatchVector(inMatch, inputs, outputs) && Balanced(c, delay)
    ensures Balanced(Slot(c, offered, inMatch, delay, inputs, outputs), delay)
  {
    SwitchedTotals(c.voq, c.now, offered, inMatch, delay, inputs, outputs);
    CountedKeepsBalance(c, |offered|, Switched(Plant(c.voq, Fill(outputs, [])), c.now, offered, inMatch, delay,
        inputs, outputs), delay);
  }

  lemma {:induction false} AllZeroMatrix(m: seq<seq<int>>)
    requires forall i :: 0 <= i < |m| ==> forall j :: 0 <= j < |m[i]| ==> m[i][j] == 0
    ensures MatrixSum(m) == 0
  {
    if m != [] {
      AllZeroMatrix(m[1..]);
      SumZeros(m[0]);
    }
  }

  lemma {:induction false} RunsStayBalanced(run: seq<Input>, start: nat, delay: nat, inputs: nat, outputs: nat)
    requires LegalRun(run, inputs, outputs)
    ensures Balanced(After(run, start, delay, inputs, outputs), delay)
    decreases |run|
  {
    if run == [] {
      var c := After(run, start, delay, inputs, outputs);
      AllZeroMatrix(Lengths(c.voq));
      AllZeroMatrix(Ages(c.voq, start));
    } else {
      var k := |run| - 1;
      RunsStayBalanced(run[..k], start, delay, inputs, outputs);
      SlotKeepsBalance(After(run[..k], start, delay, inputs, outputs), run[k].offered, run[k].inMatch, delay, inputs,
          outputs);
    }
  }

  /**
   Little's law on every run from an empty switch, for every sequence of arrivals and matchings: the
   queue length samples sum to the recorded delays plus the ages of the packets still queued, less
   the transmission delay of each departed packet, which is 0 by default.
   */
  lemma LittlesLawHolds(run: seq<Input>, start: nat, delay: nat, inputs: nat, outputs: nat)
    requires LegalRun(run, inputs, outputs)
    ensures var c := After(run, start, delay, inputs, outputs);
            && c.arrivals == c.departures + Queued(c.voq)
            && c.lengthSamples == c.delaySamples + TotalAge(c.voq, c.now) - c.departures * delay
  {
    RunsStayBalanced(run, start, delay, inputs, outputs);
    TimesIsProduct(After(run, start, delay, inputs, outputs).departures, delay);
  }

  // What the counters count

  /** The packets a run offers. */
  ghost function OfferedIn(run: seq<Input>): nat {
    if run == [] then 0 else OfferedIn(run[..|run| - 1]) + |run[|run| - 1].offered|
  }

  /** The queued packets, added up over the ends of all slots. */
  ghost function QueuedOver(run: seq<Input>, start: nat, delay: nat, inputs: nat, outputs: nat): int
    requires LegalRun(run, inputs, outputs)
    decreases |run|
  {
    if run == [] then 0
    else
      QueuedOver(run[..|run| - 1], start, delay, inputs, outputs)
      + Queued(After(run, start, delay, inputs, outputs).voq)
  }

  /** Arrivals, time and length samples of a run; Little's law gives the departures and the delays. */
  lemma {:induction false} RunTotals(run: seq<Input>, start: nat, delay: nat, inputs: nat, outputs: nat)
    requires LegalRun(run, inputs, outputs)
    ensures var c := After(run, start, delay, inputs, outputs);
            && c.now == start + |run| && c.arrivals == OfferedIn(run) && c.stalled == Queued(c.voq)
            && c.lengthSamples == QueuedOver(run, start, delay, inputs, outputs)
    decreases |run|
  {
    hide Queued, ChannelCount, ChannelDelays, Switched;
    RunsStayBalanced(run, start, delay, inputs, outputs);
    if run != [] {
      RunTotals(run[..|run| - 1], start, delay, inputs, outputs);
    }
  }
}
