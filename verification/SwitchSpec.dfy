/**
 What one slot does to the packets of a generic input-queued switch, and why the simplified switch,
 which keeps only queue lengths, is indistinguishable from it to any scheduler.
 */
module SwitchSpec {
  import opened Matchings
  import opened Sums
  import opened Voq

  datatype Packet = Packet(source: int, destination: int, arrivalTime: nat, departureTime: nat) {
    function Pair(): Pair { (source, destination) }
  }

  type Queues = seq<seq<seq<Packet>>>

  /** The packets of all input channels in the order they are read. */
  function Offered(channels: seq<seq<Packet>>): seq<Packet> {
    if channels == [] then [] else channels[0] + Offered(channels[1..])
  }

  /** Reading the first packet of the first nonempty channel. */
  lemma {:induction false} OfferedPop(channels: seq<seq<Packet>>, c: nat)
    requires c < |channels| && channels[c] != [] && forall x :: 0 <= x < c ==> channels[x] == []
    ensures Offered(channels) == [channels[c][0]] + Offered(channels[c := channels[c][1..]])
  {
    if c == 0 {
      assert channels[0] == [channels[0][0]] + channels[0][1..];
      assert channels[0 := channels[0][1..]][1..] == channels[1..];
    } else {
      OfferedPop(channels[1..], c - 1);
      assert channels[c := channels[c][1..]][1..] == channels[1..][c - 1 := channels[c][1..]];
    }
  }

  lemma {:induction false} OfferedNothing(channels: seq<seq<Packet>>)
    requires forall x :: 0 <= x < |channels| ==> channels[x] == []
    ensures Offered(channels) == []
  {
    if channels != [] {
      OfferedNothing(channels[1..]);
    }
  }

  /** The source and destination of each packet. */
  function Pairs(packets: seq<Packet>): (r: seq<Pair>)
    ensures |r| == |packets|
  {
    seq(|packets|, k requires 0 <= k < |packets| => packets[k].Pair())
  }

  lemma LastInRange(packets: seq<Packet>, inputs: nat, outputs: nat)
    requires InRange(Pairs(packets), inputs, outputs) && packets != []
    ensures var front, p := packets[..|packets| - 1], packets[|packets| - 1];
            && Pairs(packets) == Pairs(front) + [p.Pair()] && InRange(Pairs(front), inputs, outputs)
            && 0 <= p.source < inputs && 0 <= p.destination < outputs
  {
    var front, p := packets[..|packets| - 1], packets[|packets| - 1];
    assert Pairs(packets) == Pairs(front) + [p.Pair()];
    assert Pairs(packets)[|packets| - 1] == p.Pair();
    forall k | 0 <= k < |front|
      ensures Pairs(front)[k] == Pairs(packets)[k]
    {
    }
  }

  /** A packet joins the end of its queue, stamped with the time it is read. */
  function PushOne(voq: Queues, p: Packet, now: nat): (r: Queues)
    requires 0 <= p.source < |voq| && 0 <= p.destination < |voq[p.source]|
    ensures |r| == |voq| && forall s :: 0 <= s < |r| ==> |r[s]| == |voq[s]|
  {
    SetAt(voq, p.source, p.destination, voq[p.source][p.destination] + [p.(arrivalTime := now)])
  }

  /** The packets join their queues in the order they are read. */
  function Pushed(voq: Queues, packets: seq<Packet>, now: nat, inputs: nat, outputs: nat): (r: Queues)
    requires IsGrid(voq, inputs, outputs) && InRange(Pairs(packets), inputs, outputs)
    ensures IsGrid(r, inputs, outputs)
    decreases |packets|
  {
    if packets == [] then voq
    else
      LastInRange(packets, inputs, outputs);
      var p := packets[|packets| - 1];
      PushOne(Pushed(voq, packets[..|packets| - 1], now, inputs, outputs), p, now)
  }

  /** The queue lengths of the generic switch. */
  function Lengths(voq: Queues): (r: seq<seq<int>>)
    ensures |r| == |voq| && forall s :: 0 <= s < |r| ==> |r[s]| == |voq[s]|
    ensures forall s, d :: 0 <= s < |r| && 0 <= d < |r[s]| ==> r[s][d] == |voq[s][d]|
  {
    seq(|voq|, s requires 0 <= s < |voq| =>
      seq(|voq[s]|, d requires 0 <= d < |voq[s]| => |voq[s][d]|))
  }

  lemma LengthsPushOne(voq: Queues, p: Packet, now: nat)
    requires 0 <= p.source < |voq| && 0 <= p.destination < |voq[p.source]|
    ensures Lengths(PushOne(voq, p, now)) == Bumped(Lengths(voq), p.Pair())
  {
    GridsEqual(Lengths(PushOne(voq, p, now)), Bumped(Lengths(voq), p.Pair()));
  }

  /** Reading packets adds to the lengths what their source and destination pairs say. */
  lemma {:induction false} LengthsPushed(voq: Queues, packets: seq<Packet>, now: nat, inputs: nat, outputs: nat)
    requires IsGrid(voq, inputs, outputs) && InRange(Pairs(packets), inputs, outputs)
    ensures Lengths(Pushed(voq, packets, now, inputs, outputs)) == Enqueued(Lengths(voq), Pairs(packets))
    decreases |packets|
  {
    if packets != [] {
      var front, p := packets[..|packets| - 1], packets[|packets| - 1];
      LastInRange(packets, inputs, outputs);
      LengthsPushed(voq, front, now, inputs, outputs);
      LengthsPushOne(Pushed(voq, front, now, inputs, outputs), p, now);
      EnqueuedStep(Lengths(voq), Pairs(front), p.Pair());
    }
  }

  /** The packets inside the switch: waiting in the queues or sent to the output channels. */
  datatype Plant = Plant(voq: Queues, out: seq<seq<Packet>>) {
    ghost predicate Valid(inputs: nat, outputs: nat) {
      IsGrid(voq, inputs, outputs) && |out| == outputs
    }
  }

  /** The first packet of queue (s, d) leaves for output channel `d`, stamped with its departure time. */
  function Send(plant: Plant, s: nat, d: nat, stamp: nat): (r: Plant)
    requires s < |plant.voq| && d < |plant.voq[s]| && d < |plant.out| && plant.voq[s][d] != []
    ensures |r.voq| == |plant.voq| && |r.out| == |plant.out|
    ensures forall x :: 0 <= x < |r.voq| ==> |r.voq[x]| == |plant.voq[x]|
  {
    Plant(SetAt(plant.voq, s, d, plant.voq[s][d][1..]),
          plant.out[d := plant.out[d] + [plant.voq[s][d][0].(departureTime := stamp)]])
  }

  /** The matched queues of the inputs below `k` send their first packets. */
  ghost function SentBelow(plant: Plant, inMatch: seq<int>, stamp: nat, k: nat, inputs: nat, outputs: nat): (r: Plant)
    requires plant.Valid(inputs, outputs) && IsMatchVector(inMatch, inputs, outputs) && k <= inputs
    ensures r.Valid(inputs, outputs)
    ensures forall s :: k <= s < inputs ==> r.voq[s] == plant.voq[s]
  {
    if k == 0 then plant
    else
      var p := SentBelow(plant, inMatch, stamp, k - 1, inputs, outputs);
      var d := inMatch[k - 1];
      if d == UNMATCHED || p.voq[k - 1][d] == [] then p else Send(p, k - 1, d, stamp)
  }

  /** The departures, in input order, of the inputs below `k`. */
  function DepartedPairs(q: seq<seq<int>>, inMatch: seq<int>, k: nat): (r: seq<Pair>)
    requires |inMatch| == |q| && k <= |q|
    requires forall s :: 0 <= s < |q| ==> inMatch[s] == UNMATCHED || 0 <= inMatch[s] < |q[s]|
    ensures forall x :: 0 <= x < |r| ==> r[x].0 != SENTINEL
  {
    if k == 0 then []
    else
      DepartedPairs(q, inMatch, k - 1)
      + if inMatch[k - 1] != UNMATCHED && q[k - 1][inMatch[k - 1]] != 0 then [(k - 1, inMatch[k - 1])] else []
  }

  /** Input `s` is matched to output `d` and their queue is not empty. */
  ghost predicate Departs(q: seq<seq<int>>, inMatch: seq<int>, s: int, d: int)
    requires |inMatch| == |q|
    requires forall x :: 0 <= x < |q| ==> inMatch[x] == UNMATCHED || 0 <= inMatch[x] < |q[x]|
  {
    0 <= s < |q| && inMatch[s] == d && d != UNMATCHED && q[s][d] != 0
  }

  /** The list holds exactly the departures, once each and by increasing input. */
  lemma {:induction false} DepartedInOrder(q: seq<seq<int>>, inMatch: seq<int>, k: nat)
    requires |inMatch| == |q| && k <= |q|
    requires forall s :: 0 <= s < |q| ==> inMatch[s] == UNMATCHED || 0 <= inMatch[s] < |q[s]|
    ensures var r := DepartedPairs(q, inMatch, k);
            && (forall x, y :: 0 <= x < y < |r| ==> r[x].0 < r[y].0)
            && (forall x :: 0 <= x < |r| ==> r[x].0 < k && Departs(q, inMatch, r[x].0, r[x].1))
            && (forall s, d :: 0 <= s < k && Departs(q, inMatch, s, d) ==> (s, d) in r)
  {
    if k > 0 {
      DepartedInOrder(q, inMatch, k - 1);
      var r := DepartedPairs(q, inMatch, k - 1);
      assert forall p :: p in r ==> p in DepartedPairs(q, inMatch, k);
    }
  }

  /** Queues and output channels once the offered packets have been read. */
  ghost function ReadIn(plant: Plant, now: nat, offered: seq<Packet>, inputs: nat, outputs: nat): (r: Plant)
    requires plant.Valid(inputs, outputs) && InRange(Pairs(offered), inputs, outputs)
    ensures r.Valid(inputs, outputs)
  {
    Plant(Pushed(plant.voq, offered, now, inputs, outputs), plant.out)
  }

  /** One switching cycle: the offered packets are read, then every matched nonempty queue sends one packet. */
  ghost function Switched(plant: Plant, now: nat, offered: seq<Packet>, inMatch: seq<int>, delay: nat, inputs: nat,
      outputs: nat): (r: Plant)
    requires plant.Valid(inputs, outputs) && InRange(Pairs(offered), inputs, outputs)
    requires IsMatchVector(inMatch, inputs, outputs)
    ensures r.Valid(inputs, outputs)
  {
    SentBelow(ReadIn(plant, now, offered, inputs, outputs), inMatch, now + delay, inputs, inputs, outputs)
  }

  lemma SwitchedIs(plant: Plant, now: nat, offered: seq<Packet>, inMatch: seq<int>, delay: nat, inputs: nat,
      outputs: nat, loaded: Plant)
    requires plant.Valid(inputs, outputs) && InRange(Pairs(offered), inputs, outputs)
    requires IsMatchVector(inMatch, inputs, outputs) && loaded == ReadIn(plant, now, offered, inputs, outputs)
    ensures SentBelow(loaded, inMatch, now + delay, inputs, inputs, outputs)
            == Switched(plant, now, offered, inMatch, delay, inputs, outputs)
  {
  }

  /** The source and destination of the packets that the inputs below `k` send, in input order. */
  function SentPairs(voq: Queues, inMatch: seq<int>, k: nat, inputs: nat, outputs: nat): seq<Pair>
    requires IsGrid(voq, inputs, outputs) && IsMatchVector(inMatch, inputs, outputs) && k <= inputs
  {
    if k == 0 then []
    else
      SentPairs(voq, inMatch, k - 1, inputs, outputs)
      + if inMatch[k - 1] != UNMATCHED && voq[k - 1][inMatch[k - 1]] != []
        then [voq[k - 1][inMatch[k - 1]][0].Pair()] else []
  }

  ghost predicate Belongs(queue: seq<Packet>, s: nat, d: nat) {
    forall k :: 0 <= k < |queue| ==> queue[k].Pair() == (s, d)
  }

  ghost predicate SortedRow(row: seq<seq<Packet>>, s: nat) {
    forall d :: 0 <= d < |row| ==> Belongs(row[d], s, d)
  }

  /** The packets of the first `n` rows wait in the queues of their own source and destination. */
  ghost predicate SortedRows(voq: Queues, n: nat)
    requires n <= |voq|
  {
    n == 0 || (SortedRows(voq, n - 1) && SortedRow(voq[n - 1], n - 1))
  }

  /** Every packet waits in the queue of its own source and destination. */
  ghost predicate Sorted(voq: Queues) {
    SortedRows(voq, |voq|)
  }

  lemma {:induction false} SortedRowsMeans(voq: Queues, n: nat)
    requires n <= |voq|
    ensures SortedRows(voq, n) <==> forall s, d :: 0 <= s < n && 0 <= d < |voq[s]| ==> Belongs(voq[s][d], s, d)
  {
    if n > 0 {
      SortedRowsMeans(voq, n - 1);
    }
  }

  lemma EmptyIsSorted(inputs: nat, outputs: nat)
    ensures Sorted(Fill(inputs, Fill(outputs, [])))
  {
    SortedRowsMeans(Fill(inputs, Fill(outputs, [])), inputs);
  }

  lemma {:induction false} PushedKeepsSorted(voq: Queues, packets: seq<Packet>, now: nat, inputs: nat, outputs: nat)
    requires IsGrid(voq, inputs, outputs) && InRange(Pairs(packets), inputs, outputs) && Sorted(voq)
    ensures Sorted(Pushed(voq, packets, now, inputs, outputs))
    decreases |packets|
  {
    if packets != [] {
      var front, p := packets[..|packets| - 1], packets[|packets| - 1];
      LastInRange(packets, inputs, outputs);
      PushedKeepsSorted(voq, front, now, inputs, outputs);
      SortedRowsMeans(Pushed(voq, front, now, inputs, outputs), inputs);
      SortedRowsMeans(Pushed(voq, packets, now, inputs, outputs), inputs);
    }
  }

  lemma SentKeepsSorted(plant: Plant, inMatch: seq<int>, stamp: nat, inputs: nat, outputs: nat)
    requires plant.Valid(inputs, outputs) && IsMatchVector(inMatch, inputs, outputs) && Sorted(plant.voq)
    ensures Sorted(SentBelow(plant, inMatch, stamp, inputs, inputs, outputs).voq)
  {
    SentQueues(plant, inMatch, stamp, inputs, inputs, outputs);
    SortedRowsMeans(plant.voq, inputs);
    SortedRowsMeans(SentBelow(plant, inMatch, stamp, inputs, inputs, outputs).voq, inputs);
  }

  /** So the listed departures are those of the matched nonempty queues. */
  lemma {:induction false} SentPairsAreDeparted(voq: Queues, inMatch: seq<int>, k: nat, inputs: nat, outputs: nat)
    requires IsGrid(voq, inputs, outputs) && IsMatchVector(inMatch, inputs, outputs) && k <= inputs && Sorted(voq)
    ensures SentPairs(voq, inMatch, k, inputs, outputs) == DepartedPairs(Lengths(voq), inMatch, k)
  {
    if k > 0 {
      SentPairsAreDeparted(voq, inMatch, k - 1, inputs, outputs);
      SortedRowsMeans(voq, inputs);
      var d := inMatch[k - 1];
      assert d != UNMATCHED && voq[k - 1][d] != [] ==> voq[k - 1][d][0].Pair() == (k - 1, d);
    }
  }

  /** Sending removes the first packet of exactly the matched nonempty queues. */
  lemma {:induction false} SentQueues(plant: Plant, inMatch: seq<int>, stamp: nat, k: nat, inputs: nat, outputs: nat)
    requires plant.Valid(inputs, outputs) && IsMatchVector(inMatch, inputs, outputs) && k <= inputs
    ensures var r := SentBelow(plant, inMatch, stamp, k, inputs, outputs);
            forall s, d :: 0 <= s < inputs && 0 <= d < outputs ==>
              r.voq[s][d] == if s < k && inMatch[s] == d && plant.voq[s][d] != [] then plant.voq[s][d][1..]
                             else plant.voq[s][d]
  {
    if k > 0 {
      SentQueues(plant, inMatch, stamp, k - 1, inputs, outputs);
    }
  }

  /** So the lengths change as those of the simplified switch do. */
  lemma LengthsSent(plant: Plant, inMatch: seq<int>, stamp: nat, inputs: nat, outputs: nat)
    requires plant.Valid(inputs, outputs) && IsMatchVector(inMatch, inputs, outputs)
    ensures Lengths(SentBelow(plant, inMatch, stamp, inputs, inputs, outputs).voq)
            == Departed(Lengths(plant.voq), inMatch)
  {
    SentQueues(plant, inMatch, stamp, inputs, inputs, outputs);
    GridsEqual(Lengths(SentBelow(plant, inMatch, stamp, inputs, inputs, outputs).voq),
               Departed(Lengths(plant.voq), inMatch));
  }

  ghost predicate NotMatchedBelow(inMatch: seq<int>, d: nat, k: nat)
    requires k <= |inMatch|
  {
    forall s :: 0 <= s < k ==> inMatch[s] != d
  }

  /** A channel gets a packet of queue (s, d) only from an input matched to it: one at most, if outputs differ. */
  lemma {:induction false} OnePacketPerChannel(plant: Plant, inMatch: seq<int>, stamp: nat, k: nat, inputs: nat,
      outputs: nat)
    requires plant.Valid(inputs, outputs) && IsMatchVector(inMatch, inputs, outputs) && k <= inputs
    requires IsPartialInjection(inMatch, outputs)
    requires forall d :: 0 <= d < outputs ==> plant.out[d] == []
    ensures forall d :: 0 <= d < outputs ==>
      && |SentBelow(plant, inMatch, stamp, k, inputs, outputs).out[d]| <= 1
      && (NotMatchedBelow(inMatch, d, k) ==> SentBelow(plant, inMatch, stamp, k, inputs, outputs).out[d] == [])
  {
    if k > 0 {
      OnePacketPerChannel(plant, inMatch, stamp, k - 1, inputs, outputs);
      var d := inMatch[k - 1];
      var p, r := SentBelow(plant, inMatch, stamp, k - 1, inputs, outputs), SentBelow(plant, inMatch, stamp, k,
          inputs, outputs);
      forall o | 0 <= o < outputs
        ensures |r.out[o]| <= 1 && (NotMatchedBelow(inMatch, o, k) ==> r.out[o] == [])
      {
        assert |p.out[o]| <= 1;
        if o == d {
          assert NotMatchedBelow(inMatch, o, k - 1);
          assert p.out[o] == [];
        } else {
          assert r.out[o] == p.out[o];
        }
      }
    }
  }

  // Refinement: any scheduler that sees arrivals and lengths only.

  /** What a scheduler and an observer see of a slot. */
  datatype Observation = Observation(arrivals: seq<Pair>, departures: seq<Pair>, lengths: seq<seq<int>>)

  /** A scheduler with its own state, deciding from the arrivals and the lengths. */
  type SchedulerStep<!S> = (S, seq<Pair>, seq<seq<int>>) -> (S, seq<int>)

  ghost predicate Matches<S(!new)>(sched: SchedulerStep<S>, inputs: nat, outputs: nat) {
    forall x: S, a: seq<Pair>, q: seq<seq<int>> {:trigger sched(x, a, q)} ::
      IsMatchVector(sched(x, a, q).1, inputs, outputs)
  }

  /** One slot of the simplified switch: the new lengths and scheduler state, and what is observed. */
  ghost function SimplifiedSlot<S(!new)>(q: seq<seq<int>>, x: S, sched: SchedulerStep<S>, offered: seq<Packet>,
      inputs: nat, outputs: nat): (r: (seq<seq<int>>, S, Observation))
    requires IsGrid(q, inputs, outputs) && Matches(sched, inputs, outputs)
    ensures IsGrid(r.0, inputs, outputs)
  {
    var loaded := Enqueued(q, Pairs(offered));
    var (x', inMatch) := sched(x, Pairs(offered), loaded);
    var q' := Departed(loaded, inMatch);
    (q', x', Observation(Pairs(offered), DepartedPairs(loaded, inMatch, inputs), q'))
  }

  /** One slot of the generic switch, whose output channels are emptied before the next. */
  ghost function GenericSlot<S(!new)>(voq: Queues, now: nat, delay: nat, x: S, sched: SchedulerStep<S>,
      offered: seq<Packet>, inputs: nat, outputs: nat): (r: (Queues, S, Observation))
    requires IsGrid(voq, inputs, outputs) && Matches(sched, inputs, outputs)
    requires InRange(Pairs(offered), inputs, outputs)
    ensures IsGrid(r.0, inputs, outputs)
  {
    var loaded := Pushed(voq, offered, now, inputs, outputs);
    var (x', inMatch) := sched(x, Pairs(offered), Lengths(loaded));
    var sent := SentBelow(Plant(loaded, Fill(outputs, [])), inMatch, now + delay, inputs, inputs, outputs);
    (sent.voq, x', Observation(Pairs(offered), SentPairs(loaded, inMatch, inputs, inputs, outputs), Lengths(sent.voq)))
  }

  /** The observations of the simplified switch over a run, one list of read packets per slot. */
  ghost function SimplifiedRun<S(!new)>(q: seq<seq<int>>, x: S, sched: SchedulerStep<S>, run: seq<seq<Packet>>,
      inputs: nat, outputs: nat): seq<Observation>
    requires IsGrid(q, inputs, outputs) && Matches(sched, inputs, outputs)
    decreases |run|
  {
    if run == [] then []
    else
      var (q', x', seen) := SimplifiedSlot(q, x, sched, run[0], inputs, outputs);
      [seen] + SimplifiedRun(q', x', sched, run[1..], inputs, outputs)
  }

  /** The observations of the generic switch over the same run. */
  ghost function GenericRun<S(!new)>(voq: Queues, now: nat, delay: nat, x: S, sched: SchedulerStep<S>,
      run: seq<seq<Packet>>, inputs: nat, outputs: nat): seq<Observation>
    requires IsGrid(voq, inputs, outputs) && Matches(sched, inputs, outputs)
    requires forall t :: 0 <= t < |run| ==> InRange(Pairs(run[t]), inputs, outputs)
    decreases |run|
  {
    if run == [] then []
    else
      var (voq', x', seen) := GenericSlot(voq, now, delay, x, sched, run[0], inputs, outputs);
      [seen] + GenericRun(voq', now + 1, delay, x', sched, run[1..], inputs, outputs)
  }

  lemma SlotRefines<S(!new)>(voq: Queues, now: nat, delay: nat, x: S, sched: SchedulerStep<S>, offered: seq<Packet>,
      inputs: nat, outputs: nat)
    requires IsGrid(voq, inputs, outputs) && Matches(sched, inputs, outputs)
    requires InRange(Pairs(offered), inputs, outputs) && Sorted(voq)
    ensures Sorted(GenericSlot(voq, now, delay, x, sched, offered, inputs, outputs).0)
    ensures var g := GenericSlot(voq, now, delay, x, sched, offered, inputs, outputs);
            var r := SimplifiedSlot(Lengths(voq), x, sched, offered, inputs, outputs);
            r.0 == Lengths(g.0) && r.1 == g.1 && r.2 == g.2
  {
    var loaded := Pushed(voq, offered, now, inputs, outputs);
    LengthsPushed(voq, offered, now, inputs, outputs);
    PushedKeepsSorted(voq, offered, now, inputs, outputs);
    var q := Lengths(loaded);
    assert q == Enqueued(Lengths(voq), Pairs(offered));
    var inMatch := sched(x, Pairs(offered), q).1;
    var plant := Plant(loaded, Fill(outputs, []));
    LengthsSent(plant, inMatch, now + delay, inputs, outputs);
    SentKeepsSorted(plant, inMatch, now + delay, inputs, outputs);
    SentPairsAreDeparted(loaded, inMatch, inputs, inputs, outputs);
    assert Lengths(SentBelow(plant, inMatch, now + delay, inputs, inputs, outputs).voq) == Departed(q, inMatch);
  }

  /** The simplified switch refines the generic one: same arrivals, departures and lengths in every slot. */
  lemma {:induction false} SimplifiedRefinesGeneric<S(!new)>(voq: Queues, now: nat, delay: nat, x: S,
      sched: SchedulerStep<S>, run: seq<seq<Packet>>, inputs: nat, outputs: nat)
    requires IsGrid(voq, inputs, outputs) && Matches(sched, inputs, outputs) && Sorted(voq)
    requires forall t :: 0 <= t < |run| ==> InRange(Pairs(run[t]), inputs, outputs)
    ensures GenericRun(voq, now, delay, x, sched, run, inputs, outputs)
            == SimplifiedRun(Lengths(voq), x, sched, run, inputs, outputs)
    decreases |run|
  {
    if run != [] {
      SlotRefines(voq, now, delay, x, sched, run[0], inputs, outputs);
      var (voq', x', _) := GenericSlot(voq, now, delay, x, sched, run[0], inputs, outputs);
      SimplifiedRefinesGeneric(voq', now + 1, delay, x', sched, run[1..], inputs, outputs);
    }
  }
}
