/** The virtual output queues are first in, first out: where packets join, which one leaves, and whole runs. */
module QueueOrder {
  import opened LittlesLaw
  import opened Matchings
  import opened Sums
  import opened SwitchSpec
  import opened Voq

  // Reading the channels

  /** The packets of a channel follow those of the channels before it and keep their order. */
  lemma {:induction false} OfferedInOrder(channels: seq<seq<Packet>>, c: nat)
    requires c < |channels|
    ensures Offered(channels) == Offered(channels[..c]) + channels[c] + Offered(channels[c + 1..])
    ensures Offered([]) == []
  {
    if c == 0 {
      assert Offered(channels[..0]) == [];
    } else {
      OfferedInOrder(channels[1..], c - 1);
      assert channels[1..][..c - 1] == channels[..c][1..];
      assert channels[1..][c..] == channels[c + 1..];
      calc {
        Offered(channels);
        channels[0] + (Offered(channels[1..][..c - 1]) + channels[c] + Offered(channels[c + 1..]));
        (channels[0] + Offered(channels[..c][1..])) + channels[c] + Offered(channels[c + 1..]);
        Offered(channels[..c]) + channels[c] + Offered(channels[c + 1..]);
      }
    }
  }

  // Joining a queue

  /** `at` lists, in order, the positions of exactly the packets from `s` to `d`. */
  ghost predicate ArePositions(at: seq<nat>, packets: seq<Packet>, s: nat, d: nat) {
    && (forall x, y :: 0 <= x < y < |at| ==> at[x] < at[y])
    && (forall x :: 0 <= x < |at| ==> at[x] < |packets|)
    && (forall k: nat :: k < |packets| ==> (k in at <==> packets[k].Pair() == (s, d)))
  }

  /** The queue is followed by the packets at those positions, stamped with the time they are read. */
  ghost predicate Joined(before: seq<Packet>, after: seq<Packet>, packets: seq<Packet>, at: seq<nat>, now: nat) {
    && |after| == |before| + |at| && before <= after
    && forall x :: 0 <= x < |at| ==> at[x] < |packets| && after[|before| + x] == packets[at[x]].(arrivalTime := now)
  }

  /** The packets for a queue have joined its end in the order they were read. */
  ghost predicate HasJoined(before: seq<Packet>, after: seq<Packet>, packets: seq<Packet>, s: nat, d: nat, now: nat) {
    exists at: seq<nat> :: ArePositions(at, packets, s, d) && Joined(before, after, packets, at, now)
  }

  ghost predicate AllHaveJoined(before: Queues, after: Queues, packets: seq<Packet>, now: nat, inputs: nat,
      outputs: nat)
    requires IsGrid(before, inputs, outputs) && IsGrid(after, inputs, outputs)
  {
    forall s, d :: 0 <= s < inputs && 0 <= d < outputs ==> HasJoined(before[s][d], after[s][d], packets, s, d, now)
  }

  /** The packets from `s` to `d`. */
  ghost function Of(packets: seq<Packet>, s: nat, d: nat): (r: seq<Packet>)
    decreases |packets|
  {
    if packets == [] then []
    else
      var p := packets[|packets| - 1];
      Of(packets[..|packets| - 1], s, d) + if p.Pair() == (s, d) then [p] else []
  }

  ghost function Stamped(packets: seq<Packet>, now: nat): (r: seq<Packet>)
    ensures |r| == |packets| && forall k :: 0 <= k < |r| ==> r[k] == packets[k].(arrivalTime := now)
  {
    seq(|packets|, k requires 0 <= k < |packets| => packets[k].(arrivalTime := now))
  }

  lemma OnePositionMore(packets: seq<Packet>, at: seq<nat>, s: nat, d: nat)
    requires packets != [] && ArePositions(at, packets[..|packets| - 1], s, d)
    ensures var n := |packets| - 1;
            ArePositions(if packets[n].Pair() == (s, d) then at + [n] else at, packets, s, d)
  {
    var n := |packets| - 1;
    var more := at + [n];
    assert forall k: nat :: k < n ==> packets[..n][k] == packets[k];
    assert forall k: nat :: k in more <==> k in at || k == n;
  }

  lemma {:induction false} OfPositions(packets: seq<Packet>, s: nat, d: nat) returns (at: seq<nat>)
    ensures ArePositions(at, packets, s, d) && |at| == |Of(packets, s, d)|
    ensures forall x :: 0 <= x < |at| ==> at[x] < |packets| && Of(packets, s, d)[x] == packets[at[x]]
    decreases |packets|
  {
    hide ArePositions;
    if packets == [] {
      at := [];
      NoPositions(s, d);
    } else {
      var n := |packets| - 1;
      var front := OfPositions(packets[..n], s, d);
      at := if packets[n].Pair() == (s, d) then front + [n] else front;
      OnePositionMore(packets, front, s, d);
    }
  }

  lemma NoPositions(s: nat, d: nat)
    ensures ArePositions([], [], s, d)
  {
  }

  /** What reading adds to a queue. */
  lemma {:induction false} PushedIs(voq: Queues, packets: seq<Packet>, now: nat, inputs: nat, outputs: nat, s: nat,
      d: nat)
    requires IsGrid(voq, inputs, outputs) && InRange(Pairs(packets), inputs, outputs) && s < inputs && d < outputs
    ensures Pushed(voq, packets, now, inputs, outputs)[s][d] == voq[s][d] + Stamped(Of(packets, s, d), now)
    decreases |packets|
  {
    if packets != [] {
      var front, p := packets[..|packets| - 1], packets[|packets| - 1];
      LastInRange(packets, inputs, outputs);
      PushedIs(voq, front, now, inputs, outputs, s, d);
      if p.Pair() == (s, d) {
        assert Stamped(Of(packets, s, d), now) == Stamped(Of(front, s, d), now) + [p.(arrivalTime := now)];
      }
    }
  }

  /** Each old queue is a prefix of the new one, and what follows are its packets in the order read, stamped. */
  lemma PushedHaveJoined(voq: Queues, packets: seq<Packet>, now: nat, inputs: nat, outputs: nat)
    requires IsGrid(voq, inputs, outputs) && InRange(Pairs(packets), inputs, outputs)
    ensures AllHaveJoined(voq, Pushed(voq, packets, now, inputs, outputs), packets, now, inputs, outputs)
  {
    forall s, d | 0 <= s < inputs && 0 <= d < outputs
      ensures HasJoined(voq[s][d], Pushed(voq, packets, now, inputs, outputs)[s][d], packets, s, d, now)
    {
      PushedIs(voq, packets, now, inputs, outputs, s, d);
      var at := OfPositions(packets, s, d);
      hide ArePositions, Of;
      assert Joined(voq[s][d], Pushed(voq, packets, now, inputs, outputs)[s][d], packets, at, now);
    }
  }

  // Leaving a queue

  /** What input `k` sends to the channel of output `d`. */
  ghost function SentBy(plant: Plant, inMatch: seq<int>, stamp: nat, k: nat, d: nat): seq<Packet>
    requires k < |inMatch| && k < |plant.voq| && d < |plant.voq[k]|
  {
    if inMatch[k] == d && plant.voq[k][d] != [] then [plant.voq[k][d][0].(departureTime := stamp)] else []
  }

  lemma OneMoreSends(plant: Plant, inMatch: seq<int>, stamp: nat, k: nat, inputs: nat, outputs: nat, d: nat)
    requires plant.Valid(inputs, outputs) && IsMatchVector(inMatch, inputs, outputs) && k < inputs && d < outputs
    ensures SentBelow(plant, inMatch, stamp, k + 1, inputs, outputs).out[d]
            == SentBelow(plant, inMatch, stamp, k, inputs, outputs).out[d] + SentBy(plant, inMatch, stamp, k, d)
    ensures SentBelow(plant, inMatch, stamp, 0, inputs, outputs) == plant
  {
  }

  /** It is counted for queue (s, d) exactly if `s` is that input. */
  lemma OfOneMore(packets: seq<Packet>, plant: Plant, inMatch: seq<int>, stamp: nat, k: nat, s: nat, d: nat)
    requires k < |inMatch| && k < |plant.voq| && d < |plant.voq[k]| && Belongs(plant.voq[k][d], k, d)
    ensures Of(packets + SentBy(plant, inMatch, stamp, k, d), s, d)
            == Of(packets, s, d) + if s == k then SentBy(plant, inMatch, stamp, k, d) else []
  {
    var more := SentBy(plant, inMatch, stamp, k, d);
    if more == [] {
      assert packets + more == packets;
    } else {
      assert (packets + more)[..|packets|] == packets && more[0].Pair() == (k, d);
    }
  }

  /** The packets of queue (s, d) among those of its channel: its first one has followed, or nothing. */
  lemma {:induction false} SentOf(plant: Plant, inMatch: seq<int>, stamp: nat, k: nat, inputs: nat, outputs: nat,
      s: nat, d: nat)
    requires plant.Valid(inputs, outputs) && IsMatchVector(inMatch, inputs, outputs) && k <= inputs
    requires s < inputs && d < outputs && forall x :: 0 <= x < inputs ==> Belongs(plant.voq[x][d], x, d)
    ensures Of(SentBelow(plant, inMatch, stamp, k, inputs, outputs).out[d], s, d)
            == Of(plant.out[d], s, d) + if s < k then SentBy(plant, inMatch, stamp, s, d) else []
  {
    hide Of, Belongs, SentBelow, SentBy;
    if k > 0 {
      SentOf(plant, inMatch, stamp, k - 1, inputs, outputs, s, d);
      OneMoreSends(plant, inMatch, stamp, k - 1, inputs, outputs, d);
      OfOneMore(SentBelow(plant, inMatch, stamp, k - 1, inputs, outputs).out[d], plant, inMatch, stamp, k - 1, s, d);
    } else {
      OneMoreSends(plant, inMatch, stamp, 0, inputs, outputs, d);
    }
  }

  /** With a matching, a channel gets exactly the first packet of the queue matched to it, stamped. */
  lemma {:induction false} SentToChannel(plant: Plant, inMatch: seq<int>, stamp: nat, k: nat, inputs: nat,
      outputs: nat, d: nat)
    requires plant.Valid(inputs, outputs) && IsMatchVector(inMatch, inputs, outputs) && k <= inputs
    requires IsPartialInjection(inMatch, outputs) && d < outputs
    ensures var r := SentBelow(plant, inMatch, stamp, k, inputs, outputs).out[d];
            && (forall s :: 0 <= s < k && inMatch[s] == d && plant.voq[s][d] != [] ==>
                  r == plant.out[d] + [plant.voq[s][d][0].(departureTime := stamp)])
            && ((forall s :: 0 <= s < k && inMatch[s] == d ==> plant.voq[s][d] == []) ==> r == plant.out[d])
  {
    if k > 0 {
      SentToChannel(plant, inMatch, stamp, k - 1, inputs, outputs, d);
      OneMoreSends(plant, inMatch, stamp, k - 1, inputs, outputs, d);
    }
  }

  // A slot and a run

  /** The packets of queue (s, d) that a run reads, stamped, in the order it reads them. */
  ghost function Read(run: seq<Input>, start: nat, s: nat, d: nat): seq<Packet> {
    if run == [] then []
    else
      var t := |run| - 1;
      Read(run[..t], start, s, d) + Stamped(Of(run[t].offered, s, d), start + t)
  }

  /** The packets of queue (s, d) that a run sends, in the order it sends them. */
  ghost function Left(run: seq<Input>, start: nat, delay: nat, inputs: nat, outputs: nat, s: nat, d: nat): seq<Packet>
    requires LegalRun(run, inputs, outputs) && d < outputs
  {
    if run == [] then []
    else
      var t := |run| - 1;
      var c := After(run[..t], start, delay, inputs, outputs);
      var sent := Switched(Plant(c.voq, Fill(outputs, [])), c.now, run[t].offered, run[t].inMatch, delay, inputs,
                           outputs);
      Left(run[..t], start, delay, inputs, outputs, s, d) + Of(sent.out[d], s, d)
  }

  /** What has left and what still waits is what has been read, in that order. */
  ghost predicate FirstInFirstOut(read: seq<Packet>, left: seq<Packet>, queue: seq<Packet>) {
    && |left| <= |read| && queue == read[|left|..]
    && forall i :: 0 <= i < |left| ==> left[i] == read[i].(departureTime := left[i].departureTime)
  }

  /** Stamps never decrease; departures are one per slot at most, and no sooner than the arrival. */
  ghost predicate InTime(read: seq<Packet>, left: seq<Packet>, now: nat, delay: nat)
    requires |left| <= |read|
  {
    && (forall i, j :: 0 <= i < j < |read| ==> read[i].arrivalTime <= read[j].arrivalTime)
    && (forall i :: 0 <= i < |read| ==> read[i].arrivalTime < now)
    && (forall i, j :: 0 <= i < j < |left| ==> left[i].departureTime < left[j].departureTime)
    && (forall i :: 0 <= i < |left| ==> read[i].arrivalTime + delay <= left[i].departureTime < now + delay)
  }

  lemma SwitchedQueue(voq: Queues, now: nat, offered: seq<Packet>, inMatch: seq<int>, delay: nat, inputs: nat,
      outputs: nat, s: nat, d: nat)
    requires IsGrid(voq, inputs, outputs) && InRange(Pairs(offered), inputs, outputs)
    requires IsMatchVector(inMatch, inputs, outputs) && Sorted(voq) && s < inputs && d < outputs
    ensures var sent := Switched(Plant(voq, Fill(outputs, [])), now, offered, inMatch, delay, inputs, outputs);
            var loaded := voq[s][d] + Stamped(Of(offered, s, d), now);
            var leaves := inMatch[s] == d && loaded != [];
            && Sorted(sent.voq)
            && sent.voq[s][d] == (if leaves then loaded[1..] else loaded)
            && Of(sent.out[d], s, d) == if leaves then [loaded[0].(departureTime := now + delay)] else []
  {
    var plant := ReadIn(Plant(voq, Fill(outputs, [])), now, offered, inputs, outputs);
    PushedIs(voq, offered, now, inputs, outputs, s, d);
    PushedKeepsSorted(voq, offered, now, inputs, outputs);
    SentKeepsSorted(plant, inMatch, now + delay, inputs, outputs);
    SentQueues(plant, inMatch, now + delay, inputs, inputs, outputs);
    SortedRowsMeans(plant.voq, inputs);
    hide Sorted, Belongs;
    SentOf(plant, inMatch, now + delay, inputs, inputs, outputs, s, d);
    assert Of(plant.out[d], s, d) == [];
  }

  /** The queue loads what has arrived and may send its first packet. */
  ghost predicate Steps(queue: seq<Packet>, arrived: seq<Packet>, gone: seq<Packet>, rest: seq<Packet>, stamp: nat) {
    || (gone == [] && rest == queue + arrived)
    || (queue + arrived != [] && gone == [(queue + arrived)[0].(departureTime := stamp)]
        && rest == (queue + arrived)[1..])
  }

  lemma OneStep(read: seq<Packet>, left: seq<Packet>, queue: seq<Packet>, arrived: seq<Packet>, gone: seq<Packet>,
      rest: seq<Packet>, now: nat, delay: nat)
    requires FirstInFirstOut(read, left, queue) && InTime(read, left, now, delay)
    requires Steps(queue, arrived, gone, rest, now + delay)
    requires forall k :: 0 <= k < |arrived| ==> arrived[k].arrivalTime == now
    ensures FirstInFirstOut(read + arrived, left + gone, rest)
    ensures InTime(read + arrived, left + gone, now + 1, delay)
  {
  }

  lemma NothingRead(start: nat, delay: nat, inputs: nat, outputs: nat, s: nat, d: nat)
    requires s < inputs && d < outputs
    ensures var c, left := After([], start, delay, inputs, outputs), Left([], start, delay, inputs, outputs, s, d);
            && FirstInFirstOut(Read([], start, s, d), left, c.voq[s][d]) && Sorted(c.voq) && c.now == start
            && InTime(Read([], start, s, d), left, c.now, delay)
  {
    EmptyIsSorted(inputs, outputs);
  }

  /** What the last slot of a run adds. */
  lemma LastSlot(run: seq<Input>, start: nat, delay: nat, inputs: nat, outputs: nat, s: nat, d: nat)
    requires LegalRun(run, inputs, outputs) && run != [] && s < inputs && d < outputs
    ensures var t := |run| - 1;
            var c, r := After(run[..t], start, delay, inputs, outputs), After(run, start, delay, inputs, outputs);
            var sent := Switched(Plant(c.voq, Fill(outputs, [])), c.now, run[t].offered, run[t].inMatch, delay, inputs,
                                 outputs);
            && r.voq == sent.voq && r.now == c.now + 1
            && Read(run, start, s, d) == Read(run[..t], start, s, d) + Stamped(Of(run[t].offered, s, d), start + t)
            && Left(run, start, delay, inputs, outputs, s, d)
               == Left(run[..t], start, delay, inputs, outputs, s, d) + Of(sent.out[d], s, d)
  {
  }

  /**
   On every run from an empty switch the packets of each queue leave in the order they were read, whatever the
   scheduler decides, and those still waiting are the last ones read, in that order.
   */
  lemma {:induction false} RunsAreFirstInFirstOut(run: seq<Input>, start: nat, delay: nat, inputs: nat, outputs: nat,
      s: nat, d: nat)
    requires LegalRun(run, inputs, outputs) && s < inputs && d < outputs
    ensures var c := After(run, start, delay, inputs, outputs);
            var read, left := Read(run, start, s, d), Left(run, start, delay, inputs, outputs, s, d);
            && FirstInFirstOut(read, left, c.voq[s][d]) && InTime(read, left, c.now, delay)
            && Sorted(c.voq) && c.now == start + |run|
    decreases |run|
  {
    hide FirstInFirstOut, InTime, Sorted, Of, Switched, After, Read, Left;
    if run == [] {
      NothingRead(start, delay, inputs, outputs, s, d);
    } else {
      var t := |run| - 1;
      RunsAreFirstInFirstOut(run[..t], start, delay, inputs, outputs, s, d);
      LastSlot(run, start, delay, inputs, outputs, s, d);
      var c := After(run[..t], start, delay, inputs, outputs);
      SwitchedQueue(c.voq, c.now, run[t].offered, run[t].inMatch, delay, inputs, outputs, s, d);
      var sent := Switched(Plant(c.voq, Fill(outputs, [])), c.now, run[t].offered, run[t].inMatch, delay, inputs,
                           outputs);
      OneStep(Read(run[..t], start, s, d), Left(run[..t], start, delay, inputs, outputs, s, d), c.voq[s][d],
              Stamped(Of(run[t].offered, s, d), c.now), Of(sent.out[d], s, d), sent.voq[s][d], c.now, delay);
    }
  }

  /** So arrival stamps never decrease along a queue. */
  lemma QueuesAreInOrder(run: seq<Input>, start: nat, delay: nat, inputs: nat, outputs: nat, s: nat, d: nat)
    requires LegalRun(run, inputs, outputs) && s < inputs && d < outputs
    ensures var queue := After(run, start, delay, inputs, outputs).voq[s][d];
            forall i, j :: 0 <= i < j < |queue| ==> queue[i].arrivalTime <= queue[j].arrivalTime
  {
    RunsAreFirstInFirstOut(run, start, delay, inputs, outputs, s, d);
  }
}
