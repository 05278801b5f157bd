/** The simplified and the generic input-queued switch, proved against `Voq` and `SwitchSpec`. */
module Switches {
  import opened Matchings
  import opened QueueOrder
  import opened Sums
  import opened SwitchSpec
  import opened Voq

  /** Entry number `k` of a reused list is written in place, or appended when the list is too short. */
  function Recorded(list: seq<Pair>, k: nat, p: Pair): (r: seq<Pair>)
    requires k <= |list|
    ensures k < |r| && r[..k + 1] == list[..k] + [p]
  {
    if k < |list| then list[k := p] else list + [p]
  }

  /** Entry `k`, if there is one, becomes the sentinel. */
  function SentinelAt(list: seq<Pair>, k: nat): (r: seq<Pair>)
    requires k <= |list|
    ensures |r| == |list| && r[..k] == list[..k] && (k < |r| ==> r[k].0 == SENTINEL)
  {
    if k < |list| then list[k := (SENTINEL, SENTINEL)] else list
  }

  /** A list whose first `k` entries are `live` and whose next is the sentinel denotes `live`. */
  lemma LiveIs(list: seq<Pair>, k: nat, live: seq<Pair>)
    requires k <= |list| && list[..k] == live && NoSentinel(live) && (k < |list| ==> list[k].0 == SENTINEL)
    ensures Live(list) == live
  {
    assert forall x :: 0 <= x < k ==> list[x] == live[x];
    LiveIsPrefix(list, k);
  }

  /** Every decision uses an output once at most. */
  ghost predicate MatchesOnce<S(!new)>(sched: SchedulerStep<S>, outputs: nat) {
    forall x: S, a: seq<Pair>, q: seq<seq<int>> {:trigger sched(x, a, q)} ::
      IsPartialInjection(sched(x, a, q).1, outputs)
  }

  ghost predicate NoSentinel(list: seq<Pair>) {
    forall x :: 0 <= x < |list| ==> list[x].0 != SENTINEL
  }

  /** The list closed after its first `k` entries, if there is anything left to hide. */
  function Closed(list: seq<Pair>, k: nat, mark: Pair): (r: seq<Pair>)
    requires k <= |list| && mark.0 == SENTINEL
    requires NoSentinel(list[..k])
    ensures Live(r) == list[..k]
  {
    var r := if k < |list| then list[k := mark] else list;
    assert r[..k] == list[..k];
    LiveIs(r, k, list[..k]);
    r
  }

  /** The packets in `read` have been taken from the channels, in order, up to channel `c`. */
  ghost predicate Reading(read: seq<Packet>, channels: seq<seq<Packet>>, c: nat, all: seq<Packet>) {
    && c <= |channels| && (forall x :: 0 <= x < c ==> channels[x] == [])
    && read + Offered(channels) == all
  }

  lemma ReadStep(read: seq<Packet>, channels: seq<seq<Packet>>, c: nat, all: seq<Packet>)
    requires Reading(read, channels, c, all) && c < |channels| && channels[c] != []
    ensures Reading(read + [channels[c][0]], channels[c := channels[c][1..]], c, all)
    ensures Pairs(all)[|read|] == channels[c][0].Pair() && |read| < |all|
    ensures Pairs(read + [channels[c][0]]) == Pairs(read) + [channels[c][0].Pair()]
  {
    OfferedPop(channels, c);
  }

  /** Once all channels are empty the packets read are all there were, and none carries the sentinel. */
  lemma ReadingDone(read: seq<Packet>, channels: seq<seq<Packet>>, all: seq<Packet>, inputs: nat, outputs: nat)
    requires Reading(read, channels, |channels|, all) && InRange(Pairs(all), inputs, outputs)
    ensures read == all && channels == Fill(|channels|, []) && NoSentinel(Pairs(read))
  {
    OfferedNothing(channels);
  }

  lemma PushedStep(voq: Queues, read: seq<Packet>, pkt: Packet, now: nat, inputs: nat, outputs: nat)
    requires IsGrid(voq, inputs, outputs) && InRange(Pairs(read), inputs, outputs)
    requires 0 <= pkt.source < inputs && 0 <= pkt.destination < outputs
    ensures InRange(Pairs(read + [pkt]), inputs, outputs)
    ensures Pushed(voq, read + [pkt], now, inputs, outputs)
            == PushOne(Pushed(voq, read, now, inputs, outputs), pkt, now)
  {
    assert (read + [pkt])[..|read|] == read;
    assert Pairs(read + [pkt]) == Pairs(read) + [pkt.Pair()];
  }

  /** The simplified switch keeps only queue lengths; it has output channels but sends nothing on them. */
  class SIQSwitch {
    const numInputs: nat
    const numOutputs: nat
    var channelInstalled: bool
    var inputChannel: seq<seq<Packet>>
    var outputChannel: seq<seq<Packet>>
    var queueLenMat: seq<seq<int>>
    var arrivals: seq<Pair>
    var departures: seq<Pair>

    ghost predicate Valid()
      reads this
    {
      && IsLengthGrid(queueLenMat, numInputs, numOutputs)
      && |inputChannel| == numInputs && |outputChannel| == numOutputs
    }

    /** What is seen of the last slot. */
    ghost function Seen(): Observation
      reads this
    {
      Observation(Live(arrivals), Live(departures), queueLenMat)
    }

    constructor (numInputs: nat, numOutputs: nat)
      ensures Valid() && this.numInputs == numInputs && this.numOutputs == numOutputs && channelInstalled
      ensures forall s, d :: 0 <= s < numInputs && 0 <= d < numOutputs ==> queueLenMat[s][d] == 0
      ensures inputChannel == Fill(numInputs, []) && outputChannel == Fill(numOutputs, [])
    {
      this.numInputs := numInputs;
      this.numOutputs := numOutputs;
      channelInstalled := true;
      inputChannel := Fill(numInputs, []);
      outputChannel := Fill(numOutputs, []);
      queueLenMat := Fill(numInputs, Fill(numOutputs, 0));
      arrivals := [];
      departures := [];
    }

    /** Counts one received packet and lists it as arrival number `k`. */
    method Admit(pkt: Packet, k: nat)
      requires Valid() && 0 <= pkt.source < numInputs && 0 <= pkt.destination < numOutputs && k <= |arrivals|
      modifies this`queueLenMat, this`arrivals
      ensures Valid() && queueLenMat == Bumped(old(queueLenMat), pkt.Pair())
      ensures k < |arrivals| && arrivals[..k + 1] == old(arrivals)[..k] + [pkt.Pair()]
    {
      queueLenMat := SetAt(queueLenMat, pkt.source, pkt.destination, queueLenMat[pkt.source][pkt.destination] + 1);
      arrivals := Recorded(arrivals, k, pkt.Pair());
    }

    /** Empties channel `c`, the earlier ones being empty; `q` are the lengths before the slot. */
    method ReadChannel(c: nat, k: nat, ghost read: seq<Packet>, ghost all: seq<Packet>, ghost q: seq<seq<int>>)
      returns (k': nat, ghost read': seq<Packet>)
      requires Valid() && c < numInputs && Reading(read, inputChannel, c, all)
      requires InRange(Pairs(all), numInputs, numOutputs)
      requires k == |read| <= |arrivals| && arrivals[..k] == Pairs(read) && queueLenMat == Enqueued(q, Pairs(read))
      modifies this`inputChannel, this`queueLenMat, this`arrivals
      ensures Valid() && Reading(read', inputChannel, c + 1, all)
      ensures k' == |read'| <= |arrivals| && arrivals[..k'] == Pairs(read') && queueLenMat == Enqueued(q, Pairs(read'))
    {
      k', read' := k, read;
      while inputChannel[c] != []
        invariant Valid() && Reading(read', inputChannel, c, all)
        invariant k' == |read'| <= |arrivals| && arrivals[..k'] == Pairs(read')
        invariant queueLenMat == Enqueued(q, Pairs(read'))
        decreases |inputChannel[c]|
      {
        var pkt := inputChannel[c][0];
        ReadStep(read', inputChannel, c, all);
        EnqueuedStep(q, Pairs(read'), pkt.Pair());
        inputChannel := inputChannel[c := inputChannel[c][1..]];
        Admit(pkt, k');
        read' := read' + [pkt];
        k' := k' + 1;
      }
    }

    /** Empties the input channels into the counters and lists the arrivals; without channels it only complains. */
    method ReadInputs() returns (ok: bool)
      requires Valid() && InRange(Pairs(Offered(inputChannel)), numInputs, numOutputs)
      modifies this`inputChannel, this`queueLenMat, this`arrivals
      ensures Valid() && ok == channelInstalled
      ensures !ok ==>
        inputChannel == old(inputChannel) && queueLenMat == old(queueLenMat) && arrivals == old(arrivals)
      ensures ok ==>
        && Live(arrivals) == Pairs(Offered(old(inputChannel)))
        && queueLenMat == Enqueued(old(queueLenMat), Live(arrivals))
        && inputChannel == Fill(numInputs, [])
    {
      if !channelInstalled {
        return false;
      }
      ghost var all := Offered(inputChannel);
      ghost var read: seq<Packet> := [];
      var numArrivals := 0;
      for c := 0 to numInputs
        invariant Valid() && Reading(read, inputChannel, c, all)
        invariant numArrivals == |read| <= |arrivals| && arrivals[..numArrivals] == Pairs(read)
        invariant queueLenMat == Enqueued(old(queueLenMat), Pairs(read))
      {
        numArrivals, read := ReadChannel(c, numArrivals, read, all, old(queueLenMat));
      }
      ReadingDone(read, inputChannel, all, numInputs, numOutputs);
      arrivals := Closed(arrivals, numArrivals, (SENTINEL, SENTINEL));
      return true;
    }

    /** One packet leaves every matched nonempty queue, and the departures are listed in input order. */
    method WriteOutputs(inMatch: seq<int>) returns (ok: bool)
      requires Valid() && IsMatchVector(inMatch, numInputs, numOutputs)
      modifies this`queueLenMat, this`departures
      ensures Valid() && ok == channelInstalled
      ensures !ok ==> queueLenMat == old(queueLenMat) && departures == old(departures)
      ensures ok ==>
        && queueLenMat == Departed(old(queueLenMat), inMatch)
        && Live(departures) == DepartedPairs(old(queueLenMat), inMatch, numInputs)
    {
      if !channelInstalled {
        return false;
      }
      ghost var q := queueLenMat;
      var numDeparts := 0;
      for src := 0 to numInputs
        invariant queueLenMat == DepartedBelow(q, inMatch, src, numInputs, numOutputs)
        invariant numDeparts <= |departures| && departures[..numDeparts] == DepartedPairs(q, inMatch, src)
      {
        var dst := inMatch[src];
        if dst != UNMATCHED && queueLenMat[src][dst] != 0 {
          queueLenMat := SetAt(queueLenMat, src, dst, queueLenMat[src][dst] - 1);
          departures := Recorded(departures, numDeparts, (src, dst));
          numDeparts := numDeparts + 1;
        }
      }
      DepartedBelowAll(q, inMatch, numInputs, numOutputs);
      departures := Closed(departures, numDeparts, (SENTINEL, SENTINEL));
      return true;
    }

    /** One switching cycle: read, let the scheduler decide from the arrivals and the lengths, write. */
    method Switching<S(!new)>(x: S, sched: SchedulerStep<S>) returns (x': S, inMatch: seq<int>)
      requires Valid() && channelInstalled && Matches(sched, numInputs, numOutputs)
      requires InRange(Pairs(Offered(inputChannel)), numInputs, numOutputs)
      modifies this`inputChannel, this`queueLenMat, this`arrivals, this`departures
      ensures Valid() && inputChannel == Fill(numInputs, [])
      ensures (x', inMatch) == sched(x, Live(arrivals), Enqueued(old(queueLenMat), Live(arrivals)))
      ensures (queueLenMat, x', Seen())
              == SimplifiedSlot(old(queueLenMat), x, sched, Offered(old(inputChannel)), numInputs, numOutputs)
    {
      var _ := ReadInputs();
      var decision := sched(x, Live(arrivals), queueLenMat);
      x', inMatch := decision.0, decision.1;
      var _ := WriteOutputs(inMatch);
    }
  }

  /** The generic switch buffers the packets themselves. */
  class GIQSwitch {
    const numInputs: nat
    const numOutputs: nat
    const delay: nat
    const enableDepartureInfo: bool
    var channelInstalled: bool
    var inputChannel: seq<seq<Packet>>
    var outputChannel: seq<seq<Packet>>
    var voq: Queues
    var arrivals: seq<Pair>
    var departures: seq<Pair>
    var timer: nat

    ghost predicate Shape()
      reads this
    {
      && IsGrid(voq, numInputs, numOutputs)
      && |inputChannel| == numInputs && |outputChannel| == numOutputs
    }

    /** Every packet waits in the queue of its own source and destination. */
    ghost predicate Valid()
      reads this
    {
      Shape() && Sorted(voq)
    }

    /** What is seen of the last slot. */
    ghost function Seen(): Observation
      reads this
    {
      Observation(Live(arrivals), Live(departures), Lengths(voq))
    }

    /** The packets inside the switch. */
    ghost function Inside(): Plant
      reads this
    {
      Plant(voq, outputChannel)
    }

    constructor (numInputs: nat, numOutputs: nat, delay: nat, enableDepartureInfo: bool)
      ensures Valid() && this.numInputs == numInputs && this.numOutputs == numOutputs && this.delay == delay
      ensures channelInstalled && timer == 0 && this.enableDepartureInfo == enableDepartureInfo
      ensures voq == Fill(numInputs, Fill(numOutputs, [])) && outputChannel == Fill(numOutputs, [])
      ensures inputChannel == Fill(numInputs, [])
    {
      EmptyIsSorted(numInputs, numOutputs);
      this.numInputs := numInputs;
      this.numOutputs := numOutputs;
      this.delay := delay;
      this.enableDepartureInfo := enableDepartureInfo;
      channelInstalled := true;
      inputChannel := Fill(numInputs, []);
      outputChannel := Fill(numOutputs, []);
      voq := Fill(numInputs, Fill(numOutputs, []));
      arrivals := [];
      departures := [];
      timer := 0;
    }

    /** Queues one received packet and lists it as arrival number `k`. */
    method Admit(pkt: Packet, k: nat)
      requires Shape() && 0 <= pkt.source < numInputs && 0 <= pkt.destination < numOutputs && k <= |arrivals|
      modifies this`voq, this`arrivals
      ensures Shape() && voq == PushOne(old(voq), pkt, timer)
      ensures k < |arrivals| && arrivals[..k + 1] == old(arrivals)[..k] + [pkt.Pair()]
    {
      voq := PushOne(voq, pkt, timer);
      arrivals := Recorded(arrivals, k, pkt.Pair());
    }

    /** Empties channel `c`, the earlier ones being empty; `base` are the queues before the slot. */
    method ReadChannel(c: nat, k: nat, ghost read: seq<Packet>, ghost all: seq<Packet>, ghost base: Queues)
      returns (k': nat, ghost read': seq<Packet>)
      requires Shape() && c < numInputs && Reading(read, inputChannel, c, all)
      requires InRange(Pairs(all), numInputs, numOutputs) && InRange(Pairs(read), numInputs, numOutputs)
      requires IsGrid(base, numInputs, numOutputs) && voq == Pushed(base, read, timer, numInputs, numOutputs)
      requires k == |read| <= |arrivals| && arrivals[..k] == Pairs(read)
      modifies this`inputChannel, this`voq, this`arrivals
      ensures Shape() && Reading(read', inputChannel, c + 1, all) && InRange(Pairs(read'), numInputs, numOutputs)
      ensures k' == |read'| <= |arrivals| && arrivals[..k'] == Pairs(read')
      ensures voq == Pushed(base, read', timer, numInputs, numOutputs)
    {
      k', read' := k, read;
      while inputChannel[c] != []
        invariant Shape() && Reading(read', inputChannel, c, all) && InRange(Pairs(read'), numInputs, numOutputs)
        invariant k' == |read'| <= |arrivals| && arrivals[..k'] == Pairs(read')
        invariant voq == Pushed(base, read', timer, numInputs, numOutputs)
        decreases |inputChannel[c]|
      {
        var pkt := inputChannel[c][0];
        ReadStep(read', inputChannel, c, all);
        PushedStep(base, read', pkt, timer, numInputs, numOutputs);
        inputChannel := inputChannel[c := inputChannel[c][1..]];
        Admit(pkt, k');
        read' := read' + [pkt];
        k' := k' + 1;
      }
    }

    /** Empties the input channels into the queues and lists the arrivals. */
    method ReadAll() returns (numArrivals: nat)
      requires Shape() && InRange(Pairs(Offered(inputChannel)), numInputs, numOutputs)
      modifies this`inputChannel, this`voq, this`arrivals
      ensures Shape() && inputChannel == Fill(numInputs, []) && numArrivals <= |arrivals|
      ensures arrivals[..numArrivals] == Pairs(Offered(old(inputChannel))) && NoSentinel(arrivals[..numArrivals])
      ensures voq == Pushed(old(voq), Offered(old(inputChannel)), timer, numInputs, numOutputs)
    {
      ghost var all := Offered(inputChannel);
      ghost var read: seq<Packet> := [];
      numArrivals := 0;
      for c := 0 to numInputs
        invariant Shape() && Reading(read, inputChannel, c, all) && InRange(Pairs(read), numInputs, numOutputs)
        invariant numArrivals == |read| <= |arrivals| && arrivals[..numArrivals] == Pairs(read)
        invariant voq == Pushed(old(voq), read, timer, numInputs, numOutputs)
      {
        numArrivals, read := ReadChannel(c, numArrivals, read, all, old(voq));
      }
      ReadingDone(read, inputChannel, all, numInputs, numOutputs);
    }

    /** Empties the input channels into the queues, stamping each packet; fails without channels. */
    method ReadInputs() returns (ok: bool)
      requires Valid() && InRange(Pairs(Offered(inputChannel)), numInputs, numOutputs)
      modifies this`inputChannel, this`voq, this`arrivals
      ensures Valid() && ok == channelInstalled
      ensures !ok ==> inputChannel == old(inputChannel) && voq == old(voq) && arrivals == old(arrivals)
      ensures ok ==>
        && Live(arrivals) == Pairs(Offered(old(inputChannel)))
        && Inside() == ReadIn(old(Inside()), timer, Offered(old(inputChannel)), numInputs, numOutputs)
        && inputChannel == Fill(numInputs, [])
        && AllHaveJoined(old(voq), voq, Offered(old(inputChannel)), timer, numInputs, numOutputs)
    {
      hide AllHaveJoined;
      if !channelInstalled {
        return false;
      }
      ghost var all := Offered(inputChannel);
      var numArrivals := ReadAll();
      PushedKeepsSorted(old(voq), all, timer, numInputs, numOutputs);
      PushedHaveJoined(old(voq), all, timer, numInputs, numOutputs);
      arrivals := Closed(arrivals, numArrivals,
                         (SENTINEL, if numArrivals < |arrivals| then arrivals[numArrivals].1 else SENTINEL));
      return true;
    }

    /** The first packet of queue (src, dst) leaves. */
    method SendFirst(src: nat, dst: nat)
      requires Shape() && src < numInputs && dst < numOutputs && voq[src][dst] != []
      modifies this`voq, this`outputChannel
      ensures Shape() && Inside() == Send(old(Inside()), src, dst, timer + delay)
    {
      var pkt := voq[src][dst][0].(departureTime := timer + delay);
      outputChannel := outputChannel[dst := outputChannel[dst] + [pkt]];
      voq := SetAt(voq, src, dst, voq[src][dst][1..]);
    }

    /** Without departure information the matching must not use an output twice. */
    method WriteOutputsDepartInfoDisabled(inMatch: seq<int>)
      requires Shape() && IsMatchVector(inMatch, numInputs, numOutputs) && IsPartialInjection(inMatch, numOutputs)
      modifies this`voq, this`outputChannel
      ensures Shape() && Inside() == SentBelow(old(Inside()), inMatch, timer + delay, numInputs, numInputs, numOutputs)
    {
      var outputOccupancy := Fill(numOutputs, false);
      ghost var plant := Inside();
      for src := 0 to numInputs
        invariant Shape() && |outputOccupancy| == numOutputs
        invariant Inside() == SentBelow(plant, inMatch, timer + delay, src, numInputs, numOutputs)
        invariant forall d :: 0 <= d < numOutputs && outputOccupancy[d] ==> exists s :: 0 <= s < src && inMatch[s] == d
      {
        var dst := inMatch[src];
        if dst != UNMATCHED && voq[src][dst] != [] {
          assert !outputOccupancy[dst];
          outputOccupancy := outputOccupancy[dst := true];
          SendFirst(src, dst);
        }
      }
    }

    /** The queue of input `src` for its match sends and lists its packet as departure number `k`, if it has one. */
    method SendListed(src: nat, dst: int, k: nat) returns (k': nat)
      requires Shape() && src < numInputs && k <= |departures| && (dst == UNMATCHED || 0 <= dst < numOutputs)
      modifies this`voq, this`outputChannel, this`departures
      ensures Shape() && k' <= |departures| && (k' < |departures| ==> departures[k'].0 == SENTINEL)
      ensures var none := dst == UNMATCHED || old(voq[src][dst]) == [];
              && Inside() == (if none then old(Inside()) else Send(old(Inside()), src, dst, timer + delay))
              && departures[..k'] == old(departures[..k]) + if none then [] else [old(voq[src][dst][0]).Pair()]
    {
      k' := k;
      if dst != UNMATCHED && voq[src][dst] != [] {
        var pkt := voq[src][dst][0];
        SendFirst(src, dst);
        departures := Recorded(departures, k, pkt.Pair());
        k' := k + 1;
      }
      departures := SentinelAt(departures, k');
    }

    /** With departure information the departures are listed, the sentinel moving along. */
    method WriteOutputsDepartInfoEnabled(inMatch: seq<int>)
      requires Valid() && IsMatchVector(inMatch, numInputs, numOutputs) && numInputs > 0
      modifies this`voq, this`outputChannel, this`departures
      ensures Shape() && Inside() == SentBelow(old(Inside()), inMatch, timer + delay, numInputs, numInputs, numOutputs)
      ensures Live(departures) == SentPairs(old(voq), inMatch, numInputs, numInputs, numOutputs)
    {
      hide Sorted, Live;
      var numDeparts: nat := 0;
      ghost var plant := Inside();
      for src := 0 to numInputs
        invariant Shape() && numDeparts <= |departures|
        invariant Inside() == SentBelow(plant, inMatch, timer + delay, src, numInputs, numOutputs)
        invariant departures[..numDeparts] == SentPairs(plant.voq, inMatch, src, numInputs, numOutputs)
        invariant src > 0 && numDeparts < |departures| ==> departures[numDeparts].0 == SENTINEL
      {
        assert voq[src] == plant.voq[src];
        numDeparts := SendListed(src, inMatch[src], numDeparts);
      }
      SentPairsAreDeparted(plant.voq, inMatch, numInputs, numInputs, numOutputs);
      LiveIs(departures, numDeparts, SentPairs(plant.voq, inMatch, numInputs, numInputs, numOutputs));
    }

    /** One packet of every matched nonempty queue goes to its output channel; fails without channels. */
    method WriteOutputs(inMatch: seq<int>) returns (ok: bool)
      requires Valid() && IsMatchVector(inMatch, numInputs, numOutputs) && numInputs > 0
      requires !enableDepartureInfo ==> IsPartialInjection(inMatch, numOutputs)
      modifies this`voq, this`outputChannel, this`departures
      ensures Valid() && ok == channelInstalled
      ensures !ok ==> Inside() == old(Inside()) && departures == old(departures)
      ensures ok ==> Inside() == SentBelow(old(Inside()), inMatch, timer + delay, numInputs, numInputs, numOutputs)
      ensures ok && enableDepartureInfo ==>
        Live(departures) == SentPairs(old(voq), inMatch, numInputs, numInputs, numOutputs)
    {
      if !channelInstalled {
        return false;
      }
      SentKeepsSorted(Inside(), inMatch, timer + delay, numInputs, numOutputs);
      if enableDepartureInfo {
        WriteOutputsDepartInfoEnabled(inMatch);
      } else {
        WriteOutputsDepartInfoDisabled(inMatch);
      }
      return true;
    }

    /** One switching cycle: read, let the scheduler decide from arrivals and lengths, write, advance the timer. */
    method Switching<S(!new)>(x: S, sched: SchedulerStep<S>) returns (x': S, inMatch: seq<int>)
      requires Valid() && channelInstalled && numInputs > 0 && Matches(sched, numInputs, numOutputs)
      requires InRange(Pairs(Offered(inputChannel)), numInputs, numOutputs)
      requires !enableDepartureInfo ==> MatchesOnce(sched, numOutputs)
      modifies this`inputChannel, this`outputChannel, this`voq, this`arrivals, this`departures, this`timer
      ensures Valid() && timer == old(timer) + 1 && inputChannel == Fill(numInputs, [])
      ensures Live(arrivals) == Pairs(Offered(old(inputChannel)))
      ensures var loaded := ReadIn(old(Inside()), old(timer), Offered(old(inputChannel)), numInputs, numOutputs).voq;
              && (x', inMatch) == sched(x, Live(arrivals), Lengths(loaded))
              && (enableDepartureInfo ==>
                    Live(departures) == SentPairs(loaded, inMatch, numInputs, numInputs, numOutputs))
      ensures Inside()
              == Switched(old(Inside()), old(timer), Offered(old(inputChannel)), inMatch, delay, numInputs, numOutputs)
    {
      ghost var plant, offered := Inside(), Offered(inputChannel);
      hide Sorted, Live, InRange, Offered, AllHaveJoined;
      var _ := ReadInputs();
      ghost var loaded := Inside();
      var decision := sched(x, Live(arrivals), Lengths(voq));
      x', inMatch := decision.0, decision.1;
      SwitchedIs(plant, timer, offered, inMatch, delay, numInputs, numOutputs, loaded);
      var _ := WriteOutputs(inMatch);
      timer := timer + 1;
    }
  }

  // Both switches side by side

  /** Same ports and lengths; the generic switch lists its departures, and its output channels are empty. */
  ghost predicate SideBySide(simple: SIQSwitch, generic: GIQSwitch)
    reads simple, generic
  {
    && simple.Valid() && generic.Valid() && simple.channelInstalled && generic.channelInstalled
    && simple.numInputs == generic.numInputs > 0 && simple.numOutputs == generic.numOutputs
    && generic.enableDepartureInfo && generic.outputChannel == Fill(generic.numOutputs, [])
    && simple.queueLenMat == Lengths(generic.voq)
  }

  /** The class's cycle is the slot of the refinement theorem. */
  lemma CycleIsSlot<S(!new)>(voq: Queues, now: nat, delay: nat, x: S, sched: SchedulerStep<S>, offered: seq<Packet>,
      inputs: nat, outputs: nat, x': S, inMatch: seq<int>, sent: Plant)
    requires IsGrid(voq, inputs, outputs) && Matches(sched, inputs, outputs)
    requires InRange(Pairs(offered), inputs, outputs)
    requires var loaded := ReadIn(Plant(voq, Fill(outputs, [])), now, offered, inputs, outputs).voq;
             (x', inMatch) == sched(x, Pairs(offered), Lengths(loaded))
    requires IsMatchVector(inMatch, inputs, outputs)
    requires sent == Switched(Plant(voq, Fill(outputs, [])), now, offered, inMatch, delay, inputs, outputs)
    ensures var loaded := Pushed(voq, offered, now, inputs, outputs);
            GenericSlot(voq, now, delay, x, sched, offered, inputs, outputs)
            == (sent.voq, x', Observation(Pairs(offered), SentPairs(loaded, inMatch, inputs, inputs, outputs),
                                          Lengths(sent.voq)))
  {
  }

  /** The simplified switch reads packets and runs a cycle. */
  method SimplifiedCycle<S(!new)>(sw: SIQSwitch, x: S, sched: SchedulerStep<S>, channels: seq<seq<Packet>>)
    returns (x': S)
    requires sw.Valid() && sw.channelInstalled && Matches(sched, sw.numInputs, sw.numOutputs)
    requires |channels| == sw.numInputs && InRange(Pairs(Offered(channels)), sw.numInputs, sw.numOutputs)
    modifies sw
    ensures sw.Valid() && sw.channelInstalled
    ensures (sw.queueLenMat, x', sw.Seen())
            == SimplifiedSlot(old(sw.queueLenMat), x, sched, Offered(channels), sw.numInputs, sw.numOutputs)
  {
    sw.inputChannel := channels;
    hide SimplifiedSlot;
    var inMatch;
    x', inMatch := sw.Switching(x, sched);
  }

  /** The generic switch reads packets, runs a cycle and has its output channels emptied. */
  method GenericCycle<S(!new)>(sw: GIQSwitch, x: S, sched: SchedulerStep<S>, channels: seq<seq<Packet>>) returns (x': S)
    requires sw.Valid() && sw.channelInstalled && sw.numInputs > 0 && sw.enableDepartureInfo
    requires sw.outputChannel == Fill(sw.numOutputs, []) && Matches(sched, sw.numInputs, sw.numOutputs)
    requires |channels| == sw.numInputs && InRange(Pairs(Offered(channels)), sw.numInputs, sw.numOutputs)
    modifies sw
    ensures sw.Valid() && sw.channelInstalled && sw.outputChannel == Fill(sw.numOutputs, [])
    ensures sw.timer == old(sw.timer) + 1 && sw.inputChannel == Fill(sw.numInputs, [])
    ensures (sw.voq, x', sw.Seen())
            == GenericSlot(old(sw.voq), old(sw.timer), sw.delay, x, sched, Offered(channels), sw.numInputs,
                           sw.numOutputs)
  {
    ghost var voq, now, offered := sw.voq, sw.timer, Offered(channels);
    sw.inputChannel := channels;
    hide GenericSlot, Switched, Sorted, Live;
    ghost var plant := sw.Inside();
    var inMatch;
    x', inMatch := sw.Switching(x, sched);
    CycleIsSlot(voq, now, sw.delay, x, sched, offered, sw.numInputs, sw.numOutputs, x', inMatch, sw.Inside());
    sw.outputChannel := Fill(sw.numOutputs, []);
  }

  /** Both switches read the same packets and ask the same scheduler, each showing it its own lengths. */
  method SlotOfBoth<S(!new)>(simple: SIQSwitch, generic: GIQSwitch, x: S, sched: SchedulerStep<S>,
      channels: seq<seq<Packet>>)
    returns (x': S)
    requires SideBySide(simple, generic) && Matches(sched, simple.numInputs, simple.numOutputs)
    requires |channels| == simple.numInputs
    requires InRange(Pairs(Offered(channels)), simple.numInputs, simple.numOutputs)
    modifies simple, generic
    ensures SideBySide(simple, generic) && simple.Seen() == generic.Seen()
    ensures (simple.queueLenMat, x', simple.Seen())
            == SimplifiedSlot(old(simple.queueLenMat), x, sched, Offered(channels), simple.numInputs, simple.numOutputs)
  {
    var inputs, outputs := simple.numInputs, simple.numOutputs;
    SlotRefines(generic.voq, generic.timer, generic.delay, x, sched, Offered(channels), inputs, outputs);
    hide SimplifiedSlot, GenericSlot, Sorted, Matches, InRange, Offered;
    x' := SimplifiedCycle(simple, x, sched, channels);
    var _ := GenericCycle(generic, x, sched, channels);
  }

  /** What is read in each slot. */
  ghost function Reads(offers: seq<seq<seq<Packet>>>): (r: seq<seq<Packet>>)
    ensures |r| == |offers| && forall t :: 0 <= t < |r| ==> r[t] == Offered(offers[t])
  {
    seq(|offers|, t requires 0 <= t < |offers| => Offered(offers[t]))
  }

  /** What was seen in the first `t` slots and what the run shows from there make up the whole run. */
  ghost predicate SeenSoFar<S(!new)>(seen: seq<Observation>, q: seq<seq<int>>, x: S, t: nat, q0: seq<seq<int>>, x0: S,
      sched: SchedulerStep<S>, run: seq<seq<Packet>>, inputs: nat, outputs: nat)
    requires Matches(sched, inputs, outputs) && IsGrid(q0, inputs, outputs)
  {
    && t <= |run| && IsGrid(q, inputs, outputs)
    && seen + SimplifiedRun(q, x, sched, run[t..], inputs, outputs)
       == SimplifiedRun(q0, x0, sched, run, inputs, outputs)
  }

  lemma SeenOneMore<S(!new)>(seen: seq<Observation>, q: seq<seq<int>>, x: S, t: nat, q0: seq<seq<int>>, x0: S,
      sched: SchedulerStep<S>, run: seq<seq<Packet>>, inputs: nat, outputs: nat, q': seq<seq<int>>, x': S,
      next: Observation)
    requires Matches(sched, inputs, outputs) && IsGrid(q0, inputs, outputs) && IsGrid(q, inputs, outputs)
    requires SeenSoFar(seen, q, x, t, q0, x0, sched, run, inputs, outputs) && t < |run|
    requires (q', x', next) == SimplifiedSlot(q, x, sched, run[t], inputs, outputs)
    ensures SeenSoFar(seen + [next], q', x', t + 1, q0, x0, sched, run, inputs, outputs)
  {
    hide SimplifiedSlot, Matches;
    assert run[t..][0] == run[t] && run[t..][1..] == run[t + 1..];
  }

  lemma SeenAtStart<S(!new)>(q0: seq<seq<int>>, x0: S, sched: SchedulerStep<S>, run: seq<seq<Packet>>, inputs: nat,
      outputs: nat)
    requires Matches(sched, inputs, outputs) && IsGrid(q0, inputs, outputs)
    ensures SeenSoFar([], q0, x0, 0, q0, x0, sched, run, inputs, outputs)
  {
    assert run[0..] == run;
  }

  lemma SeenAtEnd<S(!new)>(seen: seq<Observation>, q: seq<seq<int>>, x: S, q0: seq<seq<int>>, x0: S,
      sched: SchedulerStep<S>, run: seq<seq<Packet>>, inputs: nat, outputs: nat)
    requires Matches(sched, inputs, outputs) && IsGrid(q0, inputs, outputs)
    requires SeenSoFar(seen, q, x, |run|, q0, x0, sched, run, inputs, outputs)
    ensures seen == SimplifiedRun(q0, x0, sched, run, inputs, outputs)
  {
  }

  method StartBoth(inputs: nat, outputs: nat, delay: nat) returns (simple: SIQSwitch, generic: GIQSwitch)
    requires inputs > 0
    ensures fresh(simple) && fresh(generic) && SideBySide(simple, generic)
    ensures simple.numInputs == inputs && simple.numOutputs == outputs && generic.timer == 0 && generic.delay == delay
    ensures simple.queueLenMat == Fill(inputs, Fill(outputs, 0))
  {
    simple := new SIQSwitch(inputs, outputs);
    generic := new GIQSwitch(inputs, outputs, delay, true);
    GridsEqual(simple.queueLenMat, Fill(inputs, Fill(outputs, 0)));
    GridsEqual(Lengths(generic.voq), Fill(inputs, Fill(outputs, 0)));
  }

  /** Runs from empty queues look the same for both switches. */
  lemma EmptyRunsAgree<S(!new)>(delay: nat, x: S, sched: SchedulerStep<S>, run: seq<seq<Packet>>, inputs: nat,
      outputs: nat)
    requires Matches(sched, inputs, outputs)
    requires forall t :: 0 <= t < |run| ==> InRange(Pairs(run[t]), inputs, outputs)
    ensures GenericRun(Fill(inputs, Fill(outputs, [])), 0, delay, x, sched, run, inputs, outputs)
            == SimplifiedRun(Fill(inputs, Fill(outputs, 0)), x, sched, run, inputs, outputs)
  {
    var empty: Queues := Fill(inputs, Fill(outputs, []));
    EmptyIsSorted(inputs, outputs);
    GridsEqual(Lengths(empty), Fill(inputs, Fill(outputs, 0)));
    SimplifiedRefinesGeneric(empty, 0, delay, x, sched, run, inputs, outputs);
  }

  /** From the constructors on, the two classes show the same run, which is the run of the refinement theorem. */
  method RunOfBoth<S(!new)>(inputs: nat, outputs: nat, delay: nat, x0: S, sched: SchedulerStep<S>,
      offers: seq<seq<seq<Packet>>>)
    returns (simple: SIQSwitch, generic: GIQSwitch, ghost seen: seq<Observation>)
    requires inputs > 0 && Matches(sched, inputs, outputs)
    requires forall t :: 0 <= t < |offers| ==>
      |offers[t]| == inputs && InRange(Pairs(Offered(offers[t])), inputs, outputs)
    ensures SideBySide(simple, generic)
    ensures seen == SimplifiedRun(Fill(inputs, Fill(outputs, 0)), x0, sched, Reads(offers), inputs, outputs)
    ensures seen == GenericRun(Fill(inputs, Fill(outputs, [])), 0, delay, x0, sched, Reads(offers), inputs, outputs)
  {
    EmptyRunsAgree(delay, x0, sched, Reads(offers), inputs, outputs);
    simple, generic := StartBoth(inputs, outputs, delay);
    ghost var q0, run := simple.queueLenMat, Reads(offers);
    seen := [];
    var x := x0;
    SeenAtStart(q0, x0, sched, run, inputs, outputs);
    hide SimplifiedRun, GenericRun, SimplifiedSlot, Matches, SeenSoFar, Reads, Offered;
    for t := 0 to |offers|
      invariant SideBySide(simple, generic) && simple.numInputs == inputs && simple.numOutputs == outputs
      invariant SeenSoFar(seen, simple.queueLenMat, x, t, q0, x0, sched, run, inputs, outputs)
    {
      ghost var q, before := simple.queueLenMat, x;
      x := SlotOfBoth(simple, generic, x, sched, offers[t]);
      SeenOneMore(seen, q, before, t, q0, x0, sched, run, inputs, outputs, simple.queueLenMat, x, simple.Seen());
      seen := seen + [simple.Seen()];
    }
    SeenAtEnd(seen, simple.queueLenMat, x, q0, x0, sched, run, inputs, outputs);
  }
}
