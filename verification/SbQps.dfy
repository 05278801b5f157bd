/**
 Small-batch QPS with availability bitmaps: the schedules of a frame, one bitmap and one counter per port,
 and the selection of a matching from the frame.
 */
module SbQps {
  import opened Availability
  import opened FirstFitRounds
  import opened Matchings
  import opened SbQpsSpec
  import opened Selection
  import opened SerenaSpec
  import opened Sums

  /** The bitmap shows in which slots an input is free. */
  ghost predicate ShowsInput(m: AvailabilityMap, scheds: seq<seq<int>>, inp: nat)
    requires forall f :: 0 <= f < |scheds| ==> inp < |scheds[f]|
    reads m
  {
    && m.Valid() && 0 < |scheds| <= 64 * m.asize
    && forall f :: 0 <= f < |scheds| ==> (m.IsFree(f) <==> scheds[f][inp] == UNMATCHED)
  }

  /** The bitmap shows in which slots an output is free. */
  ghost predicate ShowsOutput(m: AvailabilityMap, scheds: seq<seq<int>>, out: nat)
    reads m
  {
    && m.Valid() && 0 < |scheds| <= 64 * m.asize
    && forall f :: 0 <= f < |scheds| ==> (m.IsFree(f) <==> !Takes(scheds[f], out))
  }

  ghost predicate CountInputs(counters: seq<int>, scheds: seq<seq<int>>, inputs: nat)
    requires IsGrid(scheds, |scheds|, inputs)
  {
    |counters| == inputs && forall i :: 0 <= i < inputs ==> counters[i] == FreeSlotsOfInput(scheds, i, |scheds|)
  }

  ghost predicate CountOutputs(counters: seq<int>, scheds: seq<seq<int>>, outputs: nat) {
    |counters| == outputs && forall o :: 0 <= o < outputs ==> counters[o] == FreeSlotsOfOutput(scheds, o, |scheds|)
  }

  lemma CountersDecremented(scheds: seq<seq<int>>, ins: seq<int>, outs: seq<int>, f: nat, inp: nat, out: nat,
      inputs: nat, outputs: nat)
    requires IsGrid(scheds, |scheds|, inputs) && f < |scheds| && inp < inputs && out < outputs
    requires BothFree(scheds, f, inp, out) && CountInputs(ins, scheds, inputs) && CountOutputs(outs, scheds, outputs)
    ensures CountInputs(ins[inp := ins[inp] - 1], scheds[f := scheds[f][inp := out]], inputs)
    ensures CountOutputs(outs[out := outs[out] - 1], scheds[f := scheds[f][inp := out]], outputs)
  {
    forall i | 0 <= i < inputs {
      InputSlotTaken(scheds, f, inp, out, i, |scheds|, inputs);
    }
    forall o | 0 <= o < outputs {
      OutputSlotTaken(scheds, f, inp, out, o, |scheds|, inputs);
    }
  }

  lemma {:induction false} EmptyFrameIsFree(scheds: seq<seq<int>>, p: nat, n: nat, inputs: nat)
    requires IsGrid(scheds, |scheds|, inputs) && n <= |scheds|
    requires forall f, i :: 0 <= f < |scheds| && 0 <= i < inputs ==> scheds[f][i] == UNMATCHED
    ensures p < inputs ==> FreeSlotsOfInput(scheds, p, n) == n
    ensures FreeSlotsOfOutput(scheds, p, n) == n
  {
    if n > 0 {
      EmptyFrameIsFree(scheds, p, n - 1, inputs);
    }
  }

  /** Other ports keep their bitmaps. */
  lemma OthersShow(m: AvailabilityMap, scheds: seq<seq<int>>, f: nat, inp: nat, out: nat, p: nat, inputs: nat)
    requires IsGrid(scheds, |scheds|, inputs) && f < |scheds| && inp < inputs && scheds[f][inp] == UNMATCHED
    ensures p < inputs && p != inp && ShowsInput(m, scheds, p) ==> ShowsInput(m, scheds[f := scheds[f][inp := out]], p)
    ensures p != out && ShowsOutput(m, scheds, p) ==> ShowsOutput(m, scheds[f := scheds[f][inp := out]], p)
  {
    TakesOneMore(scheds[f], inp, out, p);
  }

  /** Marks a slot of an input as used. */
  method UseInput(m: AvailabilityMap, ghost scheds: seq<seq<int>>, f: nat, ghost inp: nat, ghost out: nat,
      ghost inputs: nat)
    requires IsGrid(scheds, |scheds|, inputs) && f < |scheds| && inp < inputs && ShowsInput(m, scheds, inp)
    modifies m
    ensures ShowsInput(m, scheds[f := scheds[f][inp := out]], inp)
  {
    m.Set(f);
  }

  /** Marks a slot of an output as used. */
  method UseOutput(m: AvailabilityMap, ghost scheds: seq<seq<int>>, f: nat, ghost inp: nat, ghost out: nat,
      ghost inputs: nat)
    requires IsGrid(scheds, |scheds|, inputs) && f < |scheds| && inp < inputs && scheds[f][inp] == UNMATCHED
    requires ShowsOutput(m, scheds, out)
    modifies m
    ensures ShowsOutput(m, scheds[f := scheds[f][inp := out]], out)
  {
    TakesOneMore(scheds[f], inp, out, out);
    m.Set(f);
  }

  class Scheduler {
    const numInputs: nat
    const numOutputs: nat
    const frameSize: nat
    const cutoff: int
    const matchAvailIn: seq<AvailabilityMap>
    const matchAvailOut: seq<AvailabilityMap>
    var schedules: seq<seq<int>>
    var inputAvailability: seq<int>
    var outputAvailability: seq<int>

    /** The maps are distinct objects. */
    ghost predicate Shape() {
      && 0 < frameSize <= SIZE && |matchAvailIn| == numInputs && |matchAvailOut| == numOutputs
      && (forall i, k :: 0 <= i < k < numInputs ==> matchAvailIn[i] != matchAvailIn[k])
      && (forall o, k :: 0 <= o < k < numOutputs ==> matchAvailOut[o] != matchAvailOut[k])
      && (forall i, o :: 0 <= i < numInputs && 0 <= o < numOutputs ==> matchAvailIn[i] != matchAvailOut[o])
    }

    /** Bitmaps and counters describe a frame. */
    ghost predicate Describes(scheds: seq<seq<int>>)
      reads this`inputAvailability, this`outputAvailability, matchAvailIn, matchAvailOut
    {
      && Shape() && IsFrame(scheds, frameSize, numInputs, numOutputs)
      && CountInputs(inputAvailability, scheds, numInputs) && CountOutputs(outputAvailability, scheds, numOutputs)
      && (forall i :: 0 <= i < numInputs ==> ShowsInput(matchAvailIn[i], scheds, i))
      && (forall o :: 0 <= o < numOutputs ==> ShowsOutput(matchAvailOut[o], scheds, o))
    }

    /** Schedules, bitmaps and counters describe the same frame. */
    ghost predicate Consistent()
      reads this, matchAvailIn, matchAvailOut
    {
      Describes(schedules)
    }

    constructor (numInputs: nat, numOutputs: nat, frameSize: nat, cutoff: int)
      requires 0 < frameSize <= SIZE
      ensures this.numInputs == numInputs && this.numOutputs == numOutputs
      ensures this.frameSize == frameSize && this.cutoff == cutoff
      ensures Consistent() && fresh(matchAvailIn) && fresh(matchAvailOut)
      ensures schedules == Fill(frameSize, Fill(numInputs, UNMATCHED))
    {
      var maps := NewMaps(numInputs + numOutputs, frameSize);
      this.numInputs, this.numOutputs, this.frameSize, this.cutoff := numInputs, numOutputs, frameSize, cutoff;
      matchAvailIn, matchAvailOut := maps[..numInputs], maps[numInputs..];
      schedules := Fill(frameSize, Fill(numInputs, UNMATCHED));
      inputAvailability := Fill(numInputs, frameSize);
      outputAvailability := Fill(numOutputs, frameSize);
      new;
      EmptyIsConsistent();
    }

    static method NewMaps(n: nat, frameSize: nat) returns (maps: seq<AvailabilityMap>)
      requires 0 < frameSize <= SIZE
      ensures |maps| == n && fresh(maps) && forall x, y :: 0 <= x < y < n ==> maps[x] != maps[y]
      ensures forall x :: 0 <= x < n ==> AllFree(maps[x], frameSize)
    {
      maps := [];
      for i := 0 to n
        invariant |maps| == i && fresh(maps) && forall x, y :: 0 <= x < y < i ==> maps[x] != maps[y]
        invariant forall x :: 0 <= x < i ==> AllFree(maps[x], frameSize)
      {
        var created := new AvailabilityMap(frameSize);
        maps := maps + [created];
      }
    }

    static ghost predicate AllFree(m: AvailabilityMap, frameSize: nat)
      reads m
    {
      m.Valid() && frameSize <= 64 * m.asize && forall k :: 0 <= k < 64 * m.asize ==> m.IsFree(k)
    }

    /** An empty frame with full counters and free bitmaps. */
    lemma EmptyIsConsistent()
      requires Shape() && schedules == Fill(frameSize, Fill(numInputs, UNMATCHED))
      requires inputAvailability == Fill(numInputs, frameSize) && outputAvailability == Fill(numOutputs, frameSize)
      requires forall i :: 0 <= i < numInputs ==> AllFree(matchAvailIn[i], frameSize)
      requires forall o :: 0 <= o < numOutputs ==> AllFree(matchAvailOut[o], frameSize)
      ensures Consistent()
    {
      forall p: nat {
        EmptyFrameIsFree(schedules, p, frameSize, numInputs);
      }
    }

    /** The maps have room for the frame, whatever they show. */
    ghost predicate Usable()
      reads this, matchAvailIn, matchAvailOut
    {
      && Shape() && (forall i :: 0 <= i < numInputs ==> RightSize(matchAvailIn[i]))
      && (forall o :: 0 <= o < numOutputs ==> RightSize(matchAvailOut[o]))
    }

    /** Everything available, nothing scheduled. */
    method Reset()
      requires Usable()
      modifies this, matchAvailIn, matchAvailOut
      ensures Consistent() && schedules == Fill(frameSize, Fill(numInputs, UNMATCHED))
    {
      for i := 0 to numInputs
        invariant Shape() && (forall x :: 0 <= x < numInputs ==> RightSize(matchAvailIn[x]))
        invariant (forall x :: 0 <= x < numOutputs ==> RightSize(matchAvailOut[x]))
        invariant forall x :: 0 <= x < i ==> AllFree(matchAvailIn[x], frameSize)
      {
        matchAvailIn[i].Reset();
      }
      for o := 0 to numOutputs
        invariant Shape() && (forall x :: 0 <= x < numOutputs ==> RightSize(matchAvailOut[x]))
        invariant forall x :: 0 <= x < numInputs ==> AllFree(matchAvailIn[x], frameSize)
        invariant forall x :: 0 <= x < o ==> AllFree(matchAvailOut[x], frameSize)
      {
        matchAvailOut[o].Reset();
      }
      inputAvailability := Fill(numInputs, frameSize);
      outputAvailability := Fill(numOutputs, frameSize);
      schedules := Fill(frameSize, Fill(numInputs, UNMATCHED));
      EmptyIsConsistent();
    }

    ghost predicate RightSize(m: AvailabilityMap)
      reads m
    {
      m.Valid() && frameSize <= 64 * m.asize
    }

    /** Schedules a pair that is free in a slot; the assertion that the cell is empty holds. */
    method MatchElement(frame: nat, inp: nat, out: nat)
      requires Consistent() && frame < frameSize && inp < numInputs && out < numOutputs
      requires BothFree(schedules, frame, inp, out)
      modifies this, matchAvailIn, matchAvailOut
      ensures Consistent() && schedules == old(schedules)[frame := old(schedules)[frame][inp := out]]
    {
      hide ShowsInput, ShowsOutput, CountInputs, CountOutputs;
      ghost var was := schedules;
      CountersDecremented(was, inputAvailability, outputAvailability, frame, inp, out, numInputs, numOutputs);
      CountersLength(was, inputAvailability, outputAvailability);
      UseInput(matchAvailIn[inp], was, frame, inp, out, numInputs);
      UseOutput(matchAvailOut[out], was, frame, inp, out, numInputs);
      inputAvailability := inputAvailability[inp := inputAvailability[inp] - 1];
      outputAvailability := outputAvailability[out := outputAvailability[out] - 1];
      assert schedules[frame][inp] == UNMATCHED;
      schedules := schedules[frame := schedules[frame][inp := out]];
      forall i | 0 <= i < numInputs && i != inp
        ensures ShowsInput(matchAvailIn[i], schedules, i)
      {
        OthersShow(matchAvailIn[i], was, frame, inp, out, i, numInputs);
      }
      forall o | 0 <= o < numOutputs && o != out
        ensures ShowsOutput(matchAvailOut[o], schedules, o)
      {
        OthersShow(matchAvailOut[o], was, frame, inp, out, o, numInputs);
      }
    }

    lemma CountersLength(scheds: seq<seq<int>>, ins: seq<int>, outs: seq<int>)
      requires IsGrid(scheds, |scheds|, numInputs) && CountInputs(ins, scheds, numInputs)
      requires CountOutputs(outs, scheds, numOutputs)
      ensures |ins| == numInputs && |outs| == numOutputs
    {
    }

    /** First fit over the words of both bitmaps. */
    method Allocate(inp: nat, out: nat)
      requires Consistent() && inp < numInputs && out < numOutputs
      modifies this, matchAvailIn, matchAvailOut
      ensures Consistent() && schedules == Place(old(schedules), inp, out)
      ensures IsPlaced(old(schedules), schedules, inp, out)
    {
      PlaceIsPlaced(schedules, inp, out);
      hide IsPlaced;
      var f := CommonSlot(matchAvailIn[inp], matchAvailOut[out], inp, out, schedules, numInputs);
      FirstFitFits(schedules, inp, out, 0);
      if 0 <= f < frameSize {
        MatchElement(f, inp, out);
      }
    }

    /** The first slot of the intersection of two bitmaps is the first fit if it lies in the frame. */
    static method CommonSlot(ins: AvailabilityMap, outs: AvailabilityMap, ghost inp: nat, ghost out: nat,
        ghost scheds: seq<seq<int>>, ghost inputs: nat)
      returns (f: int)
      requires IsGrid(scheds, |scheds|, inputs) && inp < inputs
      requires ShowsInput(ins, scheds, inp) && ShowsOutput(outs, scheds, out)
      ensures f >= -1 && FirstFit(scheds, inp, out, 0) == if 0 <= f < |scheds| then f else |scheds|
    {
      var amap := ins.And(outs);
      f := amap.Ffs();
      ghost var r := if 0 <= f < |scheds| then f else |scheds|;
      forall g | 0 <= g < r
        ensures !BothFree(scheds, g, inp, out)
      {
        assert !amap.IsFree(g);
      }
      FirstFitIs(scheds, inp, out, 0, r);
    }

    /** An output goes through its proposals until its counter is zero, skipping inputs whose counter is. */
    method AcceptList(out: nat, list: seq<int>)
      requires Consistent() && out < numOutputs && AreInputs(list, numInputs)
      modifies this, matchAvailIn, matchAvailOut
      ensures Consistent()
      ensures schedules == PlaceList(old(schedules), list, out, frameSize, numInputs, numOutputs)
    {
      hide ShowsInput, ShowsOutput;
      assert list[..|list|] == list;
      for x := 0 to |list|
        invariant Consistent()
        invariant schedules == PlaceList(old(schedules), list[..x], out, frameSize, numInputs, numOutputs)
      {
        if outputAvailability[out] == 0 {
          RestWithoutRoom(old(schedules), list, out, x, |list|, frameSize, numInputs, numOutputs);
          return;
        }
        var inp := list[x];
        assert list[..x + 1][..x] == list[..x];
        if inputAvailability[inp] == 0 {
          PlaceWithoutRoom(schedules, inp, out);
          continue;
        }
        Allocate(inp, out);
      }
    }

    /** Step 1: the proposals every output considers. */
    method Propose(draws: seq<int>) returns (accepts: seq<seq<int>>)
      requires AreDraws(draws, numInputs, numOutputs)
      ensures accepts == Considered(draws, cutoff, numInputs, numOutputs)
      ensures AreConsidered(accepts, draws, cutoff, numOutputs)
    {
      ConsideredAreConsidered(draws, cutoff, numOutputs);
      hide AreConsidered;
      accepts := Fill(numOutputs, []);
      for inp := 0 to numInputs
        invariant accepts == Considered(draws, cutoff, inp, numOutputs)
      {
        if draws[inp] == UNMATCHED {
          continue;
        }
        var out := draws[inp];
        if AcceptsMore(cutoff, |accepts[out]|) {
          accepts := accepts[out := accepts[out] + [inp]];
        }
      }
    }

    /** One round: bitmaps and counters compute exactly first fit on the schedules. */
    method Qps(draws: seq<int>)
      requires Consistent() && AreDraws(draws, numInputs, numOutputs)
      modifies this, matchAvailIn, matchAvailOut
      ensures Consistent()
      ensures schedules == Round(old(schedules), draws, cutoff, frameSize, numInputs, numOutputs)
      ensures IsFirstFitRound(old(schedules), schedules, draws, cutoff, numInputs, numOutputs)
    {
      RoundIsFirstFit(schedules, draws, cutoff, frameSize, numInputs, numOutputs);
      hide IsFirstFitRound;
      var accepts := Propose(draws);
      for out := 0 to numOutputs
        invariant Consistent()
        invariant schedules == PlaceBelow(old(schedules), accepts, out, frameSize, numInputs, numOutputs)
      {
        if accepts[out] == [] {
          continue;
        }
        AcceptList(out, accepts[out]);
      }
    }

    /** The rounds of one call. */
    method Batch(draws: seq<seq<int>>)
      requires Usable() && AreAllDraws(draws, numInputs, numOutputs)
      modifies this, matchAvailIn, matchAvailOut
      ensures Consistent()
      ensures schedules == Rounds(draws, cutoff, frameSize, numInputs, numOutputs)
    {
      Reset();
      assert draws[..|draws|] == draws;
      for round := 0 to |draws|
        invariant Consistent()
        invariant schedules == Rounds(draws[..round], cutoff, frameSize, numInputs, numOutputs)
      {
        assert draws[..round + 1][..round] == draws[..round];
        Qps(draws[round]);
      }
    }

    /** Completing the matchings leaves bitmaps and counters in agreement exactly when there was nothing to complete. */
    lemma AgreesIffFull(rounds: seq<seq<int>>)
      requires Describes(rounds) && numInputs <= numOutputs && IsFrame(rounds, frameSize, numInputs, numInputs)
      requires Extends(schedules, rounds) && forall f :: 0 <= f < frameSize ==> IsFull(schedules[f])
      ensures Consistent() <==> forall f :: 0 <= f < frameSize ==> IsFull(rounds[f])
    {
      if forall f :: 0 <= f < frameSize ==> IsFull(rounds[f]) {
        GridsEqual(schedules, rounds);
      } else {
        var f :| 0 <= f < frameSize && !IsFull(rounds[f]);
        var i :| 0 <= i < numInputs && rounds[f][i] == UNMATCHED;
        assert ShowsInput(matchAvailIn[i], rounds, i);
        assert !ShowsInput(matchAvailIn[i], schedules, i);
      }
    }

    /** Completes the matchings of all slots, without entering the new pairs into the bitmaps. */
    method Complete()
      requires Consistent() && numInputs <= numOutputs && IsFrame(schedules, frameSize, numInputs, numInputs)
      modifies this`schedules
      ensures Usable() && AllCompleted(schedules, old(schedules))
      ensures Extends(schedules, old(schedules)) && forall f :: 0 <= f < frameSize ==> IsFull(schedules[f])
      ensures Consistent() <==> forall f :: 0 <= f < frameSize ==> IsFull(old(schedules)[f])
    {
      ghost var rounds := schedules;
      schedules := FixAll(schedules, numInputs);
      CompletedExtend(schedules, rounds);
      AgreesIffFull(rounds);
      assert Usable();
    }

    /**
     `schedule`: rounds of proposals, then the matchings of all slots are completed and one matching is
     selected. The completed pairs are not entered into the bitmaps, which the next call resets. Completion
     takes the outputs to be as many as the inputs, so there are at least as many and no proposal is for others.
     */
    method Schedule(weights: seq<seq<int>>, draws: seq<seq<int>>, selection: SelectionMethod, groupSize: nat)
      returns (r: seq<int>, ghost groups: seq<seq<int>>)
      requires Usable() && numInputs <= numOutputs && IsGrid(weights, numInputs, numOutputs) && groupSize > 0
      requires AreAllDraws(draws, numInputs, numInputs)
      modifies this, matchAvailIn, matchAvailOut
      ensures Usable() && AreFull(schedules, numInputs, weights) && |schedules| == frameSize
      ensures AreAllDraws(draws, numInputs, numOutputs)
      ensures AllCompleted(schedules, Rounds(draws, cutoff, frameSize, numInputs, numOutputs))
      ensures Consistent() <==>
        forall f :: 0 <= f < frameSize ==> IsFull(Rounds(draws, cutoff, frameSize, numInputs, numOutputs)[f])
      ensures IsSelected(selection, r, groups, schedules, numInputs, weights, groupSize)
      ensures selection == MaxOfGroups && AllNegative(groups, numInputs, weights) ==> numInputs > 0
      ensures selection != First && (selection == MaxOfGroups ==> !AllNegative(groups, numInputs, weights)) ==>
        Outweighs(r, schedules, numInputs, weights, 0, frameSize)
      ensures selection != First && NonNegativeWeights(weights, numInputs) ==>
        Outweighs(r, schedules, numInputs, weights, 0, frameSize)
    {
      RoundsStayWithin(draws, cutoff, frameSize, numInputs, numOutputs);
      hide Consistent, Usable, IsSelected, AllCompleted;
      Batch(draws);
      Complete();
      r, groups := Select(selection, schedules, numInputs, weights, groupSize);
    }
  }

  /** A call that leaves bitmaps and schedules in disagreement: one port, one slot and nothing proposed. */
  method UnfilledSlotDisagrees() returns (sched: Scheduler)
    ensures sched.schedules == [[0]] && !sched.Consistent()
  {
    sched := new Scheduler(1, 1, 1, 1);
    var r;
    ghost var groups;
    r, groups := sched.Schedule([[0]], [], First, 1);
    assert Completes(sched.schedules[0], Rounds([], sched.cutoff, 1, 1, 1)[0]);
    assert Rounds([], sched.cutoff, 1, 1, 1)[0][0] == UNMATCHED;
    assert sched.schedules[0] == [0];
  }
}
