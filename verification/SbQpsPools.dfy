/** A whole call of small-batch QPS, from the queue lengths: pools, proposals, rounds and selection. */
module SbQpsPools {
  import opened Availability
  import opened Matchings
  import opened Quantized
  import opened SbQps
  import opened SbQpsSpec
  import opened Selection
  import opened SerenaSpec
  import opened Sums

  /** One random number per input and round. */
  ghost predicate AreRandoms(randoms: seq<seq<nat>>, inputs: nat) {
    forall x :: 0 <= x < |randoms| ==> |randoms[x]| == inputs
  }

  /** An input with packets proposes to the output of a nonempty queue, one without packets to none. */
  ghost predicate DrawsFrom(row: seq<int>, draw: int) {
    if Sum(row) == 0 then draw == UNMATCHED else 0 <= draw < |row| && row[draw] > 0
  }

  /** Scaled down to a slot of the pool, the random number draws the output that owns the slot. */
  ghost predicate IsDraw(row: seq<int>, size: nat, random: nat, ratio: nat, draw: int)
    requires size > 0 && ratio > 0
  {
    if Sum(row) == 0 then draw == UNMATCHED
    else 0 <= draw < |row| && OwnsSlot(row, size, SlotOf(random, ratio, size), draw)
  }

  ghost predicate AreDrawnBy(weights: seq<seq<int>>, size: nat, randoms: seq<nat>, ratio: nat, draws: seq<int>)
    requires size > 0 && ratio > 0
  {
    |weights| == |randoms| == |draws| && forall i :: 0 <= i < |draws| ==> IsDraw(weights[i], size, randoms[i], ratio,
        draws[i])
  }

  ghost predicate AllDrawnBy(weights: seq<seq<int>>, size: nat, randoms: seq<seq<nat>>, ratio: nat,
      draws: seq<seq<int>>)
    requires size > 0 && ratio > 0
  {
    |draws| == |randoms| && forall x :: 0 <= x < |draws| ==> AreDrawnBy(weights, size, randoms[x], ratio, draws[x])
  }

  /** Lengths and random numbers leave no choice of draws. */
  lemma DrawsAreUnique(weights: seq<seq<int>>, size: nat, randoms: seq<seq<nat>>, ratio: nat, a: seq<seq<int>>,
      b: seq<seq<int>>)
    requires size > 0 && ratio > 0 && forall i :: 0 <= i < |weights| ==> NonNegative(weights[i])
    requires AllDrawnBy(weights, size, randoms, ratio, a) && AllDrawnBy(weights, size, randoms, ratio, b)
    ensures a == b
  {
    hide OwnsSlot;
    forall x | 0 <= x < |a|
      ensures a[x] == b[x]
    {
      assert AreDrawnBy(weights, size, randoms[x], ratio, a[x]) && AreDrawnBy(weights, size, randoms[x], ratio, b[x]);
      forall i | 0 <= i < |weights|
        ensures a[x][i] == b[x][i]
      {
        var row := weights[i];
        assert IsDraw(row, size, randoms[x][i], ratio, a[x][i]) && IsDraw(row, size, randoms[x][i], ratio, b[x][i]);
        SumNonNegative(row);
        if Sum(row) > 0 {
          OwnerIsUnique(row, size, SlotOf(randoms[x][i], ratio, size), a[x][i], b[x][i]);
        }
      }
    }
  }

  ghost predicate DrawsFromRows(weights: seq<seq<int>>, draws: seq<int>, inputs: nat) {
    |weights| == inputs == |draws| && forall i :: 0 <= i < inputs ==> DrawsFrom(weights[i], draws[i])
  }

  /** What a pool holds are outputs of nonempty queues. */
  lemma PooledHasPackets(pool: seq<int>, row: seq<int>, size: nat, out: int)
    requires |pool| == size && NonNegative(row) && Sum(row) > 0 && Apportioned(pool, row, size, size)
    requires out in pool
    ensures DrawsFrom(row, out)
  {
    var c :| 0 <= c < |pool| && pool[c] == out;
    hide InShare;
    assert 0 <= pool[c] < |row|;
    PoolIsFair(pool, row, size, out);
  }

  /** The proposer apportions its pool to a row of lengths, or has none when they are all zero. */
  ghost predicate Proposes(q: QuantizedProposer, row: seq<int>, poolSize: nat)
    reads q
  {
    && q.poolSize == poolSize > 0 && (q.good <==> Sum(row) > 0)
    && (q.good ==> |q.pool| == poolSize && Apportioned(q.pool, row, poolSize, poolSize))
    && (q.good ==> IsPool(q.pool, row, poolSize))
  }

  ghost predicate ProposeAll(queues: seq<QuantizedProposer>, weights: seq<seq<int>>, n: nat, poolSize: nat)
    requires n <= |queues| && n <= |weights|
    reads queues
  {
    forall i :: 0 <= i < n ==> Proposes(queues[i], weights[i], poolSize)
  }

  /** `handle_arrivals`: every input apportions its pool. */
  method HandleArrivals(weights: seq<seq<int>>, poolSize: nat, inputs: nat, outputs: nat)
    returns (queues: seq<QuantizedProposer>)
    requires IsLengthGrid(weights, inputs, outputs) && poolSize > 0
    ensures |queues| == inputs && ProposeAll(queues, weights, inputs, poolSize)
  {
    queues := [];
    hide Apportioned, IsPool;
    for i := 0 to inputs
      invariant |queues| == i && ProposeAll(queues, weights, i, poolSize)
    {
      var q := new QuantizedProposer(poolSize, outputs);
      q.Assign(weights[i]);
      queues := queues + [q];
    }
  }

  /** One round of draws. */
  method Draw(queues: seq<QuantizedProposer>, poolSize: nat, randoms: seq<nat>, ratio: nat,
      ghost weights: seq<seq<int>>, inputs: nat, ghost outputs: nat)
    returns (draws: seq<int>)
    requires IsLengthGrid(weights, inputs, outputs) && |queues| == |randoms| == inputs && ratio > 0 && poolSize > 0
    requires ProposeAll(queues, weights, inputs, poolSize)
    ensures DrawsFromRows(weights, draws, inputs) && AreDrawnBy(weights, poolSize, randoms, ratio, draws)
  {
    draws := [];
    hide Apportioned, DrawsFrom, IsDraw, IsPool;
    for i := 0 to inputs
      invariant |draws| == i && forall k :: 0 <= k < i ==> DrawsFrom(weights[k], draws[k])
      invariant forall k :: 0 <= k < i ==> IsDraw(weights[k], poolSize, randoms[k], ratio, draws[k])
    {
      assert Proposes(queues[i], weights[i], poolSize);
      var out := queues[i].Sample(randoms[i], ratio);
      DrawIsFromRow(queues[i].good, queues[i].pool, weights[i], poolSize, out);
      DrawIsDraw(queues[i].good, queues[i].pool, weights[i], poolSize, randoms[i], ratio, out);
      draws := draws + [out];
    }
  }

  lemma DrawIsDraw(good: bool, pool: seq<int>, row: seq<int>, size: nat, random: nat, ratio: nat, out: int)
    requires NonNegative(row) && (good <==> Sum(row) > 0) && size > 0 && ratio > 0
    requires good ==> IsPool(pool, row, size)
    requires if good then out == pool[SlotOf(random, ratio, size)] else out == UNMATCHED
    ensures IsDraw(row, size, random, ratio, out)
  {
    hide OwnsSlot;
    SumNonNegative(row);
  }

  lemma DrawIsFromRow(good: bool, pool: seq<int>, row: seq<int>, size: nat, out: int)
    requires NonNegative(row) && (good <==> Sum(row) > 0)
    requires good ==> |pool| == size && Apportioned(pool, row, size, size)
    requires if good then out in pool else out == UNMATCHED
    ensures DrawsFrom(row, out)
  {
    SumNonNegative(row);
    if good {
      PooledHasPackets(pool, row, size, out);
    }
  }

  ghost predicate AllFromRows(weights: seq<seq<int>>, draws: seq<seq<int>>, inputs: nat) {
    forall x :: 0 <= x < |draws| ==> DrawsFromRows(weights, draws[x], inputs)
  }

  method DrawRounds(weights: seq<seq<int>>, poolSize: nat, randoms: seq<seq<nat>>, ratio: nat, inputs: nat,
      outputs: nat)
    returns (draws: seq<seq<int>>)
    requires IsLengthGrid(weights, inputs, outputs) && AreRandoms(randoms, inputs) && poolSize > 0 && ratio > 0
    ensures AllFromRows(weights, draws, inputs) && AreAllDraws(draws, inputs, outputs)
    ensures AllDrawnBy(weights, poolSize, randoms, ratio, draws)
  {
    var queues := HandleArrivals(weights, poolSize, inputs, outputs);
    draws := [];
    for x := 0 to |randoms|
      invariant |draws| == x && AllFromRows(weights, draws, inputs) && ProposeAll(queues, weights, inputs, poolSize)
      invariant AllDrawnBy(weights, poolSize, randoms[..x], ratio, draws)
    {
      var round := Draw(queues, poolSize, randoms[x], ratio, weights, inputs, outputs);
      draws := draws + [round];
    }
  }

  /** The rounds schedule pairs with packets only. */
  lemma ScheduledHavePackets(weights: seq<seq<int>>, draws: seq<seq<int>>, cutoff: int, frames: nat, inputs: nat,
      outputs: nat)
    requires IsLengthGrid(weights, inputs, outputs) && AreAllDraws(draws, inputs, outputs)
    requires AllFromRows(weights, draws, inputs)
    ensures var r := Rounds(draws, cutoff, frames, inputs, outputs);
            forall f, i :: 0 <= f < frames && 0 <= i < inputs && r[f][i] != UNMATCHED ==>
              0 <= r[f][i] < outputs && weights[i][r[f][i]] > 0
  {
    var r := Rounds(draws, cutoff, frames, inputs, outputs);
    forall f, i | 0 <= f < frames && 0 <= i < inputs && r[f][i] != UNMATCHED
      ensures 0 <= r[f][i] < outputs && weights[i][r[f][i]] > 0
    {
      RoundsServeProposals(draws, cutoff, frames, inputs, outputs, f, i);
      var x :| 0 <= x < |draws| && draws[x][i] == r[f][i];
      assert DrawsFromRows(weights, draws[x], inputs) && DrawsFrom(weights[i], draws[x][i]);
    }
  }

  /** No packet is for an output beyond the number of inputs. */
  ghost predicate NothingBeyond(lengths: seq<seq<int>>, inputs: nat, outputs: nat)
    requires IsGrid(lengths, inputs, outputs)
  {
    forall i, o :: 0 <= i < inputs <= o < outputs ==> lengths[i][o] == 0
  }

  lemma DrawsStayWithin(lengths: seq<seq<int>>, draws: seq<seq<int>>, inputs: nat, outputs: nat)
    requires IsLengthGrid(lengths, inputs, outputs) && NothingBeyond(lengths, inputs, outputs)
    requires AllFromRows(lengths, draws, inputs)
    ensures AreAllDraws(draws, inputs, inputs)
  {
    forall x | 0 <= x < |draws|
      ensures AreDraws(draws[x], inputs, inputs)
    {
      assert DrawsFromRows(lengths, draws[x], inputs);
      forall i | 0 <= i < inputs
        ensures draws[x][i] == UNMATCHED || 0 <= draws[x][i] < inputs
      {
        assert DrawsFrom(lengths[i], draws[x][i]);
      }
    }
  }

  // A whole call

  /** The configuration of a scheduler. */
  datatype Settings = Settings(frameSize: nat, cutoff: int, poolSize: nat, ratio: nat, groupSize: nat,
                               selection: SelectionMethod)
  {
    ghost predicate Valid() {
      0 < frameSize <= SIZE && poolSize > 0 && ratio > 0 && groupSize > 0
    }
  }

  /** Lengths that can be scheduled: nothing is for an output beyond the number of inputs. */
  ghost predicate AreLengths(lengths: seq<seq<int>>, inputs: nat, outputs: nat) {
    inputs <= outputs && IsLengthGrid(lengths, inputs, outputs) && NothingBeyond(lengths, inputs, outputs)
  }

  /** `r` is selected from the completed slots of the rounds of these draws. */
  ghost predicate IsCallOn(settings: Settings, lengths: seq<seq<int>>, inputs: nat, outputs: nat, r: seq<int>,
      draws: seq<seq<int>>, slots: seq<seq<int>>, groups: seq<seq<int>>)
    requires settings.Valid()
  {
    && AreAllDraws(draws, inputs, outputs)
    && AllCompleted(slots, Rounds(draws, settings.cutoff, settings.frameSize, inputs, outputs))
    && AreFull(slots, inputs, lengths) && slots != []
    && IsSelected(settings.selection, r, groups, slots, inputs, lengths, settings.groupSize)
  }

  /** `r` is what a call selects on these lengths and random numbers. */
  ghost predicate IsCall(settings: Settings, lengths: seq<seq<int>>, randoms: seq<seq<nat>>, inputs: nat, outputs: nat,
      r: seq<int>)
    requires settings.Valid()
  {
    exists draws: seq<seq<int>>, slots: seq<seq<int>>, groups: seq<seq<int>> ::
      && AllDrawnBy(lengths, settings.poolSize, randoms, settings.ratio, draws)
      && IsCallOn(settings, lengths, inputs, outputs, r, draws, slots, groups)
  }

  lemma SlotsAreUnique(a: seq<seq<int>>, b: seq<seq<int>>, rounds: seq<seq<int>>)
    requires AllCompleted(a, rounds) && AllCompleted(b, rounds)
    ensures a == b
  {
    hide Completes;
    forall f | 0 <= f < |rounds|
      ensures a[f] == b[f]
    {
      CompletionIsUnique(a[f], b[f], rounds[f], |rounds[f]|);
    }
  }

  /** Lengths and random numbers determine the matching, whatever bitmaps, counters and cycles are walked through. */
  lemma CallIsUnique(settings: Settings, lengths: seq<seq<int>>, randoms: seq<seq<nat>>, inputs: nat, outputs: nat,
      a: seq<int>, b: seq<int>)
    requires settings.Valid() && AreLengths(lengths, inputs, outputs)
    requires IsCall(settings, lengths, randoms, inputs, outputs, a)
    requires IsCall(settings, lengths, randoms, inputs, outputs, b)
    ensures a == b
  {
    hide AllDrawnBy, IsCallOn;
    var drawsA: seq<seq<int>>, slotsA: seq<seq<int>>, groupsA: seq<seq<int>> :|
      && AllDrawnBy(lengths, settings.poolSize, randoms, settings.ratio, drawsA)
      && IsCallOn(settings, lengths, inputs, outputs, a, drawsA, slotsA, groupsA);
    var drawsB: seq<seq<int>>, slotsB: seq<seq<int>>, groupsB: seq<seq<int>> :|
      && AllDrawnBy(lengths, settings.poolSize, randoms, settings.ratio, drawsB)
      && IsCallOn(settings, lengths, inputs, outputs, b, drawsB, slotsB, groupsB);
    DrawsAreUnique(lengths, settings.poolSize, randoms, settings.ratio, drawsA, drawsB);
    CallOnIsUnique(settings, lengths, inputs, outputs, a, b, drawsA, slotsA, slotsB, groupsA, groupsB);
  }

  lemma CallOnIsUnique(settings: Settings, lengths: seq<seq<int>>, inputs: nat, outputs: nat, a: seq<int>, b: seq<int>,
      draws: seq<seq<int>>, slotsA: seq<seq<int>>, slotsB: seq<seq<int>>, groupsA: seq<seq<int>>,
      groupsB: seq<seq<int>>)
    requires settings.Valid()
    requires IsCallOn(settings, lengths, inputs, outputs, a, draws, slotsA, groupsA)
    requires IsCallOn(settings, lengths, inputs, outputs, b, draws, slotsB, groupsB)
    ensures a == b
  {
    hide AllCompleted, AreFull, IsSelected;
    SlotsAreUnique(slotsA, slotsB, Rounds(draws, settings.cutoff, settings.frameSize, inputs, outputs));
    SelectedIsUnique(settings.selection, a, groupsA, b, groupsB, slotsA, inputs, lengths, settings.groupSize);
  }

  /**
   A call on queue lengths and random numbers. Every pair of the rounds has packets, and as lengths are not
   negative, every selection but the first outweighs every slot of the frame.
   */
  method ScheduleLengths(sched: Scheduler, settings: Settings, lengths: seq<seq<int>>, randoms: seq<seq<nat>>)
    returns (r: seq<int>, ghost draws: seq<seq<int>>)
    requires sched.Usable() && settings.Valid()
    requires sched.frameSize == settings.frameSize && sched.cutoff == settings.cutoff
    requires AreLengths(lengths, sched.numInputs, sched.numOutputs) && AreRandoms(randoms, sched.numInputs)
    modifies sched, sched.matchAvailIn, sched.matchAvailOut
    ensures sched.Usable() && AreAllDraws(draws, sched.numInputs, sched.numOutputs)
    ensures AllDrawnBy(lengths, settings.poolSize, randoms, settings.ratio, draws)
    ensures AllFromRows(lengths, draws, sched.numInputs)
    ensures var rounds := Rounds(draws, sched.cutoff, sched.frameSize, sched.numInputs, sched.numOutputs);
            && AllCompleted(sched.schedules, rounds)
            && forall f, i :: 0 <= f < sched.frameSize && 0 <= i < sched.numInputs && rounds[f][i] != UNMATCHED ==>
                 0 <= rounds[f][i] < sched.numOutputs && lengths[i][rounds[f][i]] > 0
    ensures AreFull(sched.schedules, sched.numInputs, lengths) && |sched.schedules| == sched.frameSize
    ensures IsCall(settings, lengths, randoms, sched.numInputs, sched.numOutputs, r)
    ensures IsFull(r) && |r| == sched.numInputs
    ensures settings.selection != First ==> Outweighs(r, sched.schedules, sched.numInputs, lengths, 0, sched.frameSize)
  {
    var drawn := DrawRounds(lengths, settings.poolSize, randoms, settings.ratio, sched.numInputs, sched.numOutputs);
    draws := drawn;
    DrawsStayWithin(lengths, draws, sched.numInputs, sched.numOutputs);
    ScheduledHavePackets(lengths, draws, sched.cutoff, sched.frameSize, sched.numInputs, sched.numOutputs);
    assert NonNegativeWeights(lengths, sched.numInputs);
    hide AllFromRows, Outweighs, AreFull, Rounds, AllDrawnBy, AllCompleted, IsSelected;
    ghost var groups;
    r, groups := sched.Schedule(lengths, drawn, settings.selection, settings.groupSize);
    assert IsCallOn(settings, lengths, sched.numInputs, sched.numOutputs, r, draws, sched.schedules, groups);
    SelectedFirstIsFull(settings.selection, r, groups, sched.schedules, sched.numInputs, lengths, settings.groupSize);
  }

  lemma SelectedFirstIsFull(selection: SelectionMethod, r: seq<int>, groups: seq<seq<int>>, slots: seq<seq<int>>,
      n: nat, weights: seq<seq<int>>, size: nat)
    requires AreFull(slots, n, weights) && slots != [] && size > 0
    requires IsSelected(selection, r, groups, slots, n, weights, size)
    requires selection != First ==> Outweighs(r, slots, n, weights, 0, |slots|)
    ensures IsFull(r) && |r| == n
  {
  }
}
