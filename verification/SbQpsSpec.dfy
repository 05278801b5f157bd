/** First-fit slot allocation of small-batch QPS, on the schedules alone. */
module SbQpsSpec {
  import opened Matchings
  import opened SerenaSpec
  import opened Sums

  /** One partial matching per slot of the frame. */
  ghost predicate IsFrame(scheds: seq<seq<int>>, frames: nat, inputs: nat, outputs: nat) {
    IsGrid(scheds, frames, inputs) && forall f :: 0 <= f < frames ==> IsPartialInjection(scheds[f], outputs)
  }

  ghost predicate BothFree(scheds: seq<seq<int>>, f: nat, inp: nat, out: nat)
    requires f < |scheds| && inp < |scheds[f]|
  {
    scheds[f][inp] == UNMATCHED && !Takes(scheds[f], out)
  }

  /** The first slot from `f` on in which both ports are free, or the frame size. */
  ghost function FirstFit(scheds: seq<seq<int>>, inp: nat, out: nat, f: nat): (r: nat)
    requires f <= |scheds| && forall x :: 0 <= x < |scheds| ==> inp < |scheds[x]|
    ensures f <= r <= |scheds|
    decreases |scheds| - f
  {
    if f == |scheds| || BothFree(scheds, f, inp, out) then f else FirstFit(scheds, inp, out, f + 1)
  }

  lemma {:induction false} FirstFitIs(scheds: seq<seq<int>>, inp: nat, out: nat, f: nat, r: nat)
    requires f <= r <= |scheds| && forall x :: 0 <= x < |scheds| ==> inp < |scheds[x]|
    requires forall g :: f <= g < r ==> !BothFree(scheds, g, inp, out)
    requires r < |scheds| ==> BothFree(scheds, r, inp, out)
    ensures FirstFit(scheds, inp, out, f) == r
    decreases r - f
  {
    if f < r {
      FirstFitIs(scheds, inp, out, f + 1, r);
    }
  }

  /** The first fit fits, and nothing before it does. */
  lemma {:induction false} FirstFitFits(scheds: seq<seq<int>>, inp: nat, out: nat, f: nat)
    requires f <= |scheds| && forall x :: 0 <= x < |scheds| ==> inp < |scheds[x]|
    ensures var r := FirstFit(scheds, inp, out, f); r < |scheds| ==> BothFree(scheds, r, inp, out)
    ensures forall g :: f <= g < FirstFit(scheds, inp, out, f) ==> !BothFree(scheds, g, inp, out)
    decreases |scheds| - f
  {
    if f < |scheds| && !BothFree(scheds, f, inp, out) {
      FirstFitFits(scheds, inp, out, f + 1);
    }
  }

  /** A proposal goes to the first slot that fits, or nowhere. */
  ghost function Place(scheds: seq<seq<int>>, inp: nat, out: nat): (r: seq<seq<int>>)
    requires forall x :: 0 <= x < |scheds| ==> inp < |scheds[x]|
  {
    var f := FirstFit(scheds, inp, out, 0);
    if f < |scheds| then scheds[f := scheds[f][inp := out]] else scheds
  }

  lemma PlaceKeepsFrame(scheds: seq<seq<int>>, inp: nat, out: nat, frames: nat, inputs: nat, outputs: nat)
    requires IsFrame(scheds, frames, inputs, outputs) && inp < inputs && out < outputs
    ensures IsFrame(Place(scheds, inp, out), frames, inputs, outputs)
  {
    FirstFitFits(scheds, inp, out, 0);
  }

  /** The proposals of one output, in order. */
  ghost function PlaceList(scheds: seq<seq<int>>, list: seq<int>, out: nat, frames: nat, inputs: nat,
      outputs: nat): (r: seq<seq<int>>)
    requires IsFrame(scheds, frames, inputs, outputs) && AreInputs(list, inputs) && out < outputs
    ensures IsFrame(r, frames, inputs, outputs)
  {
    if list == [] then scheds
    else
      var front, last := list[..|list| - 1], list[|list| - 1];
      PlaceKeepsFrame(PlaceList(scheds, front, out, frames, inputs, outputs), last, out, frames, inputs, outputs);
      Place(PlaceList(scheds, front, out, frames, inputs, outputs), last, out)
  }

  ghost predicate AreProposals(accepts: seq<seq<int>>, inputs: nat, outputs: nat) {
    |accepts| == outputs && forall o :: 0 <= o < outputs ==> AreInputs(accepts[o], inputs)
  }

  /** The proposals of the outputs below `k`. */
  ghost function PlaceBelow(scheds: seq<seq<int>>, accepts: seq<seq<int>>, k: nat, frames: nat, inputs: nat,
      outputs: nat): (r: seq<seq<int>>)
    requires IsFrame(scheds, frames, inputs, outputs) && AreProposals(accepts, inputs, outputs) && k <= outputs
    ensures IsFrame(r, frames, inputs, outputs)
  {
    if k == 0 then scheds
    else PlaceList(PlaceBelow(scheds, accepts, k - 1, frames, inputs, outputs), accepts[k - 1], k - 1, frames,
        inputs, outputs)
  }

  /** Each input proposes to one output or, without packets, to none. */
  ghost predicate AreDraws(draws: seq<int>, inputs: nat, outputs: nat) {
    |draws| == inputs && forall i :: 0 <= i < inputs ==> draws[i] == UNMATCHED || 0 <= draws[i] < outputs
  }

  /** One round on the schedules: what the counters and bitmaps have to compute. */
  ghost function Round(scheds: seq<seq<int>>, draws: seq<int>, cutoff: int, frames: nat, inputs: nat,
      outputs: nat): (r: seq<seq<int>>)
    requires IsFrame(scheds, frames, inputs, outputs) && AreDraws(draws, inputs, outputs)
    ensures IsFrame(r, frames, inputs, outputs)
  {
    PlaceBelow(scheds, Considered(draws, cutoff, inputs, outputs), outputs, frames, inputs, outputs)
  }

  ghost predicate AreAllDraws(draws: seq<seq<int>>, inputs: nat, outputs: nat) {
    forall x :: 0 <= x < |draws| ==> AreDraws(draws[x], inputs, outputs)
  }

  /** The rounds of one call, from an empty frame. */
  ghost function Rounds(draws: seq<seq<int>>, cutoff: int, frames: nat, inputs: nat, outputs: nat): (r: seq<seq<int>>)
    requires AreAllDraws(draws, inputs, outputs)
    ensures IsFrame(r, frames, inputs, outputs)
  {
    if draws == [] then Fill(frames, Fill(inputs, UNMATCHED))
    else Round(Rounds(draws[..|draws| - 1], cutoff, frames, inputs, outputs), draws[|draws| - 1], cutoff, frames,
        inputs, outputs)
  }

  // Counting slots

  /** How many of the first `n` slots have input `inp` free. */
  function FreeSlotsOfInput(scheds: seq<seq<int>>, inp: nat, n: nat): nat
    requires n <= |scheds| && forall x :: 0 <= x < |scheds| ==> inp < |scheds[x]|
  {
    if n == 0 then 0
    else FreeSlotsOfInput(scheds, inp, n - 1) + if scheds[n - 1][inp] == UNMATCHED then 1 else 0
  }

  /** How many of the first `n` slots have output `out` free. */
  ghost function FreeSlotsOfOutput(scheds: seq<seq<int>>, out: nat, n: nat): nat
    requires n <= |scheds|
  {
    if n == 0 then 0
    else FreeSlotsOfOutput(scheds, out, n - 1) + if Takes(scheds[n - 1], out) then 0 else 1
  }

  lemma {:induction false} InputSlotTaken(scheds: seq<seq<int>>, f: nat, inp: nat, out: nat, i: nat, n: nat,
      inputs: nat)
    requires IsGrid(scheds, |scheds|, inputs) && f < |scheds| && inp < inputs && i < inputs && n <= |scheds|
    requires scheds[f][inp] == UNMATCHED
    ensures FreeSlotsOfInput(scheds[f := scheds[f][inp := out]], i, n)
            == FreeSlotsOfInput(scheds, i, n) - if i == inp && f < n then 1 else 0
  {
    if n > 0 {
      InputSlotTaken(scheds, f, inp, out, i, n - 1, inputs);
    }
  }

  /** Scheduling a free pair in a slot uses its output there, and no other. */
  lemma TakesOneMore(s: seq<int>, inp: nat, out: nat, o: nat)
    requires inp < |s| && s[inp] == UNMATCHED
    ensures Takes(s[inp := out], o) <==> Takes(s, o) || o == out
  {
    if Takes(s, o) {
      var i :| 0 <= i < |s| && s[i] == o;
      assert s[inp := out][i] == o;
    }
    if o == out {
      assert s[inp := out][inp] == o;
    }
  }

  lemma {:induction false} OutputSlotTaken(scheds: seq<seq<int>>, f: nat, inp: nat, out: nat, o: nat, n: nat,
      inputs: nat)
    requires IsGrid(scheds, |scheds|, inputs) && f < |scheds| && inp < inputs && n <= |scheds|
    requires BothFree(scheds, f, inp, out)
    ensures FreeSlotsOfOutput(scheds[f := scheds[f][inp := out]], o, n)
            == FreeSlotsOfOutput(scheds, o, n) - if o == out && f < n then 1 else 0
  {
    if n > 0 {
      OutputSlotTaken(scheds, f, inp, out, o, n - 1, inputs);
      TakesOneMore(scheds[f], inp, out, o);
    }
  }

  /** A port without free slots fits nowhere. */
  lemma {:induction false} NoFreeSlot(scheds: seq<seq<int>>, inp: nat, out: nat, n: nat, f: nat)
    requires f < n <= |scheds| && forall x :: 0 <= x < |scheds| ==> inp < |scheds[x]|
    requires FreeSlotsOfInput(scheds, inp, n) == 0 || FreeSlotsOfOutput(scheds, out, n) == 0
    ensures !BothFree(scheds, f, inp, out)
  {
    if f < n - 1 {
      NoFreeSlot(scheds, inp, out, n - 1, f);
    }
  }

  /** So a counter at zero means that placing changes nothing. */
  lemma PlaceWithoutRoom(scheds: seq<seq<int>>, inp: nat, out: nat)
    requires forall x :: 0 <= x < |scheds| ==> inp < |scheds[x]|
    requires FreeSlotsOfInput(scheds, inp, |scheds|) == 0 || FreeSlotsOfOutput(scheds, out, |scheds|) == 0
    ensures Place(scheds, inp, out) == scheds
  {
    forall f | 0 <= f < |scheds|
      ensures !BothFree(scheds, f, inp, out)
    {
      NoFreeSlot(scheds, inp, out, |scheds|, f);
    }
    FirstFitIs(scheds, inp, out, 0, |scheds|);
  }

  /** Once an output has no free slot, the rest of its proposals changes nothing. */
  lemma {:induction false} RestWithoutRoom(scheds: seq<seq<int>>, list: seq<int>, out: nat, x: nat, y: nat, frames: nat,
      inputs: nat, outputs: nat)
    requires IsFrame(scheds, frames, inputs, outputs) && AreInputs(list, inputs) && out < outputs && x <= y <= |list|
    requires FreeSlotsOfOutput(PlaceList(scheds, list[..x], out, frames, inputs, outputs), out, frames) == 0
    ensures PlaceList(scheds, list[..y], out, frames, inputs, outputs)
            == PlaceList(scheds, list[..x], out, frames, inputs, outputs)
  {
    if x < y {
      RestWithoutRoom(scheds, list, out, x, y - 1, frames, inputs, outputs);
      assert list[..y][..y - 1] == list[..y - 1];
      PlaceWithoutRoom(PlaceList(scheds, list[..x], out, frames, inputs, outputs), list[y - 1], out);
    }
  }

  /** A pair fits nowhere only if its ports together use at least as many slots as the frame has. */
  lemma {:induction false} CrowdedIfUnplaced(scheds: seq<seq<int>>, inp: nat, out: nat, n: nat)
    requires n <= |scheds| && forall x :: 0 <= x < |scheds| ==> inp < |scheds[x]|
    requires forall f :: 0 <= f < n ==> !BothFree(scheds, f, inp, out)
    ensures FreeSlotsOfInput(scheds, inp, n) + FreeSlotsOfOutput(scheds, out, n) <= n
  {
    if n > 0 {
      CrowdedIfUnplaced(scheds, inp, out, n - 1);
      assert !BothFree(scheds, n - 1, inp, out);
    }
  }

  /** Nothing is ever taken out of a slot. */
  ghost predicate Extends(later: seq<seq<int>>, earlier: seq<seq<int>>) {
    && |later| == |earlier|
    && (forall f :: 0 <= f < |later| ==> |later[f]| == |earlier[f]|)
    && (forall f, i :: 0 <= f < |later| && 0 <= i < |later[f]| && earlier[f][i] != UNMATCHED ==>
        later[f][i] == earlier[f][i])
  }

  /** A pair is scheduled, or its ports leave at most as many free slots as the frame has slots. */
  ghost predicate ServedOrCrowded(scheds: seq<seq<int>>, inp: nat, out: nat)
    requires forall x :: 0 <= x < |scheds| ==> inp < |scheds[x]|
  {
    || (exists f :: 0 <= f < |scheds| && scheds[f][inp] == out)
    || FreeSlotsOfInput(scheds, inp, |scheds|) + FreeSlotsOfOutput(scheds, out, |scheds|) <= |scheds|
  }

  lemma PlaceExtends(scheds: seq<seq<int>>, inp: nat, out: nat)
    requires forall x :: 0 <= x < |scheds| ==> inp < |scheds[x]|
    ensures Extends(Place(scheds, inp, out), scheds) && ServedOrCrowded(Place(scheds, inp, out), inp, out)
  {
    FirstFitFits(scheds, inp, out, 0);
    var f := FirstFit(scheds, inp, out, 0);
    if f < |scheds| {
      assert Place(scheds, inp, out)[f][inp] == out;
    } else {
      CrowdedIfUnplaced(scheds, inp, out, |scheds|);
    }
  }

  lemma {:induction false} FreeSlotsShrink(later: seq<seq<int>>, earlier: seq<seq<int>>, inp: nat, out: nat, n: nat)
    requires Extends(later, earlier) && n <= |later| && forall x :: 0 <= x < |later| ==> inp < |later[x]|
    ensures FreeSlotsOfInput(later, inp, n) <= FreeSlotsOfInput(earlier, inp, n)
    ensures FreeSlotsOfOutput(later, out, n) <= FreeSlotsOfOutput(earlier, out, n)
  {
    if n > 0 {
      FreeSlotsShrink(later, earlier, inp, out, n - 1);
      if Takes(earlier[n - 1], out) {
        assert later[n - 1][Taker(earlier[n - 1], out)] == out;
      }
    }
  }

  lemma StaysServedOrCrowded(later: seq<seq<int>>, earlier: seq<seq<int>>, inp: nat, out: nat)
    requires Extends(later, earlier) && forall x :: 0 <= x < |later| ==> inp < |later[x]|
    requires ServedOrCrowded(earlier, inp, out)
    ensures ServedOrCrowded(later, inp, out)
  {
    if f :| 0 <= f < |earlier| && earlier[f][inp] == out {
      assert later[f][inp] == out;
    } else {
      FreeSlotsShrink(later, earlier, inp, out, |later|);
    }
  }

  ghost predicate ListDone(scheds: seq<seq<int>>, list: seq<int>, out: nat, frames: nat, inputs: nat)
    requires IsGrid(scheds, frames, inputs) && AreInputs(list, inputs)
  {
    forall x :: 0 <= x < |list| ==> ServedOrCrowded(scheds, list[x], out)
  }

  lemma {:induction false} ListServedOrCrowded(scheds: seq<seq<int>>, list: seq<int>, out: nat, frames: nat,
      inputs: nat, outputs: nat)
    requires IsFrame(scheds, frames, inputs, outputs) && AreInputs(list, inputs) && out < outputs
    ensures var r := PlaceList(scheds, list, out, frames, inputs, outputs);
            Extends(r, scheds) && ListDone(r, list, out, frames, inputs)
  {
    if list != [] {
      var front, last := list[..|list| - 1], list[|list| - 1];
      ListServedOrCrowded(scheds, front, out, frames, inputs, outputs);
      var before := PlaceList(scheds, front, out, frames, inputs, outputs);
      PlaceExtends(before, last, out);
      forall x | 0 <= x < |list| - 1
        ensures ServedOrCrowded(Place(before, last, out), list[x], out)
      {
        assert list[x] == front[x];
        StaysServedOrCrowded(Place(before, last, out), before, list[x], out);
      }
    }
  }

  /** Every proposal to an output below `k` is served or crowded out. */
  ghost predicate AllServedOrCrowded(scheds: seq<seq<int>>, accepts: seq<seq<int>>, k: nat, frames: nat, inputs: nat,
      outputs: nat)
    requires IsGrid(scheds, frames, inputs) && AreProposals(accepts, inputs, outputs) && k <= outputs
  {
    forall o, x :: 0 <= o < k && 0 <= x < |accepts[o]| ==> ServedOrCrowded(scheds, accepts[o][x], o)
  }

  /** After a round every considered proposal is scheduled, or its ports use as many slots as there are. */
  lemma {:induction false} RoundServesOrCrowds(scheds: seq<seq<int>>, accepts: seq<seq<int>>, k: nat, frames: nat,
      inputs: nat, outputs: nat)
    requires IsFrame(scheds, frames, inputs, outputs) && AreProposals(accepts, inputs, outputs) && k <= outputs
    ensures var r := PlaceBelow(scheds, accepts, k, frames, inputs, outputs);
            Extends(r, scheds) && AllServedOrCrowded(r, accepts, k, frames, inputs, outputs)
  {
    if k > 0 {
      RoundServesOrCrowds(scheds, accepts, k - 1, frames, inputs, outputs);
      var before := PlaceBelow(scheds, accepts, k - 1, frames, inputs, outputs);
      ListServedOrCrowded(before, accepts[k - 1], k - 1, frames, inputs, outputs);
      StepServesOrCrowds(before, PlaceBelow(scheds, accepts, k, frames, inputs, outputs), accepts, k, frames, inputs,
          outputs);
    }
  }

  lemma StepServesOrCrowds(before: seq<seq<int>>, after: seq<seq<int>>, accepts: seq<seq<int>>, k: nat, frames: nat,
      inputs: nat, outputs: nat)
    requires IsFrame(before, frames, inputs, outputs) && IsFrame(after, frames, inputs, outputs)
    requires AreProposals(accepts, inputs, outputs) && 0 < k <= outputs
    requires Extends(after, before) && AllServedOrCrowded(before, accepts, k - 1, frames, inputs, outputs)
    requires ListDone(after, accepts[k - 1], k - 1, frames, inputs)
    ensures AllServedOrCrowded(after, accepts, k, frames, inputs, outputs)
  {
    hide ServedOrCrowded;
    forall o, x | 0 <= o < k && 0 <= x < |accepts[o]|
      ensures ServedOrCrowded(after, accepts[o][x], o)
    {
      if o < k - 1 {
        StaysServedOrCrowded(after, before, accepts[o][x], o);
      }
    }
  }

  // All rounds

  lemma StayServedOrCrowded(later: seq<seq<int>>, earlier: seq<seq<int>>, accepts: seq<seq<int>>, frames: nat,
      inputs: nat, outputs: nat)
    requires IsGrid(earlier, frames, inputs) && IsGrid(later, frames, inputs)
    requires AreProposals(accepts, inputs, outputs) && Extends(later, earlier)
    requires AllServedOrCrowded(earlier, accepts, outputs, frames, inputs, outputs)
    ensures AllServedOrCrowded(later, accepts, outputs, frames, inputs, outputs)
  {
    hide ServedOrCrowded, Extends;
    forall o, x | 0 <= o < outputs && 0 <= x < |accepts[o]|
      ensures ServedOrCrowded(later, accepts[o][x], o)
    {
      StaysServedOrCrowded(later, earlier, accepts[o][x], o);
    }
  }

  /** After all rounds every proposal considered in any of them is scheduled or crowded out. */
  lemma {:induction false} RoundsServeOrCrowd(draws: seq<seq<int>>, cutoff: int, frames: nat, inputs: nat, outputs: nat,
      x: nat)
    requires AreAllDraws(draws, inputs, outputs) && x < |draws|
    ensures AllServedOrCrowded(Rounds(draws, cutoff, frames, inputs, outputs),
                               Considered(draws[x], cutoff, inputs, outputs), outputs, frames, inputs, outputs)
  {
    hide AllServedOrCrowded, Extends, PlaceBelow, Considered;
    var k := |draws| - 1;
    var before := Rounds(draws[..k], cutoff, frames, inputs, outputs);
    RoundServesOrCrowds(before, Considered(draws[k], cutoff, inputs, outputs), outputs, frames, inputs, outputs);
    if x < k {
      RoundsServeOrCrowd(draws[..k], cutoff, frames, inputs, outputs, x);
      StayServedOrCrowded(Rounds(draws, cutoff, frames, inputs, outputs), before,
                          Considered(draws[x], cutoff, inputs, outputs), frames, inputs, outputs);
    }
  }

  /** A pair has been proposed in some round. */
  ghost predicate Proposed(draws: seq<seq<int>>, inp: nat, out: int)
    requires forall x :: 0 <= x < |draws| ==> inp < |draws[x]|
  {
    exists x :: 0 <= x < |draws| && draws[x][inp] == out
  }

  ghost predicate OnlyAdds(later: seq<seq<int>>, earlier: seq<seq<int>>, draws: seq<int>, frames: nat, inputs: nat)
    requires IsGrid(earlier, frames, inputs) && IsGrid(later, frames, inputs) && |draws| == inputs
  {
    forall f, i :: 0 <= f < frames && 0 <= i < inputs && later[f][i] != UNMATCHED ==>
      later[f][i] == earlier[f][i] || later[f][i] == draws[i]
  }

  ghost predicate AreDrawn(list: seq<int>, out: nat, draws: seq<int>) {
    AreInputs(list, |draws|) && forall x :: 0 <= x < |list| ==> draws[list[x]] == out
  }

  lemma {:induction false} ConsideredAreDrawn(draws: seq<int>, cutoff: int, k: nat, inputs: nat, outputs: nat)
    requires AreDraws(draws, inputs, outputs) && k <= inputs
    ensures forall o :: 0 <= o < outputs ==> AreDrawn(Considered(draws, cutoff, k, outputs)[o], o, draws)
  {
    if k > 0 {
      ConsideredAreDrawn(draws, cutoff, k - 1, inputs, outputs);
    }
  }

  lemma {:induction false} ListOnlyAdds(scheds: seq<seq<int>>, list: seq<int>, out: nat, draws: seq<int>, frames: nat,
      inputs: nat, outputs: nat)
    requires IsFrame(scheds, frames, inputs, outputs) && out < outputs && |draws| == inputs
    requires AreDrawn(list, out, draws)
    ensures OnlyAdds(PlaceList(scheds, list, out, frames, inputs, outputs), scheds, draws, frames, inputs)
  {
    if list != [] {
      ListOnlyAdds(scheds, list[..|list| - 1], out, draws, frames, inputs, outputs);
    }
  }

  lemma {:induction false} RoundOnlyAdds(scheds: seq<seq<int>>, accepts: seq<seq<int>>, k: nat, draws: seq<int>,
      frames: nat, inputs: nat, outputs: nat)
    requires IsFrame(scheds, frames, inputs, outputs) && AreProposals(accepts, inputs, outputs) && k <= outputs
    requires |draws| == inputs && forall o :: 0 <= o < outputs ==> AreDrawn(accepts[o], o, draws)
    ensures OnlyAdds(PlaceBelow(scheds, accepts, k, frames, inputs, outputs), scheds, draws, frames, inputs)
  {
    if k > 0 {
      RoundOnlyAdds(scheds, accepts, k - 1, draws, frames, inputs, outputs);
      ListOnlyAdds(PlaceBelow(scheds, accepts, k - 1, frames, inputs, outputs), accepts[k - 1], k - 1, draws, frames,
                   inputs, outputs);
    }
  }

  /** The rounds schedule nothing that was not proposed. */
  lemma {:induction false} RoundsServeProposals(draws: seq<seq<int>>, cutoff: int, frames: nat, inputs: nat,
      outputs: nat, f: nat, i: nat)
    requires AreAllDraws(draws, inputs, outputs) && f < frames && i < inputs
    ensures var r := Rounds(draws, cutoff, frames, inputs, outputs);
            r[f][i] != UNMATCHED ==> Proposed(draws, i, r[f][i])
  {
    if draws != [] {
      var k := |draws| - 1;
      var before := Rounds(draws[..k], cutoff, frames, inputs, outputs);
      RoundsServeProposals(draws[..k], cutoff, frames, inputs, outputs, f, i);
      ConsideredAreDrawn(draws[k], cutoff, inputs, inputs, outputs);
      RoundOnlyAdds(before, Considered(draws[k], cutoff, inputs, outputs), outputs, draws[k], frames, inputs, outputs);
      if before[f][i] != UNMATCHED {
        var x :| 0 <= x < k && draws[..k][x][i] == before[f][i];
        assert draws[x][i] == before[f][i];
      }
    }
  }

  /** Proposals to the first `inputs` outputs only leave a frame on these. */
  lemma RoundsStayWithin(draws: seq<seq<int>>, cutoff: int, frames: nat, inputs: nat, outputs: nat)
    requires AreAllDraws(draws, inputs, inputs) && inputs <= outputs
    ensures AreAllDraws(draws, inputs, outputs)
    ensures IsFrame(Rounds(draws, cutoff, frames, inputs, outputs), frames, inputs, inputs)
  {
    forall f, i | 0 <= f < frames && 0 <= i < inputs {
      RoundsServeProposals(draws, cutoff, frames, inputs, outputs, f, i);
    }
  }
}
