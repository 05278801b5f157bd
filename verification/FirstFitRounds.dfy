/** Where first fit puts the proposals, by what it has to do: the first slot that is open to both ports. */
module FirstFitRounds {
  import opened Matchings
  import opened SbQpsSpec
  import opened SerenaSpec
  import opened Sums

  // One proposal

  /** The input is free in the slot and nobody is matched to the output. */
  ghost predicate IsOpen(slot: seq<int>, inp: nat, out: nat)
    requires inp < |slot|
  {
    slot[inp] == UNMATCHED && out !in slot
  }

  /** The pair is in the first slot open to it and nothing else has changed; without an open slot nothing has. */
  ghost predicate IsPlaced(before: seq<seq<int>>, after: seq<seq<int>>, inp: nat, out: nat)
    requires forall f :: 0 <= f < |before| ==> inp < |before[f]|
  {
    if forall f :: 0 <= f < |before| ==> !IsOpen(before[f], inp, out) then after == before
    else exists f :: 0 <= f < |before| && IsOpen(before[f], inp, out)
                     && (forall g :: 0 <= g < f ==> !IsOpen(before[g], inp, out))
                     && after == before[f := before[f][inp := out]]
  }

  lemma OpenIsFree(scheds: seq<seq<int>>, f: nat, inp: nat, out: nat)
    requires f < |scheds| && inp < |scheds[f]|
    ensures BothFree(scheds, f, inp, out) <==> IsOpen(scheds[f], inp, out)
  {
    if out in scheds[f] {
      var i :| 0 <= i < |scheds[f]| && scheds[f][i] == out;
      assert Takes(scheds[f], out);
    }
  }

  lemma PlaceIsPlaced(scheds: seq<seq<int>>, inp: nat, out: nat)
    requires forall f :: 0 <= f < |scheds| ==> inp < |scheds[f]|
    ensures IsPlaced(scheds, Place(scheds, inp, out), inp, out)
  {
    hide BothFree, IsOpen;
    FirstFitFits(scheds, inp, out, 0);
    forall f | 0 <= f < |scheds|
      ensures BothFree(scheds, f, inp, out) <==> IsOpen(scheds[f], inp, out)
    {
      OpenIsFree(scheds, f, inp, out);
    }
  }

  // The proposals of one output

  ghost predicate SameColumn(a: seq<seq<int>>, b: seq<seq<int>>, i: nat)
    requires |a| == |b|
    requires forall f :: 0 <= f < |a| ==> i < |a[f]| && i < |b[f]|
  {
    forall f :: 0 <= f < |a| ==> a[f][i] == b[f][i]
  }

  /** In column `i` exactly slot `f` has changed, to `o`. */
  ghost predicate ChangedAt(a: seq<seq<int>>, b: seq<seq<int>>, i: nat, o: nat, f: nat)
    requires |a| == |b| && f < |a|
    requires forall g :: 0 <= g < |a| ==> i < |a[g]| && i < |b[g]|
  {
    forall g :: 0 <= g < |a| ==> b[g][i] == if g == f then o else a[g][i]
  }

  /** Slot `g` is open to the pair at its turn: from the start, and no earlier proposer of the output has taken it. */
  ghost predicate StaysOpen(a: seq<seq<int>>, b: seq<seq<int>>, earlier: seq<int>, i: nat, o: nat, g: nat, inputs: nat)
    requires IsGrid(a, |a|, inputs) && IsGrid(b, |a|, inputs) && g < |a| && i < inputs && AreInputs(earlier, inputs)
  {
    IsOpen(a[g], i, o) && forall y :: 0 <= y < |earlier| ==> b[g][earlier[y]] != o
  }

  /** The pair is in the first slot that is open at its turn, if there is one. */
  ghost predicate TakesFirstOpen(a: seq<seq<int>>, b: seq<seq<int>>, earlier: seq<int>, i: nat, o: nat, inputs: nat)
    requires IsGrid(a, |a|, inputs) && IsGrid(b, |a|, inputs) && i < inputs && AreInputs(earlier, inputs)
  {
    || (SameColumn(a, b, i) && forall g :: 0 <= g < |a| ==> !StaysOpen(a, b, earlier, i, o, g, inputs))
    || (exists f :: 0 <= f < |a| && StaysOpen(a, b, earlier, i, o, f, inputs) && ChangedAt(a, b, i, o, f)
                    && forall g :: 0 <= g < f ==> !StaysOpen(a, b, earlier, i, o, g, inputs))
  }

  ghost predicate ListPlaced(a: seq<seq<int>>, b: seq<seq<int>>, list: seq<int>, o: nat, inputs: nat)
    requires IsGrid(a, |a|, inputs) && AreInputs(list, inputs)
  {
    && IsGrid(b, |a|, inputs)
    && (forall i :: 0 <= i < inputs && i !in list ==> SameColumn(a, b, i))
    && (forall x :: 0 <= x < |list| ==> TakesFirstOpen(a, b, list[..x], list[x], o, inputs))
  }

  /** A column that starts and ends alike takes the first open slot alike. */
  lemma SameTakes(a: seq<seq<int>>, b: seq<seq<int>>, c: seq<seq<int>>, d: seq<seq<int>>, earlier: seq<int>, i: nat,
      o: nat, inputs: nat)
    requires IsGrid(a, |a|, inputs) && IsGrid(b, |a|, inputs) && IsGrid(c, |a|, inputs) && IsGrid(d, |a|, inputs)
    requires i < inputs && AreInputs(earlier, inputs)
    requires SameColumn(a, c, i) && SameColumn(b, d, i)
    requires forall g :: 0 <= g < |a| ==> (o in a[g] <==> o in c[g])
    requires forall y :: 0 <= y < |earlier| ==> SameColumn(b, d, earlier[y])
    requires TakesFirstOpen(a, b, earlier, i, o, inputs)
    ensures TakesFirstOpen(c, d, earlier, i, o, inputs)
  {
    forall g | 0 <= g < |a|
      ensures StaysOpen(a, b, earlier, i, o, g, inputs) <==> StaysOpen(c, d, earlier, i, o, g, inputs)
    {
    }
    hide StaysOpen;
    if SameColumn(a, b, i) && forall g :: 0 <= g < |a| ==> !StaysOpen(a, b, earlier, i, o, g, inputs) {
      assert SameColumn(c, d, i);
    } else {
      var f :| 0 <= f < |a| && StaysOpen(a, b, earlier, i, o, f, inputs) && ChangedAt(a, b, i, o, f)
               && forall g :: 0 <= g < f ==> !StaysOpen(a, b, earlier, i, o, g, inputs);
      assert ChangedAt(c, d, i, o, f);
    }
  }

  /** What the earlier proposers of an output have taken is what is new in the slot. */
  lemma OpenAtTurn(a: seq<seq<int>>, b: seq<seq<int>>, front: seq<int>, i: nat, o: nat, g: nat, inputs: nat)
    requires IsGrid(a, |a|, inputs) && AreInputs(front, inputs) && ListPlaced(a, b, front, o, inputs)
    requires Extends(b, a) && i < inputs && i !in front && g < |a|
    ensures IsOpen(b[g], i, o) <==> StaysOpen(a, b, front, i, o, g, inputs)
  {
    assert SameColumn(a, b, i);
    if o in b[g] && o !in a[g] {
      var j :| 0 <= j < inputs && b[g][j] == o;
      assert j in front;
      var y :| 0 <= y < |front| && front[y] == j;
      assert b[g][front[y]] == o;
    }
    if o in a[g] {
      var j :| 0 <= j < inputs && a[g][j] == o;
      assert b[g][j] == o;
    }
  }

  /** One more proposal, from an input that is not in the list yet. */
  lemma ListOneMore(a: seq<seq<int>>, b: seq<seq<int>>, front: seq<int>, i: nat, o: nat, inputs: nat)
    requires IsGrid(a, |a|, inputs) && AreInputs(front, inputs) && ListPlaced(a, b, front, o, inputs)
    requires Extends(b, a) && i < inputs && i !in front
    ensures AreInputs(front + [i], inputs) && ListPlaced(a, Place(b, i, o), front + [i], o, inputs)
  {
    var c, list := Place(b, i, o), front + [i];
    PlaceIsPlaced(b, i, o);
    PlaceColumns(b, i, o, inputs);
    assert list[|front|] == i && list[..|front|] == front;
    forall g | 0 <= g < |a|
      ensures IsOpen(b[g], i, o) <==> StaysOpen(a, b, front, i, o, g, inputs)
    {
      OpenAtTurn(a, b, front, i, o, g, inputs);
    }
    LastTakesFirstOpen(a, b, c, front, i, o, inputs);
    forall x | 0 <= x < |front|
      ensures TakesFirstOpen(a, c, list[..x], list[x], o, inputs)
    {
      assert list[..x] == front[..x] && list[x] == front[x];
      assert forall y :: 0 <= y < x ==> front[y] in front;
      SameTakes(a, b, a, c, front[..x], front[x], o, inputs);
    }
    hide TakesFirstOpen, Place, IsPlaced;
    forall j | 0 <= j < inputs && j !in list
      ensures SameColumn(a, c, j)
    {
      assert j !in front && j != i;
    }
  }

  /** A proposal changes at most its own column. */
  lemma PlaceColumns(b: seq<seq<int>>, i: nat, o: nat, inputs: nat)
    requires IsGrid(b, |b|, inputs) && i < inputs
    ensures IsGrid(Place(b, i, o), |b|, inputs)
    ensures forall j :: 0 <= j < inputs && j != i ==> SameColumn(b, Place(b, i, o), j)
  {
  }

  lemma LastTakesFirstOpen(a: seq<seq<int>>, b: seq<seq<int>>, c: seq<seq<int>>, front: seq<int>, i: nat, o: nat,
      inputs: nat)
    requires IsGrid(a, |a|, inputs) && IsGrid(b, |a|, inputs) && IsGrid(c, |a|, inputs) && AreInputs(front, inputs)
    requires i < inputs && i !in front && SameColumn(a, b, i) && IsPlaced(b, c, i, o)
    requires forall j :: 0 <= j < inputs && j != i ==> SameColumn(b, c, j)
    requires forall g :: 0 <= g < |a| ==> (IsOpen(b[g], i, o) <==> StaysOpen(a, b, front, i, o, g, inputs))
    ensures TakesFirstOpen(a, c, front, i, o, inputs)
  {
    forall g | 0 <= g < |a|
      ensures StaysOpen(a, b, front, i, o, g, inputs) <==> StaysOpen(a, c, front, i, o, g, inputs)
    {
      assert forall y :: 0 <= y < |front| ==> front[y] in front && SameColumn(b, c, front[y]);
    }
    hide StaysOpen, IsOpen;
    if forall f :: 0 <= f < |b| ==> !IsOpen(b[f], i, o) {
      assert SameColumn(a, c, i);
    } else {
      var f :| 0 <= f < |b| && IsOpen(b[f], i, o) && (forall g :: 0 <= g < f ==> !IsOpen(b[g], i, o))
               && c == b[f := b[f][i := o]];
      assert ChangedAt(a, c, i, o, f);
    }
  }

  /** All proposals of an output, each input proposing once. */
  lemma {:induction false} ListIsPlaced(a: seq<seq<int>>, list: seq<int>, o: nat, frames: nat, inputs: nat,
      outputs: nat)
    requires IsFrame(a, frames, inputs, outputs) && AreInputs(list, inputs) && o < outputs
    requires forall x, y :: 0 <= x < y < |list| ==> list[x] != list[y]
    ensures ListPlaced(a, PlaceList(a, list, o, frames, inputs, outputs), list, o, inputs)
    ensures Extends(PlaceList(a, list, o, frames, inputs, outputs), a)
  {
    hide ListPlaced, Extends, Place;
    if list == [] {
      NothingPlaced(a, o, inputs);
    } else {
      var front, last := list[..|list| - 1], list[|list| - 1];
      assert front + [last] == list;
      assert last !in front;
      ListIsPlaced(a, front, o, frames, inputs, outputs);
      ListOneMore(a, PlaceList(a, front, o, frames, inputs, outputs), front, last, o, inputs);
      ListServedOrCrowded(a, list, o, frames, inputs, outputs);
    }
  }

  lemma NothingPlaced(a: seq<seq<int>>, o: nat, inputs: nat)
    requires IsGrid(a, |a|, inputs)
    ensures ListPlaced(a, a, [], o, inputs) && Extends(a, a)
  {
  }

  // A round

  /** Column `i` belongs to one of the lists below `k`. */
  ghost predicate IsListed(accepts: seq<seq<int>>, k: nat, i: int)
    requires k <= |accepts|
  {
    exists o :: 0 <= o < k && i in accepts[o]
  }

  /** The proposals of the outputs below `k`, each where its list puts it. */
  ghost predicate BelowPlaced(a: seq<seq<int>>, b: seq<seq<int>>, accepts: seq<seq<int>>, k: nat, inputs: nat)
    requires IsGrid(a, |a|, inputs) && AreProposals(accepts, inputs, |accepts|) && k <= |accepts|
  {
    && IsGrid(b, |a|, inputs)
    && (forall i :: 0 <= i < inputs && !IsListed(accepts, k, i) ==> SameColumn(a, b, i))
    && (forall o, x :: 0 <= o < k && 0 <= x < |accepts[o]| ==>
          TakesFirstOpen(a, b, accepts[o][..x], accepts[o][x], o, inputs))
  }

  ghost predicate AreDistinct(list: seq<int>) {
    forall x, y :: 0 <= x < y < |list| ==> list[x] != list[y]
  }

  /** An output is new in a slot only in the columns of its own list. */
  lemma NotTakenBelow(a: seq<seq<int>>, b: seq<seq<int>>, accepts: seq<seq<int>>, draws: seq<int>, k: nat, inputs: nat)
    requires IsGrid(a, |a|, inputs) && AreProposals(accepts, inputs, |accepts|) && k < |accepts| && |draws| == inputs
    requires forall o :: 0 <= o < |accepts| ==> AreDrawn(accepts[o], o, draws)
    requires BelowPlaced(a, b, accepts, k, inputs) && Extends(b, a) && OnlyAdds(b, a, draws, |a|, inputs)
    ensures forall g :: 0 <= g < |a| ==> (k in b[g] <==> k in a[g])
    ensures forall x :: 0 <= x < |accepts[k]| ==> SameColumn(a, b, accepts[k][x])
  {
    hide TakesFirstOpen;
    assert forall i :: 0 <= i < inputs && draws[i] == k ==> !IsListed(accepts, k, i);
    forall g, j | 0 <= g < |a| && 0 <= j < inputs
      ensures b[g][j] == k <==> a[g][j] == k
    {
      assert draws[j] == k ==> SameColumn(a, b, j);
    }
  }

  /** The list of one more output. */
  lemma BelowOneMore(a: seq<seq<int>>, b: seq<seq<int>>, c: seq<seq<int>>, accepts: seq<seq<int>>, draws: seq<int>,
      k: nat, inputs: nat)
    requires IsGrid(a, |a|, inputs) && AreProposals(accepts, inputs, |accepts|) && k < |accepts| && |draws| == inputs
    requires forall o :: 0 <= o < |accepts| ==> AreDrawn(accepts[o], o, draws)
    requires BelowPlaced(a, b, accepts, k, inputs) && Extends(b, a) && OnlyAdds(b, a, draws, |a|, inputs)
    requires ListPlaced(b, c, accepts[k], k, inputs)
    ensures BelowPlaced(a, c, accepts, k + 1, inputs)
  {
    NotTakenBelow(a, b, accepts, draws, k, inputs);
    hide Extends, OnlyAdds, TakesFirstOpen;
    forall o, x | 0 <= o < k + 1 && 0 <= x < |accepts[o]|
      ensures TakesFirstOpen(a, c, accepts[o][..x], accepts[o][x], o, inputs)
    {
      var list := accepts[o];
      assert AreDrawn(list, o, draws) && AreDrawn(accepts[k], k, draws);
      if o < k {
        assert forall y :: 0 <= y < |list| ==> list[y] !in accepts[k] && SameColumn(b, c, list[y]);
        SameTakes(a, b, a, c, list[..x], list[x], o, inputs);
      } else {
        SameTakes(b, c, a, c, list[..x], list[x], o, inputs);
      }
    }
    forall i | 0 <= i < inputs && !IsListed(accepts, k + 1, i)
      ensures SameColumn(a, c, i)
    {
      assert i !in accepts[k] && !IsListed(accepts, k, i);
      assert SameColumn(a, b, i) && SameColumn(b, c, i);
    }
  }

  lemma {:induction false} BelowIsPlaced(a: seq<seq<int>>, accepts: seq<seq<int>>, draws: seq<int>, k: nat,
      frames: nat, inputs: nat, outputs: nat)
    requires IsFrame(a, frames, inputs, outputs) && AreProposals(accepts, inputs, outputs) && k <= outputs
    requires |draws| == inputs && forall o :: 0 <= o < outputs ==> AreDrawn(accepts[o], o, draws)
    requires forall o :: 0 <= o < outputs ==> AreDistinct(accepts[o])
    ensures BelowPlaced(a, PlaceBelow(a, accepts, k, frames, inputs, outputs), accepts, k, inputs)
  {
    hide ListPlaced, Extends, OnlyAdds, BelowPlaced, AreDrawn;
    if k == 0 {
      NothingPlacedBelow(a, accepts, inputs);
    } else {
      var b := PlaceBelow(a, accepts, k - 1, frames, inputs, outputs);
      BelowIsPlaced(a, accepts, draws, k - 1, frames, inputs, outputs);
      RoundServesOrCrowds(a, accepts, k - 1, frames, inputs, outputs);
      RoundOnlyAdds(a, accepts, k - 1, draws, frames, inputs, outputs);
      assert AreDistinct(accepts[k - 1]);
      ListIsPlaced(b, accepts[k - 1], k - 1, frames, inputs, outputs);
      BelowOneMore(a, b, PlaceBelow(a, accepts, k, frames, inputs, outputs), accepts, draws, k - 1, inputs);
    }
  }

  lemma NothingPlacedBelow(a: seq<seq<int>>, accepts: seq<seq<int>>, inputs: nat)
    requires IsGrid(a, |a|, inputs) && AreProposals(accepts, inputs, |accepts|)
    ensures BelowPlaced(a, a, accepts, 0, inputs)
  {
  }

  /** At the turn of input `i` slot `g` is open to the pair: from the start, and no earlier input got the output. */
  ghost predicate OpenInTurn(a: seq<seq<int>>, b: seq<seq<int>>, i: nat, o: nat, g: nat, inputs: nat)
    requires IsGrid(a, |a|, inputs) && IsGrid(b, |a|, inputs) && g < |a| && i < inputs
  {
    IsOpen(a[g], i, o) && o !in b[g][..i]
  }

  /** Input `i` gets output `o` in the first slot open at its turn, or nowhere if there is none. */
  ghost predicate GetsFirstOpen(a: seq<seq<int>>, b: seq<seq<int>>, i: nat, o: nat, inputs: nat)
    requires IsGrid(a, |a|, inputs) && IsGrid(b, |a|, inputs) && i < inputs
  {
    || (SameColumn(a, b, i) && forall g :: 0 <= g < |a| ==> !OpenInTurn(a, b, i, o, g, inputs))
    || (exists f :: 0 <= f < |a| && OpenInTurn(a, b, i, o, f, inputs) && ChangedAt(a, b, i, o, f)
                    && forall g :: 0 <= g < f ==> !OpenInTurn(a, b, i, o, g, inputs))
  }

  /** A round: every proposal that is considered gets the first open slot, all other inputs stay as they were. */
  ghost predicate IsFirstFitRound(a: seq<seq<int>>, b: seq<seq<int>>, draws: seq<int>, cutoff: int, inputs: nat,
      outputs: nat)
    requires IsGrid(a, |a|, inputs) && AreDraws(draws, inputs, outputs)
  {
    && IsGrid(b, |a|, inputs)
    && forall i :: 0 <= i < inputs ==>
         if draws[i] != UNMATCHED && IsConsidered(draws, cutoff, draws[i], i)
         then GetsFirstOpen(a, b, i, draws[i], inputs) else SameColumn(a, b, i)
  }

  /** The earlier proposers of an output are its earlier takers. */
  lemma SameTurn(a: seq<seq<int>>, b: seq<seq<int>>, list: seq<int>, x: nat, draws: seq<int>, o: nat, g: nat,
      inputs: nat)
    requires IsGrid(a, |a|, inputs) && IsGrid(b, |a|, inputs) && |draws| == inputs && g < |a|
    requires AreInputs(list, inputs) && x < |list| && forall y, z :: 0 <= y < z < |list| ==> list[y] < list[z]
    requires forall i :: 0 <= i < inputs && draws[i] == o && i !in list ==> SameColumn(a, b, i)
    requires OnlyAdds(b, a, draws, |a|, inputs)
    ensures StaysOpen(a, b, list[..x], list[x], o, g, inputs) <==> OpenInTurn(a, b, list[x], o, g, inputs)
  {
    var i := list[x];
    if o in b[g][..i] && o !in a[g] {
      var j :| 0 <= j < i && b[g][j] == o;
      assert a[g][j] != o;
      assert draws[j] == o && !SameColumn(a, b, j);
      var y :| 0 <= y < |list| && list[y] == j;
      assert y < x && list[..x][y] == j;
    }
    if IsOpen(a[g], i, o) && !StaysOpen(a, b, list[..x], i, o, g, inputs) {
      var y :| 0 <= y < x && b[g][list[..x][y]] == o;
      assert list[y] < i && b[g][..i][list[y]] == o;
    }
  }

  lemma GetsAtTurn(a: seq<seq<int>>, b: seq<seq<int>>, list: seq<int>, x: nat, draws: seq<int>, o: nat, inputs: nat)
    requires IsGrid(a, |a|, inputs) && IsGrid(b, |a|, inputs) && |draws| == inputs
    requires AreInputs(list, inputs) && x < |list| && forall y, z :: 0 <= y < z < |list| ==> list[y] < list[z]
    requires forall i :: 0 <= i < inputs && draws[i] == o && i !in list ==> SameColumn(a, b, i)
    requires OnlyAdds(b, a, draws, |a|, inputs) && TakesFirstOpen(a, b, list[..x], list[x], o, inputs)
    ensures GetsFirstOpen(a, b, list[x], o, inputs)
  {
    forall g | 0 <= g < |a| {
      SameTurn(a, b, list, x, draws, o, g, inputs);
    }
  }

  /** A round is first fit, proposal by proposal. */
  lemma RoundIsFirstFit(a: seq<seq<int>>, draws: seq<int>, cutoff: int, frames: nat, inputs: nat, outputs: nat)
    requires IsFrame(a, frames, inputs, outputs) && AreDraws(draws, inputs, outputs)
    ensures IsFirstFitRound(a, Round(a, draws, cutoff, frames, inputs, outputs), draws, cutoff, inputs, outputs)
  {
    var b, accepts := Round(a, draws, cutoff, frames, inputs, outputs), Considered(draws, cutoff, inputs, outputs);
    ConsideredAreDrawn(draws, cutoff, inputs, inputs, outputs);
    ConsideredAreConsidered(draws, cutoff, outputs);
    BelowIsPlaced(a, accepts, draws, outputs, frames, inputs, outputs);
    RoundOnlyAdds(a, accepts, outputs, draws, frames, inputs, outputs);
    RoundGets(a, b, accepts, draws, cutoff, inputs, outputs);
  }

  lemma RoundGets(a: seq<seq<int>>, b: seq<seq<int>>, accepts: seq<seq<int>>, draws: seq<int>, cutoff: int,
      inputs: nat, outputs: nat)
    requires IsGrid(a, |a|, inputs) && AreDraws(draws, inputs, outputs)
    requires AreConsidered(accepts, draws, cutoff, outputs) && BelowPlaced(a, b, accepts, outputs, inputs)
    requires OnlyAdds(b, a, draws, |a|, inputs)
    ensures IsFirstFitRound(a, b, draws, cutoff, inputs, outputs)
  {
    hide OnlyAdds, TakesFirstOpen, GetsFirstOpen, SameColumn;
    forall i | 0 <= i < inputs
      ensures if draws[i] != UNMATCHED && IsConsidered(draws, cutoff, draws[i], i)
              then GetsFirstOpen(a, b, i, draws[i], inputs) else SameColumn(a, b, i)
    {
      var o := draws[i];
      if o != UNMATCHED && IsConsidered(draws, cutoff, o, i) {
        var list := accepts[o];
        assert ListsConsidered(list, draws, cutoff, o, inputs);
        var x :| 0 <= x < |list| && list[x] == i;
        forall j | 0 <= j < inputs && draws[j] == o && j !in list
          ensures SameColumn(a, b, j)
        {
          NotListed(accepts, draws, cutoff, j, outputs);
        }
        GetsAtTurn(a, b, list, x, draws, o, inputs);
      } else {
        NotListed(accepts, draws, cutoff, i, outputs);
      }
    }
  }

  /** An input outside the list it draws is in no list. */
  lemma NotListed(accepts: seq<seq<int>>, draws: seq<int>, cutoff: int, i: nat, outputs: nat)
    requires AreConsidered(accepts, draws, cutoff, outputs) && i < |draws|
    requires 0 <= draws[i] < outputs ==> !IsConsidered(draws, cutoff, draws[i], i)
    ensures !IsListed(accepts, outputs, i)
  {
    forall o | 0 <= o < outputs
      ensures i !in accepts[o]
    {
      assert ListsConsidered(accepts[o], draws, cutoff, o, |draws|);
    }
  }

  // All rounds

  /** From an empty frame, one round of first fit after the other. */
  lemma RoundsInTurn(draws: seq<seq<int>>, cutoff: int, frames: nat, inputs: nat, outputs: nat, x: nat)
    requires AreAllDraws(draws, inputs, outputs) && x < |draws|
    ensures forall f, i :: 0 <= f < frames && 0 <= i < inputs ==>
              Rounds([], cutoff, frames, inputs, outputs)[f][i] == UNMATCHED
    ensures IsFirstFitRound(Rounds(draws[..x], cutoff, frames, inputs, outputs),
                            Rounds(draws[..x + 1], cutoff, frames, inputs, outputs), draws[x], cutoff, inputs, outputs)
  {
    hide IsFirstFitRound;
    assert draws[..x + 1][..x] == draws[..x];
    RoundIsFirstFit(Rounds(draws[..x], cutoff, frames, inputs, outputs), draws[x], cutoff, frames, inputs, outputs);
  }

  /** What a round has to do leaves no choice. */
  lemma {:induction false} RoundIsUnique(a: seq<seq<int>>, b: seq<seq<int>>, c: seq<seq<int>>, draws: seq<int>,
      cutoff: int, inputs: nat, outputs: nat, n: nat)
    requires IsGrid(a, |a|, inputs) && AreDraws(draws, inputs, outputs) && n <= inputs
    requires IsFirstFitRound(a, b, draws, cutoff, inputs, outputs)
    requires IsFirstFitRound(a, c, draws, cutoff, inputs, outputs)
    ensures forall i :: 0 <= i < n ==> SameColumn(b, c, i)
    ensures n == inputs ==> b == c
  {
    if n > 0 {
      RoundIsUnique(a, b, c, draws, cutoff, inputs, outputs, n - 1);
      var i := n - 1;
      if draws[i] != UNMATCHED && IsConsidered(draws, cutoff, draws[i], i) {
        SameFirstOpen(a, b, c, i, draws[i], inputs);
      }
    }
    if n == inputs {
      forall f, i | 0 <= f < |a| && 0 <= i < inputs
        ensures b[f][i] == c[f][i]
      {
        assert SameColumn(b, c, i);
      }
      GridsEqual(b, c);
    }
  }

  lemma SameFirstOpen(a: seq<seq<int>>, b: seq<seq<int>>, c: seq<seq<int>>, i: nat, o: nat, inputs: nat)
    requires IsGrid(a, |a|, inputs) && IsGrid(b, |a|, inputs) && IsGrid(c, |a|, inputs) && i < inputs
    requires forall j :: 0 <= j < i ==> SameColumn(b, c, j)
    requires GetsFirstOpen(a, b, i, o, inputs) && GetsFirstOpen(a, c, i, o, inputs)
    ensures SameColumn(b, c, i)
  {
    forall g | 0 <= g < |a|
      ensures OpenInTurn(a, b, i, o, g, inputs) <==> OpenInTurn(a, c, i, o, g, inputs)
    {
      SamePrefix(b, c, i, g, inputs);
    }
    hide OpenInTurn;
  }

  lemma SamePrefix(b: seq<seq<int>>, c: seq<seq<int>>, i: nat, g: nat, inputs: nat)
    requires IsGrid(b, |b|, inputs) && IsGrid(c, |b|, inputs) && i < inputs && g < |b|
    requires forall j :: 0 <= j < i ==> SameColumn(b, c, j)
    ensures b[g][..i] == c[g][..i]
  {
    forall j | 0 <= j < i
      ensures b[g][j] == c[g][j]
    {
      assert SameColumn(b, c, j);
    }
  }
}
