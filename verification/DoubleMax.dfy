/**
 The double-max decomposition scheduler: in every round each input proposes to its longest queue, each
 output accepts the longest of the proposals it kept, and the accepted packets are taken off the matrix.
 */
module DoubleMax {
  import opened Decomposition
  import opened Matchings
  import opened MaxTrees
  import opened Sums
  import opened Voq

  // Sorting proposals

  /** The comparison of the proposals of an output: longer queue first, then larger input. */
  predicate Before(a: nat, b: nat, key: seq<int>)
    requires a < |key| && b < |key|
  {
    key[a] > key[b] || (key[a] == key[b] && a > b)
  }

  function InsertBefore(a: nat, list: seq<int>, key: seq<int>): (r: seq<int>)
    requires a < |key| && AreInputs(list, |key|)
    ensures AreInputs(r, |key|)
  {
    if list == [] || Before(a, list[0], key) then [a] + list else [list[0]] + InsertBefore(a, list[1..], key)
  }

  /** The proposals in the order of the comparison, which is total, so this is what any sort gives. */
  function Sorted(list: seq<int>, key: seq<int>): (r: seq<int>)
    requires AreInputs(list, |key|)
    ensures AreInputs(r, |key|)
  {
    if list == [] then [] else InsertBefore(list[0], Sorted(list[1..], key), key)
  }

  lemma {:induction false} InsertKeepsMembers(a: nat, list: seq<int>, key: seq<int>)
    requires a < |key| && AreInputs(list, |key|)
    ensures multiset(InsertBefore(a, list, key)) == multiset(list) + multiset{a}
  {
    if list == [] || Before(a, list[0], key) {
    } else {
      InsertKeepsMembers(a, list[1..], key);
      assert list == [list[0]] + list[1..];
    }
  }

  lemma {:induction false} SortKeepsMembers(list: seq<int>, key: seq<int>)
    requires AreInputs(list, |key|)
    ensures multiset(Sorted(list, key)) == multiset(list)
  {
    if list != [] {
      SortKeepsMembers(list[1..], key);
      InsertKeepsMembers(list[0], Sorted(list[1..], key), key);
      assert list == [list[0]] + list[1..];
    }
  }

  /** No proposal comes before an earlier one. */
  ghost predicate IsOrdered(list: seq<int>, key: seq<int>)
    requires AreInputs(list, |key|)
  {
    forall x, y :: 0 <= x < y < |list| ==> !Before(list[y], list[x], key)
  }

  lemma {:induction false} InsertKeepsOrder(a: nat, list: seq<int>, key: seq<int>)
    requires a < |key| && AreInputs(list, |key|) && IsOrdered(list, key)
    ensures IsOrdered(InsertBefore(a, list, key), key)
  {
    if list != [] && !Before(a, list[0], key) {
      var rest := InsertBefore(a, list[1..], key);
      InsertKeepsOrder(a, list[1..], key);
      InsertKeepsMembers(a, list[1..], key);
      forall y | 0 <= y < |rest|
        ensures !Before(rest[y], list[0], key)
      {
        assert rest[y] in multiset(rest);
        if rest[y] != a {
          assert rest[y] in list[1..];
          var x :| 0 <= x < |list[1..]| && list[1..][x] == rest[y];
          assert list[x + 1] == rest[y];
        }
      }
    }
  }

  lemma {:induction false} SortOrders(list: seq<int>, key: seq<int>)
    requires AreInputs(list, |key|)
    ensures IsOrdered(Sorted(list, key), key)
  {
    if list != [] {
      SortOrders(list[1..], key);
      InsertKeepsOrder(list[0], Sorted(list[1..], key), key);
    }
  }

  /** `std::sort` with the comparison: the same proposals, none after one that comes later in the order. */
  method SortProposals(list: seq<int>, key: seq<int>) returns (order: seq<int>)
    requires AreInputs(list, |key|)
    ensures AreInputs(order, |key|) && multiset(order) == multiset(list) && IsOrdered(order, key)
  {
    SortKeepsMembers(list, key);
    SortOrders(list, key);
    order := Sorted(list, key);
  }

  /** The first of the ordered proposals is one of them, and none comes before it. */
  lemma OrderedHead(list: seq<int>, order: seq<int>, key: seq<int>)
    requires AreInputs(list, |key|) && AreInputs(order, |key|) && list != []
    requires multiset(order) == multiset(list) && IsOrdered(order, key)
    ensures order != [] && order[0] in list && forall x :: 0 <= x < |list| ==> !Before(list[x], order[0], key)
  {
    assert list[0] in multiset(order);
    assert order[0] in multiset(list);
    forall x | 0 <= x < |list|
      ensures !Before(list[x], order[0], key)
    {
      assert list[x] in multiset(order);
      var y :| 0 <= y < |order| && order[y] == list[x];
    }
  }

  // One round, on values

  /** The output an input proposes to: the first of its longest queues, or none without packets. */
  ghost function Favourite(row: seq<int>): (r: int)
    requires NonNegative(row)
    ensures r == UNMATCHED <==> forall d :: 0 <= d < |row| ==> row[d] == 0
    ensures r != UNMATCHED ==> 0 <= r < |row| && IsLongest(row, r) && row[r] > 0
  {
    if forall d :: 0 <= d < |row| ==> row[d] == 0 then UNMATCHED
    else
      var d := LongestOf(row);
      d
  }

  ghost function LongestOf(row: seq<int>): (d: nat)
    requires row != []
    ensures IsLongest(row, d)
  {
    HasLongestWhole(row);
    var d: nat :| IsLongest(row, d);
    d
  }

  lemma HasLongestWhole(row: seq<int>)
    requires row != []
    ensures exists d: nat :: IsLongest(row, d)
  {
    var d := HasLongest(row, |row|);
    assert row[..|row|] == row;
  }

  /** There is only one first longest queue. */
  lemma FavouriteIs(row: seq<int>, d: nat)
    requires NonNegative(row) && IsLongest(row, d) && row[d] > 0
    ensures Favourite(row) == d
  {
  }

  ghost function Favourites(q: seq<seq<int>>, inputs: nat, outputs: nat): (r: seq<int>)
    requires IsLengthGrid(q, inputs, outputs)
    ensures |r| == inputs && forall i :: 0 <= i < inputs ==>
      NonNegative(q[i]) && r[i] == Favourite(q[i]) && (r[i] == UNMATCHED || 0 <= r[i] < outputs)
  {
    seq(inputs, i requires 0 <= i < inputs => Favourite(q[i]))
  }

  /** The proposals the outputs keep in a round. */
  ghost function KeptProposals(q: seq<seq<int>>, cutoff: int, k: nat, inputs: nat, outputs: nat): (r: seq<seq<int>>)
    requires IsLengthGrid(q, inputs, outputs) && k <= inputs
    ensures |r| == outputs && forall o :: 0 <= o < outputs ==> AreInputs(r[o], k)
  {
    Considered(Favourites(q, inputs, outputs), cutoff, k, outputs)
  }

  lemma {:induction false} KeptProposalsAreKept(q: seq<seq<int>>, cutoff: int, k: nat, inputs: nat, outputs: nat)
    requires IsLengthGrid(q, inputs, outputs) && k <= inputs
    ensures Kept(q, KeptProposals(q, cutoff, k, inputs, outputs), cutoff, k, inputs, outputs)
  {
    hide Kept;
    if k == 0 {
      KeptNothing(q, cutoff, inputs, outputs);
    } else {
      KeptProposalsAreKept(q, cutoff, k - 1, inputs, outputs);
      var before := KeptProposals(q, cutoff, k - 1, inputs, outputs);
      var out := Favourites(q, inputs, outputs)[k - 1];
      if out == UNMATCHED {
        KeptSkip(q, before, cutoff, k - 1, inputs, outputs);
      } else {
        KeptStep(q, before, cutoff, k - 1, out, inputs, outputs);
      }
    }
  }

  /**
   The proposals kept by the outputs once the inputs below `k` have proposed: each comes from an input
   whose first longest queue leads there; with a nonzero cutoff an output that got one keeps one, and
   with a cutoff no smaller than the number of inputs it keeps all.
   */
  ghost predicate Kept(q: seq<seq<int>>, accepts: seq<seq<int>>, cutoff: int, k: nat, inputs: nat, outputs: nat)
    requires IsGrid(q, inputs, outputs) && k <= inputs
  {
    && |accepts| == outputs
    && (forall o :: 0 <= o < outputs ==> |accepts[o]| <= k && AreInputs(accepts[o], k))
    && (forall o, x :: 0 <= o < outputs && 0 <= x < |accepts[o]| ==>
          IsLongest(q[accepts[o][x]], o) && q[accepts[o][x]][o] > 0)
    && (forall i, o :: 0 <= i < k && 0 <= o < outputs && IsLongest(q[i], o) && q[i][o] > 0 ==>
          (cutoff != 0 ==> accepts[o] != []) && (cutoff < 0 || cutoff >= inputs ==> i in accepts[o]))
    && (cutoff == 0 ==> forall o :: 0 <= o < outputs ==> accepts[o] == [])
  }

  lemma KeptNothing(q: seq<seq<int>>, cutoff: int, inputs: nat, outputs: nat)
    requires IsGrid(q, inputs, outputs)
    ensures Kept(q, Fill(outputs, []), cutoff, 0, inputs, outputs)
  {
  }

  lemma KeptSkip(q: seq<seq<int>>, accepts: seq<seq<int>>, cutoff: int, k: nat, inputs: nat, outputs: nat)
    requires IsGrid(q, inputs, outputs) && k < inputs && Kept(q, accepts, cutoff, k, inputs, outputs)
    requires forall d :: 0 <= d < outputs ==> q[k][d] == 0
    ensures Kept(q, accepts, cutoff, k + 1, inputs, outputs)
  {
  }

  lemma LongestIsUnique(row: seq<int>, d: nat, e: nat)
    requires IsLongest(row, d) && IsLongest(row, e)
    ensures d == e
  {
    assert row[d] <= row[e] <= row[d];
  }

  lemma KeptStep(q: seq<seq<int>>, accepts: seq<seq<int>>, cutoff: int, k: nat, out: nat, inputs: nat, outputs: nat)
    requires IsGrid(q, inputs, outputs) && k < inputs && Kept(q, accepts, cutoff, k, inputs, outputs)
    requires out < outputs && IsLongest(q[k], out) && q[k][out] > 0
    ensures Kept(q, if AcceptsMore(cutoff, |accepts[out]|) then accepts[out := accepts[out] + [k]] else accepts,
                 cutoff, k + 1, inputs, outputs)
  {
    hide IsLongest;
    var r := if AcceptsMore(cutoff, |accepts[out]|) then accepts[out := accepts[out] + [k]] else accepts;
    forall o, x | 0 <= o < outputs && 0 <= x < |r[o]|
      ensures 0 <= r[o][x] < k + 1 && IsLongest(q[r[o][x]], o) && q[r[o][x]][o] > 0
    {
      if x < |accepts[o]| {
        assert r[o][x] == accepts[o][x];
      }
    }
    forall i, o | 0 <= i < k + 1 && 0 <= o < outputs && IsLongest(q[i], o) && q[i][o] > 0
      ensures (cutoff != 0 ==> r[o] != []) && (cutoff < 0 || cutoff >= inputs ==> i in r[o])
    {
      if i == k {
        LongestIsUnique(q[k], o, out);
        if AcceptsMore(cutoff, |accepts[out]|) {
          assert r[o][|accepts[out]|] == k;
        }
      } else if o == out && i in accepts[o] {
        var x :| 0 <= x < |accepts[o]| && accepts[o][x] == i;
        assert r[o][x] == i;
      }
    }
  }

  /** Input `i` is among the proposals and comes before all others in the order of the output. */
  ghost predicate Winner(q: seq<seq<int>>, kept: seq<int>, i: nat, o: nat)
    requires i < |q| && AreInputs(kept, |q|) && forall x :: 0 <= x < |q| ==> o < |q[x]|
  {
    i in kept && forall y :: 0 <= y < |kept| ==> q[kept[y]][o] < q[i][o] || (q[kept[y]][o] == q[i][o] && kept[y] <= i)
  }

  ghost predicate HasTaker(sched: seq<int>, o: int) {
    exists i :: 0 <= i < |sched| && sched[i] == o
  }

  /** The schedule once the outputs below `k` have accepted: each has its winner if it kept a proposal. */
  ghost predicate AcceptedBelow(q: seq<seq<int>>, accepts: seq<seq<int>>, sched: seq<int>, inputAvailability: seq<int>,
      outputAvailability: seq<int>, k: nat, inputs: nat, outputs: nat)
    requires IsGrid(q, inputs, outputs) && k <= outputs && |accepts| == outputs
    requires forall o :: 0 <= o < outputs ==> AreInputs(accepts[o], inputs)
  {
    && |sched| == inputs == |inputAvailability| && |outputAvailability| == outputs
    && (forall i :: 0 <= i < inputs && sched[i] != UNMATCHED ==>
          0 <= sched[i] < k && IsLongest(q[i], sched[i]) && q[i][sched[i]] > 0 &&
              Winner(q, accepts[sched[i]], i, sched[i]))
    && IsPartialInjection(sched, outputs)
    && (forall i :: 0 <= i < inputs ==> inputAvailability[i] == if sched[i] == UNMATCHED then 1 else 0)
    && (forall o :: k <= o < outputs ==> outputAvailability[o] == 1)
    && (forall o :: 0 <= o < k && accepts[o] != [] ==> HasTaker(sched, o))
  }

  /** An output that kept nothing is passed over. */
  lemma PassedOver(q: seq<seq<int>>, accepts: seq<seq<int>>, sched: seq<int>, inputAvailability: seq<int>,
      outputAvailability: seq<int>, k: nat, inputs: nat, outputs: nat)
    requires IsGrid(q, inputs, outputs) && k < outputs && |accepts| == outputs && accepts[k] == []
    requires forall o :: 0 <= o < outputs ==> AreInputs(accepts[o], inputs)
    requires AcceptedBelow(q, accepts, sched, inputAvailability, outputAvailability, k, inputs, outputs)
    ensures AcceptedBelow(q, accepts, sched, inputAvailability, outputAvailability, k + 1, inputs, outputs)
  {
    hide Winner;
  }

  /** The winner among the proposals of the next output is still free, and matching it keeps everything in order. */
  lemma BestAccepted(q: seq<seq<int>>, accepts: seq<seq<int>>, sched: seq<int>, inputAvailability: seq<int>,
      outputAvailability: seq<int>, k: nat, best: nat, cutoff: int, inputs: nat, outputs: nat)
    requires IsGrid(q, inputs, outputs) && k < outputs && |accepts| == outputs
    requires Kept(q, accepts, cutoff, inputs, inputs, outputs)
    requires AcceptedBelow(q, accepts, sched, inputAvailability, outputAvailability, k, inputs, outputs)
    requires best in accepts[k] && best < inputs && Winner(q, accepts[k], best, k)
    ensures sched[best] == UNMATCHED && inputAvailability[best] == 1 && outputAvailability[k] == 1 && q[best][k] > 0
    ensures AcceptedBelow(q, accepts, sched[best := k], inputAvailability[best := 0], outputAvailability[k := 0],
                          k + 1, inputs, outputs)
  {
    hide Winner;
    var x :| 0 <= x < |accepts[k]| && accepts[k][x] == best;
    assert IsLongest(q[best], k);
    assert sched[best] == UNMATCHED;
    var sched' := sched[best := k];
    assert sched'[best] == k;
    forall o | 0 <= o < k && accepts[o] != []
      ensures HasTaker(sched', o)
    {
      var i :| 0 <= i < |sched| && sched[i] == o;
      assert sched'[i] == o;
    }
  }

  /** Matching one more input takes one more packet off the matrix. */
  lemma DepartedOneMore(q: seq<seq<int>>, sched: seq<int>, s: nat, d: nat, inputs: nat, outputs: nat)
    requires IsGrid(q, inputs, outputs) && |sched| == inputs && s < inputs && d < outputs
    requires sched[s] == UNMATCHED && q[s][d] != 0
    ensures Departed(q, sched[s := d]) == Departed(q, sched)[s := Departed(q, sched)[s][d := q[s][d] - 1]]
    ensures Departed(q, sched)[s][d] == q[s][d]
  {
    GridsEqual(Departed(q, sched[s := d]), Departed(q, sched)[s := Departed(q, sched)[s][d := q[s][d] - 1]]);
  }

  /** Input `i` proposes to output `o`: that is its first longest queue, and it has packets. */
  ghost predicate ProposesTo(q: seq<seq<int>>, i: nat, o: nat)
    requires i < |q|
  {
    IsLongest(q[i], o) && q[i][o] > 0
  }

  /** The inputs below `i` that propose to output `o`. */
  ghost function ProposersBelow(q: seq<seq<int>>, i: nat, o: nat): set<int>
    requires i <= |q|
  {
    set x | 0 <= x < i && ProposesTo(q, x, o)
  }

  /** Output `o` keeps the proposal of input `i`: with a negative cutoff always, otherwise if few enough came before. */
  ghost predicate Keeps(q: seq<seq<int>>, cutoff: int, i: nat, o: nat)
    requires i < |q|
  {
    ProposesTo(q, i, o) && (cutoff < 0 || |ProposersBelow(q, i, o)| < cutoff)
  }

  /** The proposals that output `o` keeps, in the order of the inputs. */
  ghost predicate ListsKept(list: seq<int>, q: seq<seq<int>>, cutoff: int, o: nat) {
    && AreInputs(list, |q|) && (forall x, y :: 0 <= x < y < |list| ==> list[x] < list[y])
    && (forall i :: 0 <= i < |q| ==> (i in list <==> Keeps(q, cutoff, i, o)))
    && (cutoff >= 0 ==> |list| <= cutoff)
  }

  ghost predicate AreKept(accepts: seq<seq<int>>, q: seq<seq<int>>, cutoff: int, outputs: nat) {
    |accepts| == outputs && forall o :: 0 <= o < outputs ==> ListsKept(accepts[o], q, cutoff, o)
  }

  lemma FavouriteIffProposes(q: seq<seq<int>>, i: nat, o: nat, inputs: nat, outputs: nat)
    requires IsLengthGrid(q, inputs, outputs) && i < inputs && o < outputs
    ensures Favourites(q, inputs, outputs)[i] == o <==> ProposesTo(q, i, o)
  {
    assert Favourites(q, inputs, outputs)[i] == Favourite(q[i]);
    if ProposesTo(q, i, o) {
      FavouriteIs(q[i], o);
    }
  }

  lemma KeepsIffConsidered(q: seq<seq<int>>, cutoff: int, i: nat, o: nat, inputs: nat, outputs: nat)
    requires IsLengthGrid(q, inputs, outputs) && i < inputs && o < outputs
    ensures Keeps(q, cutoff, i, o) <==> IsConsidered(Favourites(q, inputs, outputs), cutoff, o, i)
  {
    forall x | 0 <= x <= i {
      FavouriteIffProposes(q, x, o, inputs, outputs);
    }
    hide ProposesTo, Favourites;
    assert ProposersBelow(q, i, o) == Proposers(Favourites(q, inputs, outputs), o, i);
  }

  /** The outputs keep exactly the first `cutoff` of the proposals made to them. */
  lemma KeptProposalsExactly(q: seq<seq<int>>, cutoff: int, inputs: nat, outputs: nat)
    requires IsLengthGrid(q, inputs, outputs)
    ensures AreKept(KeptProposals(q, cutoff, inputs, inputs, outputs), q, cutoff, outputs)
  {
    var favourites, accepts := Favourites(q, inputs, outputs), KeptProposals(q, cutoff, inputs, inputs, outputs);
    ConsideredAreConsidered(favourites, cutoff, outputs);
    hide Considered, Keeps, IsConsidered, Favourites;
    forall o | 0 <= o < outputs
      ensures ListsKept(accepts[o], q, cutoff, o)
    {
      assert ListsConsidered(accepts[o], favourites, cutoff, o, inputs);
      forall i | 0 <= i < inputs {
        KeepsIffConsidered(q, cutoff, i, o, inputs, outputs);
      }
    }
  }

  /** Output `o` accepts input `i`: it keeps the proposal, and every other it keeps is shorter or of a lower input. */
  ghost predicate AcceptsInput(q: seq<seq<int>>, cutoff: int, i: nat, o: nat)
    requires i < |q| && forall x :: 0 <= x < |q| ==> o < |q[x]|
  {
    && Keeps(q, cutoff, i, o)
    && forall j :: 0 <= j < |q| && Keeps(q, cutoff, j, o) ==> q[j][o] < q[i][o] || (q[j][o] == q[i][o] && j <= i)
  }

  /** The round that double-max makes: exactly the pairs of an output with the input it accepts. */
  ghost predicate IsDoubleMaxRound(q: seq<seq<int>>, cutoff: int, sched: seq<int>, inputs: nat, outputs: nat)
    requires IsLengthGrid(q, inputs, outputs)
  {
    && IsMatchVector(sched, inputs, outputs)
    && forall i, o :: 0 <= i < inputs && 0 <= o < outputs ==> (sched[i] == o <==> AcceptsInput(q, cutoff, i, o))
  }

  lemma DoubleMaxRoundIsUnique(q: seq<seq<int>>, cutoff: int, a: seq<int>, b: seq<int>, inputs: nat, outputs: nat)
    requires IsLengthGrid(q, inputs, outputs)
    requires IsDoubleMaxRound(q, cutoff, a, inputs, outputs) && IsDoubleMaxRound(q, cutoff, b, inputs, outputs)
    ensures a == b
  {
    hide AcceptsInput;
    forall i | 0 <= i < inputs
      ensures a[i] == b[i]
    {
      assert a[i] != UNMATCHED ==> AcceptsInput(q, cutoff, i, a[i]);
      assert b[i] != UNMATCHED ==> AcceptsInput(q, cutoff, i, b[i]);
    }
  }

  lemma AcceptedAreWinners(q: seq<seq<int>>, accepts: seq<seq<int>>, sched: seq<int>, inputAvailability: seq<int>,
      outputAvailability: seq<int>, cutoff: int, inputs: nat, outputs: nat)
    requires IsLengthGrid(q, inputs, outputs) && AreKept(accepts, q, cutoff, outputs)
    requires AcceptedBelow(q, accepts, sched, inputAvailability, outputAvailability, outputs, inputs, outputs)
    ensures IsDoubleMaxRound(q, cutoff, sched, inputs, outputs)
  {
    forall i, o | 0 <= i < inputs && 0 <= o < outputs
      ensures sched[i] == o <==> AcceptsInput(q, cutoff, i, o)
    {
      assert ListsKept(accepts[o], q, cutoff, o);
      WinnerIffAccepts(q, accepts[o], cutoff, i, o);
      if Winner(q, accepts[o], i, o) {
        var k :| 0 <= k < inputs && sched[k] == o;
        assert Winner(q, accepts[o], k, o);
        WinnerIsUnique(q, accepts[o], i, k, o);
      }
    }
  }

  lemma WinnerIffAccepts(q: seq<seq<int>>, kept: seq<int>, cutoff: int, i: nat, o: nat)
    requires i < |q| && ListsKept(kept, q, cutoff, o) && forall x :: 0 <= x < |q| ==> o < |q[x]|
    ensures Winner(q, kept, i, o) <==> AcceptsInput(q, cutoff, i, o)
  {
    hide Keeps;
    if Winner(q, kept, i, o) {
      forall j | 0 <= j < |q| && Keeps(q, cutoff, j, o)
        ensures q[j][o] < q[i][o] || (q[j][o] == q[i][o] && j <= i)
      {
        var y :| 0 <= y < |kept| && kept[y] == j;
      }
    }
  }

  lemma WinnerIsUnique(q: seq<seq<int>>, kept: seq<int>, i: nat, k: nat, o: nat)
    requires i < |q| && k < |q| && AreInputs(kept, |q|) && forall x :: 0 <= x < |q| ==> o < |q[x]|
    requires Winner(q, kept, i, o) && Winner(q, kept, k, o)
    ensures i == k
  {
    var x :| 0 <= x < |kept| && kept[x] == i;
    var y :| 0 <= y < |kept| && kept[y] == k;
  }

  /**
   What a round achieves: it is a double-max round, on nonempty queues; unless the cutoff is zero it serves
   somebody while there are packets; and a cutoff no smaller than the number of inputs makes it serve a
   longest queue of all.
   */
  ghost predicate RoundDone(q: seq<seq<int>>, cutoff: int, sched: seq<int>, inputs: nat, outputs: nat)
    requires IsGrid(q, inputs, outputs)
  {
    && IsRound(q, sched, inputs, outputs)
    && IsLengthGrid(q, inputs, outputs) && IsDoubleMaxRound(q, cutoff, sched, inputs, outputs)
    && (forall i :: 0 <= i < inputs && sched[i] != UNMATCHED ==> IsLongest(q[i], sched[i]))
    && (cutoff == 0 ==> forall i :: 0 <= i < inputs ==> sched[i] == UNMATCHED)
    && (cutoff != 0 ==> forall i, d :: 0 <= i < inputs && 0 <= d < outputs && q[i][d] > 0 ==>
          exists k :: 0 <= k < inputs && sched[k] != UNMATCHED)
    && (cutoff < 0 || cutoff >= inputs ==> forall i, d :: 0 <= i < inputs && 0 <= d < outputs && q[i][d] > 0 ==>
          exists k :: 0 <= k < inputs && sched[k] != UNMATCHED && q[k][sched[k]] >= q[i][d])
  }

  /** A row with a packet has a first longest queue. */
  lemma {:induction false} HasLongest(row: seq<int>, n: nat) returns (d: nat)
    requires 0 < n <= |row|
    ensures d < n && IsLongest(row[..n], d)
  {
    if n == 1 {
      d := 0;
    } else {
      d := HasLongest(row, n - 1);
      if row[n - 1] > row[d] {
        d := n - 1;
      }
      assert forall x :: 0 <= x < n - 1 ==> row[..n][x] == row[..n - 1][x];
    }
  }

  lemma AllAccepted(q: seq<seq<int>>, sched: seq<int>, inputAvailability: seq<int>, outputAvailability: seq<int>,
      cutoff: int, inputs: nat, outputs: nat)
    requires IsLengthGrid(q, inputs, outputs)
    requires AcceptedBelow(q, KeptProposals(q, cutoff, inputs, inputs, outputs), sched, inputAvailability,
                           outputAvailability, outputs, inputs, outputs)
    ensures RoundDone(q, cutoff, sched, inputs, outputs)
  {
    var accepts := KeptProposals(q, cutoff, inputs, inputs, outputs);
    KeptProposalsAreKept(q, cutoff, inputs, inputs, outputs);
    KeptProposalsExactly(q, cutoff, inputs, outputs);
    AcceptedAreWinners(q, accepts, sched, inputAvailability, outputAvailability, cutoff, inputs, outputs);
    hide AreKept, IsDoubleMaxRound;
    forall i, d | 0 <= i < inputs && 0 <= d < outputs && q[i][d] > 0 && cutoff != 0
      ensures exists k :: 0 <= k < inputs && sched[k] != UNMATCHED && (cutoff < 0 || cutoff >= inputs ==>
        q[k][sched[k]] >= q[i][d])
    {
      SomeoneServed(q, accepts, sched, inputAvailability, outputAvailability, i, d, cutoff, inputs, outputs);
    }
  }

  /** The favourite output of an input with packets is matched, to a queue as long if it keeps all proposals. */
  lemma SomeoneServed(q: seq<seq<int>>, accepts: seq<seq<int>>, sched: seq<int>, inputAvailability: seq<int>,
      outputAvailability: seq<int>, i: nat, d: nat, cutoff: int, inputs: nat, outputs: nat)
    requires IsLengthGrid(q, inputs, outputs) && Kept(q, accepts, cutoff, inputs, inputs, outputs) && cutoff != 0
    requires AcceptedBelow(q, accepts, sched, inputAvailability, outputAvailability, outputs, inputs, outputs)
    requires i < inputs && d < outputs && q[i][d] > 0
    ensures exists k :: 0 <= k < inputs && sched[k] != UNMATCHED && (cutoff < 0 || cutoff >= inputs ==>
      q[k][sched[k]] >= q[i][d])
  {
    var o := HasLongest(q[i], outputs);
    assert q[i][..outputs] == q[i];
    assert accepts[o] != [];
    var k :| 0 <= k < |sched| && sched[k] == o;
    if cutoff < 0 || cutoff >= inputs {
      var x :| 0 <= x < |accepts[o]| && accepts[o][x] == i;
      assert q[i][o] <= q[k][o];
    }
  }

  /** Every round achieved what a round achieves on what the earlier rounds left. */
  ghost predicate AllRoundsDone(q: seq<seq<int>>, cutoff: int, rounds: seq<seq<int>>, inputs: nat, outputs: nat)
    requires IsGrid(q, inputs, outputs) && forall x :: 0 <= x < |rounds| ==> |rounds[x]| == inputs
  {
    rounds == [] ||
      (var front, last := rounds[..|rounds| - 1], rounds[|rounds| - 1];
       && AllRoundsDone(q, cutoff, front, inputs, outputs)
       && RoundDone(Remainder(q, front, inputs, outputs), cutoff, last, inputs, outputs))
  }

  lemma AllRoundsDoneOneMore(q: seq<seq<int>>, cutoff: int, rounds: seq<seq<int>>, sched: seq<int>, inputs: nat,
      outputs: nat)
    requires IsGrid(q, inputs, outputs) && (forall x :: 0 <= x < |rounds| ==> |rounds[x]| == inputs)
    requires |sched| == inputs
    requires AllRoundsDone(q, cutoff, rounds, inputs, outputs)
    requires RoundDone(Remainder(q, rounds, inputs, outputs), cutoff, sched, inputs, outputs)
    ensures AllRoundsDone(q, cutoff, rounds + [sched], inputs, outputs)
  {
    hide RoundDone, Remainder;
    assert (rounds + [sched])[..|rounds|] == rounds;
  }

  lemma OneMoreRound(q: seq<seq<int>>, cutoff: int, rounds: seq<seq<int>>, sched: seq<int>, inputs: nat, outputs: nat)
    requires IsGrid(q, inputs, outputs) && Strips(q, rounds, inputs, outputs)
    requires AllRoundsDone(q, cutoff, rounds, inputs, outputs) && |sched| == inputs
    requires RoundDone(Remainder(q, rounds, inputs, outputs), cutoff, sched, inputs, outputs)
    requires exists i :: 0 <= i < inputs && sched[i] != UNMATCHED
    ensures Strips(q, rounds + [sched], inputs, outputs)
    ensures AllRoundsDone(q, cutoff, rounds + [sched], inputs, outputs)
    ensures Remainder(q, rounds + [sched], inputs, outputs) == Departed(Remainder(q, rounds, inputs, outputs), sched)
  {
    hide Strips, AllRoundsDone, RoundDone, Remainder, IsRound;
    StripsLengths(q, rounds, inputs, outputs);
    var i :| 0 <= i < inputs && sched[i] != UNMATCHED;
    RoundIsRound(Remainder(q, rounds, inputs, outputs), cutoff, sched, inputs, outputs);
    StripsOneMore(q, rounds, sched, i, inputs, outputs);
    AllRoundsDoneOneMore(q, cutoff, rounds, sched, inputs, outputs);
  }

  lemma RoundIsRound(q: seq<seq<int>>, cutoff: int, sched: seq<int>, inputs: nat, outputs: nat)
    requires IsGrid(q, inputs, outputs) && RoundDone(q, cutoff, sched, inputs, outputs)
    ensures IsRound(q, sched, inputs, outputs)
    ensures cutoff == 0 ==> forall i :: 0 <= i < inputs ==> sched[i] == UNMATCHED
  {
  }
}
