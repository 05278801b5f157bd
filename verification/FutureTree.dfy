/**
 The parallel scheduler: every thread computes a schedule, takes the schedules of some other threads from
 their futures, round by round, and fulfils its own promise. Only thread 0 merges what it takes.
 */
module FutureTree {
  import opened Sums

  /** What another thread finds: nothing yet, a value, or a future whose value has been moved out. */
  datatype Future<V> = Pending | Ready(value: V) | Taken

  /** A thread before the round with this jump, or after fulfilling its promise. */
  datatype Thread<V> = Thread(jump: nat, done: bool, schedule: V)

  datatype State<V> = State(threads: seq<Thread<V>>, futures: seq<Future<V>>)

  /** The threads that take something in the round with this jump. */
  predicate InRound(id: nat, jump: nat)
    requires jump > 0
  {
    id % (2 * jump) == 0
  }

  /** In this round the thread takes the future `id + jump`. */
  predicate Takes(id: nat, jump: nat, n: nat)
    requires jump > 0
  {
    InRound(id, jump) && id + jump < n
  }

  ghost predicate IsState<V>(s: State<V>, n: nat) {
    |s.threads| == |s.futures| == n && forall id :: 0 <= id < n ==> s.threads[id].jump > 0
  }

  /** The thread can do its next step; a thread whose future is pending waits. */
  ghost predicate Enabled<V>(s: State<V>, id: nat, n: nat)
    requires IsState(s, n)
  {
    && id < n && !s.threads[id].done
    && (s.threads[id].jump < n && Takes(id, s.threads[id].jump, n) ==> s.futures[id + s.threads[id].jump].Ready?)
  }

  /** The thread would take a future whose value is gone, which is an error. */
  ghost predicate TakesTwice<V>(s: State<V>, id: nat, n: nat)
    requires IsState(s, n)
  {
    && id < n && !s.threads[id].done && s.threads[id].jump < n && Takes(id, s.threads[id].jump, n)
    && s.futures[id + s.threads[id].jump].Taken?
  }

  /** One step: a round, or fulfilling the promise when the rounds are over. */
  ghost function Step<V>(s: State<V>, id: nat, n: nat, merge: (V, V) -> V): (r: State<V>)
    requires IsState(s, n) && Enabled(s, id, n)
    ensures IsState(r, n)
  {
    var t := s.threads[id];
    if t.jump >= n then
      State(s.threads[id := t.(done := true)], s.futures[id := Ready(t.schedule)])
    else if Takes(id, t.jump, n) then
      var other := id + t.jump;
      var schedule := if id == 0 then merge(t.schedule, s.futures[other].value) else t.schedule;
      State(s.threads[id := Thread(2 * t.jump, false, schedule)], s.futures[other := Taken])
    else
      State(s.threads[id := t.(jump := 2 * t.jump)], s.futures)
  }

  ghost function Init<V>(own: seq<V>): (r: State<V>)
    ensures IsState(r, |own|)
  {
    State(seq(|own|, id requires 0 <= id < |own| => Thread(1, false, own[id])), Fill(|own|, Pending))
  }

  /** `ids` is the order in which the threads take their steps. */
  ghost predicate IsRun<V(!new)>(own: seq<V>, ids: seq<nat>, merge: (V, V) -> V)
    decreases |ids|, 0
  {
    ids == [] ||
      (var front := ids[..|ids| - 1];
       IsRun(own, front, merge) && Enabled(After(own, front, merge), ids[|ids| - 1], |own|))
  }

  ghost function After<V(!new)>(own: seq<V>, ids: seq<nat>, merge: (V, V) -> V): (r: State<V>)
    requires IsRun(own, ids, merge)
    ensures IsState(r, |own|)
    decreases |ids|, 1
  {
    if ids == [] then Init(own)
    else Step(After(own, ids[..|ids| - 1], merge), ids[|ids| - 1], |own|, merge)
  }

  // Who takes what

  function LowBit(k: nat): (r: nat)
    requires k > 0
    ensures 0 < r <= k
  {
    if k % 2 == 1 then 1 else 2 * LowBit(k / 2)
  }

  lemma DivisionIsUnique(m: nat, q: nat, r: nat, x: nat)
    requires r < m && x == q * m + r
    ensures x / m == q && x % m == r
  {
    ProductBounds(q - x / m, m);
    assert (q - x / m) * m == x % m - r;
  }

  lemma ProductBounds(d: int, m: nat)
    ensures d >= 1 ==> d * m >= m
    ensures d <= -1 ==> d * m + m <= 0
  {
  }

  /** Dropping the lowest bit of an even number and of the jump. */
  lemma HalfRound(id: nat, jump: nat)
    requires jump > 0
    ensures InRound(id, 2 * jump) <==> id % 2 == 0 && InRound(id / 2, jump)
  {
    var m := 2 * jump;
    var q, r := id / 2 / m, (id / 2) % m;
    assert id / 2 == q * m + r;
    assert id == q * (2 * m) + 2 * r + id % 2;
    DivisionIsUnique(2 * m, q, 2 * r + id % 2, id);
  }

  lemma FirstThreadInRound(jump: nat)
    requires jump > 0
    ensures InRound(0, jump)
  {
  }

  /** A future is taken only by the thread whose number lacks its lowest bit, in the round of that bit. */
  lemma {:induction false} TakerIsUnique(id: nat, jump: nat)
    requires Pow2(jump) && InRound(id, jump)
    ensures LowBit(id + jump) == jump
  {
    if jump > 1 {
      HalfRound(id, jump / 2);
      hide InRound;
      TakerIsUnique(id / 2, jump / 2);
      assert (id + jump) / 2 == id / 2 + jump / 2;
    }
  }

  lemma LowBitOfEven(k: nat)
    requires k > 0 && k % 2 == 0
    ensures k / 2 > 0 && LowBit(k) == 2 * LowBit(k / 2)
  {
  }

  lemma PowerOfDouble(jump: nat)
    requires Pow2(jump)
    ensures Pow2(2 * jump)
  {
  }

  /** The taker of an even future is twice the taker of its half. */
  lemma TakerOfEven(k: nat)
    requires k > 0 && k % 2 == 0
    requires Pow2(LowBit(k / 2)) && InRound(k / 2 - LowBit(k / 2), LowBit(k / 2))
    ensures Pow2(LowBit(k)) && InRound(k - LowBit(k), LowBit(k))
  {
    hide InRound, Pow2, LowBit;
    LowBitOfEven(k);
    var low := LowBit(k / 2);
    PowerOfDouble(low);
    var taker: nat := k - 2 * low;
    assert taker % 2 == 0 && taker / 2 == k / 2 - low;
    HalfRound(taker, low);
  }

  /** And there is such a thread for every future but the first. */
  lemma {:induction false} TakerExists(k: nat)
    requires 0 < k
    ensures Pow2(LowBit(k)) && InRound(k - LowBit(k), LowBit(k))
  {
    if k % 2 == 0 {
      TakerExists(k / 2);
      TakerOfEven(k);
    } else {
      assert LowBit(k) == 1;
      OddRound(k - 1);
    }
  }

  lemma OddRound(id: nat)
    requires id % 2 == 0
    ensures InRound(id, 1)
  {
  }

  /** The thread that takes future `k` is past the round in which it does. */
  ghost predicate Passed<V>(s: State<V>, k: nat, n: nat)
    requires IsState(s, n) && 0 < k < n
  {
    s.threads[k - LowBit(k)].jump > LowBit(k)
  }

  /** What thread 0 has merged before the round with this jump. */
  ghost function Merged<V(!new)>(own: seq<V>, jump: nat, merge: (V, V) -> V): V
    requires own != []
  {
    if jump <= 1 then own[0]
    else if jump / 2 < |own| then merge(Merged(own, jump / 2, merge), own[jump / 2])
    else Merged(own, jump / 2, merge)
  }

  /** The state of future `k`. */
  ghost function FutureOf<V(!new)>(s: State<V>, k: nat, own: seq<V>, merge: (V, V) -> V): Future<V>
    requires IsState(s, |own|) && k < |own|
  {
    if !s.threads[k].done then Pending
    else if k == 0 then Ready(Merged(own, s.threads[0].jump, merge))
    else if Passed(s, k, |own|) then Taken
    else Ready(own[k])
  }

  ghost predicate Inv<V(!new)>(s: State<V>, own: seq<V>, merge: (V, V) -> V) {
    && IsState(s, |own|)
    && JumpsInBounds(s, |own|)
    && (forall id :: 0 <= id < |own| ==>
          s.threads[id].schedule == if id == 0 then Merged(own, s.threads[0].jump, merge) else own[id])
    && (forall k :: 0 < k < |own| && Passed(s, k, |own|) ==> s.threads[k].done)
    && (forall k :: 0 <= k < |own| ==> s.futures[k] == FutureOf(s, k, own, merge))
  }

  lemma InvAt<V(!new)>(s: State<V>, k: nat, own: seq<V>, merge: (V, V) -> V)
    requires Inv(s, own, merge) && k < |own|
    ensures IsState(s, |own|) && Pow2(s.threads[k].jump) && (s.threads[k].done ==> s.threads[k].jump >= |own|)
    ensures s.futures[k] == FutureOf(s, k, own, merge)
    ensures k > 0 && Passed(s, k, |own|) ==> s.threads[k].done
  {
  }

  lemma InvSchedule<V(!new)>(s: State<V>, id: nat, own: seq<V>, merge: (V, V) -> V)
    requires Inv(s, own, merge) && id < |own|
    ensures IsState(s, |own|)
    ensures s.threads[id].schedule == if id == 0 then Merged(own, s.threads[0].jump, merge) else own[id]
  {
  }

  ghost predicate JumpsInBounds<V>(s: State<V>, n: nat)
    requires IsState(s, n)
  {
    && (forall id :: 0 <= id < n ==> Pow2(s.threads[id].jump) && (s.threads[id].done ==> s.threads[id].jump >= n))
    && (forall id :: 0 <= id < n && s.threads[id].jump > 1 ==> s.threads[id].jump / 2 < n)
  }

  lemma StepKeepsJumps<V>(s: State<V>, id: nat, n: nat, merge: (V, V) -> V)
    requires IsState(s, n) && JumpsInBounds(s, n) && Enabled(s, id, n)
    ensures JumpsInBounds(Step(s, id, n, merge), n)
  {
    PowerOfDouble(s.threads[id].jump);
    hide InRound, Pow2;
  }

  lemma StepKeepsInv<V(!new)>(s: State<V>, id: nat, own: seq<V>, merge: (V, V) -> V)
    requires Inv(s, own, merge) && Enabled(s, id, |own|)
    ensures Inv(Step(s, id, |own|, merge), own, merge)
  {
    hide InRound, FutureOf, Merged, Passed, Step, JumpsInBounds;
    var n, r := |own|, Step(s, id, |own|, merge);
    StepKeepsJumps(s, id, n, merge);
    StepKeepsSchedules(s, id, own, merge);
    forall k | 0 <= k < n
      ensures r.futures[k] == FutureOf(r, k, own, merge)
      ensures k > 0 && Passed(r, k, n) ==> r.threads[k].done
    {
      if s.threads[id].jump < n {
        RoundKeepsFuture(s, id, k, own, merge);
      } else {
        EndKeepsFuture(s, id, k, own, merge);
      }
    }
  }

  lemma StepKeepsSchedules<V(!new)>(s: State<V>, id: nat, own: seq<V>, merge: (V, V) -> V)
    requires Inv(s, own, merge) && Enabled(s, id, |own|)
    ensures var r := Step(s, id, |own|, merge); forall k :: 0 <= k < |own| ==>
              r.threads[k].schedule == if k == 0 then Merged(own, r.threads[0].jump, merge) else own[k]
  {
    hide InRound, Passed;
    var n, t := |own|, s.threads[id];
    if id == 0 && t.jump < n {
      FirstThreadInRound(t.jump);
      assert s.futures[t.jump] == FutureOf(s, t.jump, own, merge);
    }
  }

  /** Fulfilling a promise makes its future ready, since nobody has got past it. */
  lemma EndKeepsFuture<V(!new)>(s: State<V>, id: nat, k: nat, own: seq<V>, merge: (V, V) -> V)
    requires Inv(s, own, merge) && IsState(s, |own|) && Enabled(s, id, |own|) && k < |own|
    requires s.threads[id].jump >= |own|
    ensures var r := Step(s, id, |own|, merge);
            && r.futures[k] == FutureOf(r, k, own, merge)
            && (k > 0 && Passed(r, k, |own|) ==> r.threads[k].done)
  {
    hide Inv, Merged, InRound, Pow2, LowBit;
    InvAt(s, k, own, merge);
    InvAt(s, id, own, merge);
    InvSchedule(s, id, own, merge);
  }

  /** A round takes the one future whose taker gets past it. */
  lemma RoundKeepsFuture<V(!new)>(s: State<V>, id: nat, k: nat, own: seq<V>, merge: (V, V) -> V)
    requires Inv(s, own, merge) && IsState(s, |own|) && Enabled(s, id, |own|) && k < |own| && s.threads[id].jump < |own|
    ensures var r := Step(s, id, |own|, merge);
            && r.futures[k] == FutureOf(r, k, own, merge)
            && (k > 0 && Passed(r, k, |own|) ==> r.threads[k].done)
  {
    hide Inv, Merged, InRound, Pow2, LowBit;
    InvAt(s, k, own, merge);
    InvAt(s, id, own, merge);
    var n, jump := |own|, s.threads[id].jump;
    if Takes(id, jump, n) {
      TakerIsUnique(id, jump);
      InvAt(s, id + jump, own, merge);
    }
    if k > 0 {
      TakerExists(k);
      PowersDouble(jump, LowBit(k));
    }
  }

  /** There is no power of two strictly between a power of two and its double. */
  lemma {:induction false} PowersDouble(a: nat, b: nat)
    requires Pow2(a) && Pow2(b)
    ensures 2 * a > b <==> a >= b
  {
    if a > 1 && b > 1 {
      PowersDouble(a / 2, b / 2);
    }
  }

  lemma {:induction false} RunKeepsInv<V(!new)>(own: seq<V>, ids: seq<nat>, merge: (V, V) -> V)
    requires own != [] && IsRun(own, ids, merge)
    ensures Inv(After(own, ids, merge), own, merge)
  {
    if ids != [] {
      RunKeepsInv(own, ids[..|ids| - 1], merge);
      StepKeepsInv(After(own, ids[..|ids| - 1], merge), ids[|ids| - 1], own, merge);
    }
  }

  /** In no interleaving does a thread take a future whose value is gone. */
  lemma NoFutureTakenTwice<V(!new)>(own: seq<V>, ids: seq<nat>, id: nat, merge: (V, V) -> V)
    requires own != [] && IsRun(own, ids, merge)
    ensures !TakesTwice(After(own, ids, merge), id, |own|)
  {
    hide Inv, InRound, Pow2, LowBit, Merged, After, IsRun;
    var s := After(own, ids, merge);
    RunKeepsInv(own, ids, merge);
    if id < |own| && !s.threads[id].done && s.threads[id].jump < |own| && Takes(id, s.threads[id].jump, |own|) {
      InvAt(s, id, own, merge);
      TakerIsUnique(id, s.threads[id].jump);
      InvAt(s, id + s.threads[id].jump, own, merge);
    }
  }

  /** As long as some thread is not done, some thread can step: the last one that is not done never waits. */
  lemma DeadlockFree<V(!new)>(own: seq<V>, ids: seq<nat>, merge: (V, V) -> V) returns (id: nat)
    requires own != [] && IsRun(own, ids, merge)
    requires exists k :: 0 <= k < |own| && !After(own, ids, merge).threads[k].done
    ensures Enabled(After(own, ids, merge), id, |own|)
  {
    hide Inv, InRound, Pow2, LowBit, Merged, After, IsRun;
    var s, n := After(own, ids, merge), |own|;
    RunKeepsInv(own, ids, merge);
    id := LastNotDone(s, n, n);
    NoFutureTakenTwice(own, ids, id, merge);
    if s.threads[id].jump < n && Takes(id, s.threads[id].jump, n) {
      var k := id + s.threads[id].jump;
      InvAt(s, k, own, merge);
    }
  }

  lemma {:induction false} LastNotDone<V>(s: State<V>, k: nat, n: nat) returns (id: nat)
    requires IsState(s, n) && k <= n && exists x :: 0 <= x < k && !s.threads[x].done
    ensures id < k && !s.threads[id].done && forall x :: id < x < k ==> s.threads[x].done
  {
    if !s.threads[k - 1].done {
      id := k - 1;
    } else {
      id := LastNotDone(s, k - 1, n);
    }
  }

  // Termination

  /** The steps a thread has left before the round with this jump. */
  function Left(jump: nat, n: nat): nat
    requires jump > 0
    decreases n - jump
  {
    if jump >= n then 1 else 1 + Left(2 * jump, n)
  }

  function ThreadLeft<V>(t: Thread<V>, n: nat): nat
    requires t.jump > 0
  {
    if t.done then 0 else Left(t.jump, n)
  }

  /** The steps the first `k` threads have left. */
  ghost function StepsLeft<V>(s: State<V>, k: nat, n: nat): nat
    requires IsState(s, n) && k <= n
  {
    if k == 0 then 0 else StepsLeft(s, k - 1, n) + ThreadLeft(s.threads[k - 1], n)
  }

  lemma {:induction false} StepIsOneLess<V>(s: State<V>, id: nat, k: nat, n: nat, merge: (V, V) -> V)
    requires IsState(s, n) && Enabled(s, id, n) && k <= n
    ensures StepsLeft(s, k, n) == StepsLeft(Step(s, id, n, merge), k, n) + if id < k then 1 else 0
  {
    if k > 0 {
      StepIsOneLess(s, id, k - 1, n, merge);
    }
  }

  lemma {:induction false} StepsOfInit<V>(own: seq<V>, k: nat)
    requires k <= |own|
    ensures StepsLeft(Init(own), k, |own|) == Times(k, Left(1, |own|))
  {
    if k > 0 {
      StepsOfInit(own, k - 1);
    }
  }

  /** A run is never longer than the number of threads times the steps of one thread. */
  lemma {:induction false} RunsAreBounded<V(!new)>(own: seq<V>, ids: seq<nat>, merge: (V, V) -> V)
    requires IsRun(own, ids, merge)
    ensures |ids| + StepsLeft(After(own, ids, merge), |own|, |own|) == Times(|own|, Left(1, |own|))
  {
    if ids == [] {
      StepsOfInit(own, |own|);
    } else {
      RunsAreBounded(own, ids[..|ids| - 1], merge);
      StepIsOneLess(After(own, ids[..|ids| - 1], merge), ids[|ids| - 1], |own|, |own|, merge);
    }
  }

  /** Every run can be continued until no thread can go on. */
  lemma {:induction false} RunCompletes<V(!new)>(own: seq<V>, ids: seq<nat>, merge: (V, V) -> V)
    returns (complete: seq<nat>)
    requires own != [] && IsRun(own, ids, merge)
    ensures IsRun(own, complete, merge) && forall id :: !Enabled(After(own, complete, merge), id, |own|)
    decreases StepsLeft(After(own, ids, merge), |own|, |own|)
  {
    hide Step, StepsLeft;
    if id: nat :| Enabled(After(own, ids, merge), id, |own|) {
      assert (ids + [id])[..|ids|] == ids;
      StepIsOneLess(After(own, ids, merge), id, |own|, |own|, merge);
      complete := RunCompletes(own, ids + [id], merge);
    } else {
      complete := ids;
    }
  }

  /** What `compute` returns: thread 0's schedule merged with those of threads 1, 2, 4, 8 and so on. */
  ghost function Result<V(!new)>(own: seq<V>, jump: nat, merge: (V, V) -> V): V
    requires own != [] && jump > 0
    decreases |own| - jump
  {
    if jump >= |own| then Merged(own, jump, merge) else Result(own, 2 * jump, merge)
  }

  /** It is what thread 0 has merged before the first round that is beyond the threads. */
  lemma {:induction false} ResultIsMerged<V(!new)>(own: seq<V>, jump: nat, end: nat, merge: (V, V) -> V)
    requires own != [] && Pow2(jump) && Pow2(end) && jump <= end && |own| <= end && (end > 1 ==> end / 2 < |own|)
    ensures Merged(own, end, merge) == Result(own, jump, merge)
    decreases end - jump
  {
    hide Merged;
    PowersDouble(jump, end);
    if jump < |own| {
      PowerOfDouble(jump);
      ResultIsMerged(own, 2 * jump, end, merge);
    }
  }

  /** The merges before a round use the threads below its jump only. */
  lemma {:induction false} MergedOfPrefix<V(!new)>(own: seq<V>, jump: nat, n: nat, merge: (V, V) -> V)
    requires Pow2(jump) && 0 < jump <= n <= |own|
    ensures Merged(own[..n], jump, merge) == Merged(own, jump, merge)
  {
    if jump > 1 {
      MergedOfPrefix(own, jump / 2, n, merge);
    }
  }

  /** One thread keeps its schedule; from `p` threads up to twice as many, thread `p` is merged last. */
  lemma ResultInTurn<V(!new)>(own: seq<V>, p: nat, merge: (V, V) -> V)
    requires Pow2(p) && p < |own| <= 2 * p
    ensures Result([own[0]], 1, merge) == own[0]
    ensures Result(own, 1, merge) == merge(Result(own[..p], 1, merge), own[p])
  {
    PowerOfDouble(p);
    ResultIsMerged(own, 1, 2 * p, merge);
    ResultIsMerged(own[..p], 1, p, merge);
    MergedOfPrefix(own, p, p, merge);
  }

  /**
   Every run that cannot go on has ended properly, after the same number of steps and with the same result,
   whatever the interleaving: all threads are done, every other future has been taken, and the main
   thread finds its result in future 0.
   */
  lemma CompleteRunsAgree<V(!new)>(own: seq<V>, ids: seq<nat>, merge: (V, V) -> V)
    requires own != [] && IsRun(own, ids, merge)
    requires forall id :: !Enabled(After(own, ids, merge), id, |own|)
    ensures |ids| == Times(|own|, Left(1, |own|))
    ensures forall id :: 0 <= id < |own| ==> After(own, ids, merge).threads[id].done
    ensures After(own, ids, merge).futures[0] == Ready(Result(own, 1, merge))
    ensures forall k :: 0 < k < |own| ==> After(own, ids, merge).futures[k] == Taken
  {
    var s, n := After(own, ids, merge), |own|;
    RunKeepsInv(own, ids, merge);
    if k :| 0 <= k < n && !s.threads[k].done {
      var id := DeadlockFree(own, ids, merge);
      assert false;
    }
    RunsAreBounded(own, ids, merge);
    NothingLeft(s, n, n);
    ResultIsMerged(own, 1, s.threads[0].jump, merge);
    forall k | 0 < k < n
      ensures s.futures[k] == Taken
    {
      assert s.futures[k] == FutureOf(s, k, own, merge);
    }
  }

  lemma {:induction false} NothingLeft<V>(s: State<V>, k: nat, n: nat)
    requires IsState(s, n) && k <= n && forall id :: 0 <= id < n ==> s.threads[id].done
    ensures StepsLeft(s, k, n) == 0
  {
    if k > 0 {
      NothingLeft(s, k - 1, n);
    }
  }

  // What the result leaves out

  /** The threads whose schedules are merged. */
  ghost predicate IsMergedThread(k: nat) {
    k == 0 || Pow2(k)
  }

  lemma {:induction false} MergedDependsOn<V(!new)>(own: seq<V>, other: seq<V>, jump: nat, merge: (V, V) -> V)
    requires own != [] && |own| == |other| && Pow2(jump)
    requires forall k :: 0 <= k < |own| && IsMergedThread(k) ==> own[k] == other[k]
    ensures Merged(own, jump, merge) == Merged(other, jump, merge)
  {
    assert IsMergedThread(0);
    if jump > 1 {
      assert IsMergedThread(jump / 2);
      MergedDependsOn(own, other, jump / 2, merge);
    }
  }

  /** The result depends on the schedules of threads 0, 1, 2, 4, 8 and so on only. */
  lemma {:induction false} ResultDependsOn<V(!new)>(own: seq<V>, other: seq<V>, jump: nat, merge: (V, V) -> V)
    requires own != [] && |own| == |other| && Pow2(jump)
    requires forall k :: 0 <= k < |own| && IsMergedThread(k) ==> own[k] == other[k]
    ensures Result(own, jump, merge) == Result(other, jump, merge)
    decreases |own| - jump
  {
    if jump >= |own| {
      MergedDependsOn(own, other, jump, merge);
    } else {
      PowerOfDouble(jump);
      ResultDependsOn(own, other, 2 * jump, merge);
    }
  }

  /** What merging all schedules, one after the other, would give. */
  ghost function AllMerged<V(!new)>(own: seq<V>, n: nat, merge: (V, V) -> V): V
    requires 0 < n <= |own|
  {
    if n == 1 then own[0] else merge(AllMerged(own, n - 1, merge), own[n - 1])
  }

  /** The result is the merge of all schedules. */
  ghost predicate CombinesAll<V(!new)>(own: seq<V>, merge: (V, V) -> V)
    requires own != []
  {
    Result(own, 1, merge) == AllMerged(own, |own|, merge)
  }

  /** For every merge function, with at most three threads. */
  lemma FewThreadsCombineAll<V(!new)>(own: seq<V>, merge: (V, V) -> V)
    requires 0 < |own| <= 3
    ensures CombinesAll(own, merge)
  {
    var n := |own|;
    if n == 1 {
      assert Result(own, 1, merge) == own[0];
    } else if n == 2 {
      assert Result(own, 1, merge) == Result(own, 2, merge) == Merged(own, 2, merge) == merge(own[0], own[1]);
      assert AllMerged(own, 2, merge) == merge(AllMerged(own, 1, merge), own[1]);
    } else {
      assert Result(own, 1, merge) == Result(own, 2, merge) == Result(own, 4, merge) == Merged(own, 4, merge);
      assert Merged(own, 4, merge) == merge(Merged(own, 2, merge), own[2]);
      assert Merged(own, 2, merge) == merge(own[0], own[1]);
      assert AllMerged(own, 3, merge) == merge(AllMerged(own, 2, merge), own[2]);
      assert AllMerged(own, 2, merge) == merge(AllMerged(own, 1, merge), own[1]);
    }
  }
}
