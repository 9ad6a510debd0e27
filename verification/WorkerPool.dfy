// mapWithConcurrency (src/evals/live-v1.ts): workers that share one index and
// one result array. A worker's turn is either its next pass through the loop
// head or the moment its call settles, and turns may come in any order. A call
// answers by index and item: as no index is called twice, any answers that
// depend on time as well are answers by index.
module WorkerPool {
  import opened Options

  // Before the loop head; waiting for the call on an item; done; or stopped by a rejected call.
  datatype Worker = AtLoop | Waiting(index: nat) | Finished | Rejected

  // The variables the workers share, and the indexes the mapper was called with, in order.
  datatype Pool<R> = Pool(nextIndex: nat, results: seq<Option<R>>, workers: seq<Worker>, calls: seq<nat>)

  function Smaller(a: nat, b: nat): nat { if a < b then a else b }

  function Start<T, R>(items: seq<T>, concurrency: nat): Pool<R> {
    Pool(0, seq(|items|, i => None), seq(Smaller(concurrency, |items|), i => AtLoop), [])
  }

  predicate CanMove(w: Worker) { w.AtLoop? || w.Waiting? }

  // One turn of worker w. A call on an item settles with a result, or rejects.
  function Step<T, R>(items: seq<T>, map_: (nat, T) -> Option<R>, s: Pool<R>, w: nat): Pool<R>
    requires |s.results| == |items| && forall v | v in s.workers && v.Waiting? :: v.index < |items|
  {
    if w >= |s.workers| then s
    else match s.workers[w]
      case AtLoop =>
        if s.nextIndex < |items| then
          s.(nextIndex := s.nextIndex + 1, calls := s.calls + [s.nextIndex],
             workers := s.workers[w := Waiting(s.nextIndex)])
        else s.(workers := s.workers[w := Finished])
      case Waiting(index) =>
        var r := map_(index, items[index]);
        if r.Some? then s.(results := s.results[index := r], workers := s.workers[w := AtLoop])
        else s.(workers := s.workers[w := Rejected])
      case _ => s
  }

  // ----- what every interleaving keeps

  predicate Holds<R>(s: Pool<R>, w: nat, index: nat) {
    w < |s.workers| && s.workers[w] == Waiting(index)
  }

  // The call on this index has settled, and its result is in place; or it is
  // still held by a worker; or it rejected.
  ghost predicate Settled<T, R>(items: seq<T>, map_: (nat, T) -> Option<R>, s: Pool<R>, index: nat)
    requires index < |items| == |s.results|
  {
    || (s.results[index].Some? && s.results[index] == map_(index, items[index]))
    || (exists w: nat :: Holds(s, w, index))
    || (map_(index, items[index]).None? && Rejected in s.workers)
  }

  // No index is held twice, and none that is not being worked on.
  ghost predicate HeldOnce<R>(s: Pool<R>) {
    && (forall w: nat, index: nat | Holds(s, w, index) :: index < s.nextIndex)
    && (forall v: nat, w: nat, index: nat | Holds(s, v, index) && Holds(s, w, index) :: v == w)
  }

  ghost predicate PoolOk<T, R>(items: seq<T>, map_: (nat, T) -> Option<R>, s: Pool<R>) {
    && s.nextIndex <= |items| == |s.results|
    && HeldOnce(s)
    && s.calls == seq(s.nextIndex, i => i)
    && (forall index | 0 <= index < s.nextIndex :: Settled(items, map_, s, index))
    && (Finished in s.workers ==> s.nextIndex == |items|)
    && (Rejected in s.workers ==> exists i :: 0 <= i < |items| && map_(i, items[i]).None?)
  }

  lemma WaitingIsInRange<T, R>(items: seq<T>, map_: (nat, T) -> Option<R>, s: Pool<R>)
    requires PoolOk(items, map_, s)
    ensures forall v | v in s.workers && v.Waiting? :: v.index < |items|
  {
    forall v | v in s.workers && v.Waiting? ensures v.index < |items| {
      var w :| 0 <= w < |s.workers| && s.workers[w] == v;
      assert Holds(s, w, v.index);
    }
  }

  lemma StartIsOk<T, R>(items: seq<T>, map_: (nat, T) -> Option<R>, concurrency: nat)
    ensures PoolOk(items, map_, Start<T, R>(items, concurrency))
  {
  }

  lemma TakeKeeps<T, R>(items: seq<T>, map_: (nat, T) -> Option<R>, s: Pool<R>, w: nat)
    requires PoolOk(items, map_, s) && w < |s.workers| && s.workers[w].AtLoop? && s.nextIndex < |items|
    ensures PoolOk(items, map_, s.(nextIndex := s.nextIndex + 1, calls := s.calls + [s.nextIndex],
                                   workers := s.workers[w := Waiting(s.nextIndex)]))
  {
    var s' := s.(nextIndex := s.nextIndex + 1, calls := s.calls + [s.nextIndex],
                 workers := s.workers[w := Waiting(s.nextIndex)]);
    forall v: nat, index: nat | v != w ensures Holds(s', v, index) <==> Holds(s, v, index) { }
    forall index | 0 <= index < s'.nextIndex ensures Settled(items, map_, s', index) {
      if index == s.nextIndex {
        assert Holds(s', w, index);
      } else {
        assert Settled(items, map_, s, index);
        OthersStay(s, w, Waiting(s.nextIndex));
        if v: nat :| Holds(s, v, index) {
          assert Holds(s', v, index);
        }
      }
    }
    OthersStay(s, w, Waiting(s.nextIndex));
  }

  // Changing one worker leaves the others as they are.
  lemma OthersStay<R>(s: Pool<R>, w: nat, v: Worker)
    requires w < |s.workers| && !s.workers[w].Rejected?
    ensures Rejected in s.workers ==> Rejected in s.workers[w := v]
    ensures forall u | u in s.workers[w := v] :: u in s.workers || u == v
  {
    if Rejected in s.workers {
      var i :| 0 <= i < |s.workers| && s.workers[i] == Rejected;
      assert s.workers[w := v][i] == Rejected;
    }
  }

  lemma SettleKeeps<T, R>(items: seq<T>, map_: (nat, T) -> Option<R>, s: Pool<R>, w: nat, index: nat)
    requires PoolOk(items, map_, s) && Holds(s, w, index) && index < |items|
    ensures PoolOk(items, map_,
              if map_(index, items[index]).Some?
              then s.(results := s.results[index := map_(index, items[index])], workers := s.workers[w := AtLoop])
              else s.(workers := s.workers[w := Rejected]))
  {
    var r := map_(index, items[index]);
    var v := if r.Some? then AtLoop else Rejected;
    var s' := if r.Some? then s.(results := s.results[index := r], workers := s.workers[w := v])
              else s.(workers := s.workers[w := v]);
    OthersStay(s, w, v);
    forall u: nat, i: nat | u != w ensures Holds(s', u, i) <==> Holds(s, u, i) { }
    forall i | 0 <= i < s'.nextIndex ensures Settled(items, map_, s', i) {
      assert Settled(items, map_, s, i);
      if i != index {
        if u: nat :| Holds(s, u, i) {
          assert Holds(s', u, i);
        }
      } else if r.None? {
        assert s'.workers[w] == Rejected;
      }
    }
  }

  lemma StepKeeps<T, R>(items: seq<T>, map_: (nat, T) -> Option<R>, s: Pool<R>, w: nat)
    requires PoolOk(items, map_, s)
    requires forall v | v in s.workers && v.Waiting? :: v.index < |items|
    ensures PoolOk(items, map_, Step(items, map_, s, w))
  {
    if w < |s.workers| {
      match s.workers[w]
      case AtLoop =>
        if s.nextIndex < |items| {
          TakeKeeps(items, map_, s, w);
        } else {
          FinishKeeps(items, map_, s, w);
        }
      case Waiting(index) => SettleKeeps(items, map_, s, w, index);
      case _ =>
    }
  }

  lemma FinishKeeps<T, R>(items: seq<T>, map_: (nat, T) -> Option<R>, s: Pool<R>, w: nat)
    requires PoolOk(items, map_, s) && w < |s.workers| && s.workers[w].AtLoop? && s.nextIndex == |items|
    ensures PoolOk(items, map_, s.(workers := s.workers[w := Finished]))
  {
    var s' := s.(workers := s.workers[w := Finished]);
    OthersStay(s, w, Finished);
    forall v: nat, index: nat ensures Holds(s', v, index) <==> Holds(s, v, index) { }
    forall index | 0 <= index < s'.nextIndex ensures Settled(items, map_, s', index) {
      assert Settled(items, map_, s, index);
      if v: nat :| Holds(s, v, index) {
        assert Holds(s', v, index);
      }
    }
  }

  // ----- progress

  function Weight(w: Worker): nat {
    match w
    case AtLoop => 1
    case Waiting(_) => 2
    case _ => 0
  }

  function Total(workers: seq<Worker>): nat {
    if workers == [] then 0 else Weight(workers[0]) + Total(workers[1..])
  }

  lemma {:induction false} TotalUpdate(workers: seq<Worker>, i: nat, w: Worker)
    requires i < |workers|
    ensures Total(workers[i := w]) == Total(workers) - Weight(workers[i]) + Weight(w)
  {
    if i == 0 {
      assert workers[i := w][1..] == workers[1..];
    } else {
      assert workers[i := w][1..] == workers[1..][i - 1 := w];
      TotalUpdate(workers[1..], i - 1, w);
    }
  }

  // What is left to do: at most two turns per item, and one per worker.
  function Remaining<T, R>(items: seq<T>, s: Pool<R>): int {
    2 * (|items| - s.nextIndex) + Total(s.workers)
  }

  // Every turn of a worker that can move brings the end nearer.
  lemma StepProgresses<T, R>(items: seq<T>, map_: (nat, T) -> Option<R>, s: Pool<R>, w: nat)
    requires PoolOk(items, map_, s) && w < |s.workers| && CanMove(s.workers[w])
    requires forall v | v in s.workers && v.Waiting? :: v.index < |items|
    ensures 0 <= Remaining(items, Step(items, map_, s, w)) < Remaining(items, s)
  {
    TotalUpdate(s.workers, w, Step(items, map_, s, w).workers[w]);
  }

  lemma {:induction false} TotalAtLoop(n: nat)
    ensures Total(seq(n, i => AtLoop)) == n
  {
    if n > 0 {
      assert seq(n, i => AtLoop)[1..] == seq(n - 1, i => AtLoop);
      TotalAtLoop(n - 1);
    }
  }

  // ----- what Promise.all makes of it

  datatype Answer<R> = Pending | Resolved(values: seq<R>) | Failed

  // It fails with the first rejection and resolves when every worker is done.
  function AnswerOf<R>(s: Pool<R>): Answer<Option<R>> {
    if Rejected in s.workers then Failed
    else if forall w | w in s.workers :: w.Finished? then Resolved(s.results)
    else Pending
  }

  // The results of a loop that calls the mapper on one item after the other.
  ghost predicate Mapped<T, R>(items: seq<T>, map_: (nat, T) -> Option<R>, values: seq<Option<R>>) {
    |values| == |items| && forall i | 0 <= i < |items| :: values[i].Some? && values[i] == map_(i, items[i])
  }

  // In every interleaving: a resolved pool has called the mapper once for each
  // index and has exactly the results of the sequential loop; a failed one has
  // met an item whose call rejects.
  lemma AnswerIsSequential<T, R>(items: seq<T>, map_: (nat, T) -> Option<R>, s: Pool<R>)
    requires PoolOk(items, map_, s) && (s.workers == [] ==> items == [])
    ensures AnswerOf(s).Resolved? ==> Mapped(items, map_, s.results) && s.calls == seq(|items|, i => i)
    ensures AnswerOf(s).Failed? ==> exists i :: 0 <= i < |items| && map_(i, items[i]).None?
  {
    if AnswerOf(s).Resolved? {
      if s.workers != [] {
        assert s.workers[0] in s.workers;
      }
      forall i | 0 <= i < |items| ensures s.results[i].Some? && s.results[i] == map_(i, items[i]) {
        assert Settled(items, map_, s, i);
        forall w: nat ensures !Holds(s, w, i) {
          if w < |s.workers| {
            assert s.workers[w] in s.workers;
          }
        }
      }
    }
  }

  // A pool that has not answered yet has a worker that can move.
  lemma NeverStuck<R>(s: Pool<R>)
    requires AnswerOf(s).Pending?
    ensures exists w :: 0 <= w < |s.workers| && CanMove(s.workers[w])
  {
    var v :| v in s.workers && !v.Finished?;
    var w :| 0 <= w < |s.workers| && s.workers[w] == v;
    assert CanMove(s.workers[w]);
  }

  // ----- whole runs

  // The pool after any sequence of turns.
  ghost function Run<T, R>(items: seq<T>, map_: (nat, T) -> Option<R>, concurrency: nat, turns: seq<nat>): (s: Pool<R>)
    ensures PoolOk(items, map_, s) && |s.workers| == Smaller(concurrency, |items|)
  {
    if turns == [] then StartIsOk(items, map_, concurrency); Start(items, concurrency)
    else
      var before := Run(items, map_, concurrency, turns[..|turns| - 1]);
      WaitingIsInRange(items, map_, before);
      StepKeeps(items, map_, before, turns[|turns| - 1]);
      Step(items, map_, before, turns[|turns| - 1])
  }

  // Every turn of the run was one of a worker that could move.
  ghost predicate Effective<T, R>(items: seq<T>, map_: (nat, T) -> Option<R>, concurrency: nat, turns: seq<nat>) {
    turns == [] ||
    var before := Run(items, map_, concurrency, turns[..|turns| - 1]);
    && Effective(items, map_, concurrency, turns[..|turns| - 1])
    && turns[|turns| - 1] < |before.workers| && CanMove(before.workers[turns[|turns| - 1]])
  }

  lemma {:induction false} RunsAreShort<T, R>(items: seq<T>, map_: (nat, T) -> Option<R>, concurrency: nat,
                                              turns: seq<nat>)
    requires Effective(items, map_, concurrency, turns)
    ensures |turns| + Remaining(items, Run(items, map_, concurrency, turns))
         <= 2 * |items| + Smaller(concurrency, |items|)
  {
    if turns == [] {
      TotalAtLoop(Smaller(concurrency, |items|));
      var s: Pool<R> := Run(items, map_, concurrency, turns);
      assert s.workers == seq(Smaller(concurrency, |items|), i => AtLoop);
    } else {
      var init := turns[..|turns| - 1];
      RunsAreShort(items, map_, concurrency, init);
      var before := Run(items, map_, concurrency, init);
      WaitingIsInRange(items, map_, before);
      StepProgresses(items, map_, before, turns[|turns| - 1]);
    }
  }

  // After any run: no index has been called twice or is held by two workers, and
  // an answer is the sequential one. With at least one worker and no rejecting
  // call the pool answers after at most two turns per item and one per worker.
  lemma EveryInterleavingAgrees<T, R>(items: seq<T>, map_: (nat, T) -> Option<R>, concurrency: nat, turns: seq<nat>)
    requires concurrency >= 1
    ensures var s := Run(items, map_, concurrency, turns);
            && HeldOnce(s)
            && (forall i, j | 0 <= i < j < |s.calls| :: s.calls[i] != s.calls[j])
            && (AnswerOf(s).Resolved? ==> Mapped(items, map_, s.results) && s.calls == seq(|items|, i => i))
            && (AnswerOf(s).Failed? ==> exists i :: 0 <= i < |items| && map_(i, items[i]).None?)
    ensures Effective(items, map_, concurrency, turns) ==> |turns| <= 2 * |items| + Smaller(concurrency, |items|)
  {
    AnswerIsSequential(items, map_, Run(items, map_, concurrency, turns));
    if Effective(items, map_, concurrency, turns) {
      RunsAreShort(items, map_, concurrency, turns);
      var s := Run(items, map_, concurrency, turns);
      assert Remaining(items, s) >= 0;
    }
  }

  // ----- the function itself

  class Workers<T, R> {
    const items: seq<T>
    const map_: (nat, T) -> Option<R>
    var nextIndex: nat
    var results: seq<Option<R>>
    var workers: seq<Worker>
    var calls: seq<nat>

    function State(): Pool<R>
      reads this
    {
      Pool(nextIndex, results, workers, calls)
    }

    constructor (items: seq<T>, concurrency: nat, map_: (nat, T) -> Option<R>)
      ensures State() == Start(items, concurrency) && this.items == items && this.map_ == map_
    {
      this.items, this.map_ := items, map_;
      nextIndex, results, calls := 0, seq(|items|, i => None), [];
      workers := seq(Smaller(concurrency, |items|), i => AtLoop);
    }

    // The worker goes on until it has to wait again, or its call settles.
    method Turn(w: nat)
      requires PoolOk(items, map_, State()) && w < |workers| && CanMove(workers[w])
      requires forall v | v in workers && v.Waiting? :: v.index < |items|
      modifies this
      ensures State() == Step(items, map_, old(State()), w)
    {
      if workers[w].AtLoop? {
        if nextIndex < |items| {
          workers := workers[w := Waiting(nextIndex)];
          calls := calls + [nextIndex];
          nextIndex := nextIndex + 1;
        } else {
          workers := workers[w := Finished];
        }
      } else {
        var index := workers[w].index;
        assert workers[w] in workers;
        var r := map_(index, items[index]);
        if r.Some? {
          results := results[index := r];
          workers := workers[w := AtLoop];
        } else {
          workers := workers[w := Rejected];
        }
      }
    }
  }

  // Whichever worker moves next, the pool answers, and with the sequential results.
  method MapWithConcurrency<T, R>(items: seq<T>, concurrency: nat, map_: (nat, T) -> Option<R>)
      returns (answer: Answer<Option<R>>)
    requires concurrency >= 1
    ensures !answer.Pending?
    ensures answer.Resolved? <==> forall i | 0 <= i < |items| :: map_(i, items[i]).Some?
    ensures answer.Resolved? ==> Mapped(items, map_, answer.values)
  {
    var pool := new Workers(items, concurrency, map_);
    StartIsOk(items, map_, concurrency);
    while AnswerOf(pool.State()).Pending?
      invariant PoolOk(items, map_, pool.State()) && pool.items == items && pool.map_ == map_
      invariant |pool.workers| == Smaller(concurrency, |items|)
      decreases Remaining(items, pool.State())
    {
      NeverStuck(pool.State());
      WaitingIsInRange(items, map_, pool.State());
      var w: nat :| w < |pool.workers| && CanMove(pool.workers[w]);
      StepProgresses(items, map_, pool.State(), w);
      StepKeeps(items, map_, pool.State(), w);
      pool.Turn(w);
    }
    AnswerIsSequential(items, map_, pool.State());
    answer := AnswerOf(pool.State());
  }
}
