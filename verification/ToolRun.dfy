/**
 The bounded worker pool of `TurnBudget.runToolCalls` (src/ai/turnBudget.ts).

 Workers share `nextIndex`, `firstError` and the budget. One step is one worker
 reaching its loop head, or one task settling together with the code up to the
 next loop head; the steps of different workers interleave in any order.
 */
module ToolRun {
  import opened Prelude
  import opened TurnBudgets

  datatype RunError = FromTask(tag: int) | FromBudget(error: BudgetError)

  /** How a task settles. A task may reject with `undefined`: `Rejected(None)`. */
  datatype Outcome<T> = Returned(value: T, bytes: int) | Rejected(error: Option<RunError>)

  datatype Worker = AtLoop | Running(index: nat) | Exited | Broken

  datatype Pool<T> = Pool(
    tasks: nat,
    nextIndex: nat,
    firstError: Option<RunError>,
    results: map<nat, T>,
    usage: Usage,
    workers: seq<Worker>,
    started: seq<nat>,
    settled: map<nat, Outcome<T>>)

  datatype Event<T> = Loop(worker: nat) | Settle(worker: nat, outcome: Outcome<T>)

  function Start<T>(limits: Limits, u: Usage, tasks: nat): (r: Result<Pool<T>, BudgetError>)
    requires tasks > 0
  {
    match Claimed(limits, u, tasks)
    case Failure(e) => Failure(e)
    case Success(claimed) =>
      Success(Pool(tasks, 0, None, map[], claimed, seq(Min(limits.parallel, tasks), _ => AtLoop), [], map[]))
  }

  predicate Enabled<T>(p: Pool<T>, e: Event<T>) {
    e.worker < |p.workers| &&
    match e
    case Loop(w) => p.workers[w].AtLoop?
    case Settle(w, _) => p.workers[w].Running?
  }

  function Step<T>(limits: Limits, p: Pool<T>, e: Event<T>): Pool<T>
    requires Enabled(p, e)
  {
    match e
    case Loop(w) =>
      if p.firstError.Some? then p.(workers := p.workers[w := Exited])
      else
        var index := p.nextIndex;
        var q := p.(nextIndex := index + 1);
        if index >= p.tasks then q.(workers := p.workers[w := Exited])
        else
          (match Begun(limits, p.usage)
           case Failure(_) => q.(workers := p.workers[w := Broken])
           case Success(u) =>
             q.(usage := u, workers := p.workers[w := Running(index)], started := p.started + [index]))
    case Settle(w, outcome) =>
      var index := p.workers[w].index;
      var (u, error, results) :=
        match outcome
        case Returned(value, bytes) =>
          (match Recorded(limits, p.usage, bytes)
           case Success(u) => (u, None, p.results[index := value])
           case Failure(e) => (p.usage, Some(FromBudget(e)), p.results))
        case Rejected(e) => (p.usage, e, p.results);
      p.(usage := Ended(u),
         firstError := if p.firstError.None? then error else p.firstError,
         results := results,
         workers := p.workers[w := AtLoop],
         settled := p.settled[index := outcome])
  }

  predicate Valid<T>(limits: Limits, p: Pool<T>, es: seq<Event<T>>)
    decreases |es|
  {
    es != [] ==> Enabled(p, es[0]) && Valid(limits, Step(limits, p, es[0]), es[1..])
  }

  function Run<T>(limits: Limits, p: Pool<T>, es: seq<Event<T>>): Pool<T>
    requires Valid(limits, p, es)
    decreases |es|
  {
    if es == [] then p else Run(limits, Step(limits, p, es[0]), es[1..])
  }

  function CountRunning(ws: seq<Worker>): (n: nat)
    ensures n <= |ws|
  {
    if ws == [] then 0 else (if ws[0].Running? then 1 else 0) + CountRunning(ws[1..])
  }

  lemma {:induction false} CountUpdate(ws: seq<Worker>, i: nat, w: Worker)
    requires i < |ws|
    ensures CountRunning(ws[i := w]) ==
            CountRunning(ws) - (if ws[i].Running? then 1 else 0) + (if w.Running? then 1 else 0)
  {
    if i == 0 {
      assert ws[i := w][1..] == ws[1..];
    } else {
      assert ws[i := w][1..] == ws[1..][i - 1 := w];
      CountUpdate(ws[1..], i - 1, w);
    }
  }

  /** Some worker is running task `i`. */
  ghost predicate InFlight<T>(p: Pool<T>, i: nat) {
    exists w :: 0 <= w < |p.workers| && p.workers[w] == Running(i)
  }

  /** No settled task failed with an error the pool can see. */
  ghost predicate SettledQuietly<T>(p: Pool<T>) {
    forall i :: i in p.settled ==>
      match p.settled[i]
      case Returned(v, _) => i in p.results && p.results[i] == v
      case Rejected(e) => e.None?
  }

  /** A settled task failed: it rejected with a defined error, or its result
      was refused by the budget. */
  ghost predicate SomeFailure<T>(p: Pool<T>) {
    exists i :: i in p.settled &&
      match p.settled[i]
      case Returned(_, _) => i !in p.results
      case Rejected(e) => e.Some?
  }

  /** Starts and running calls. */
  ghost predicate WorkersInv<T>(limits: Limits, p: Pool<T>) {
    && limits.Valid()
    && |p.workers| <= limits.parallel
    && (forall w :: 0 <= w < |p.workers| ==> !p.workers[w].Broken?)
    // the log of starts is 0, 1, 2, ... in order
    && |p.started| == Min(p.nextIndex, p.tasks)
    && (forall i :: 0 <= i < |p.started| ==> p.started[i] == i)
    // running calls are counted, own different tasks, and have not settled
    && p.usage.parallel == CountRunning(p.workers)
    && (forall w :: 0 <= w < |p.workers| && p.workers[w].Running? ==>
          p.workers[w].index < |p.started| && p.workers[w].index !in p.settled)
    && (forall v, w :: 0 <= v < w < |p.workers| && p.workers[v].Running? && p.workers[w].Running? ==>
          p.workers[v].index != p.workers[w].index)
    // a worker leaves without an error only when the tasks have run out
    && ((exists w :: 0 <= w < |p.workers| && p.workers[w].Exited?) ==> p.firstError.Some? || p.nextIndex > p.tasks)
  }

  /** Settled tasks, results and the error. */
  ghost predicate ResultsInv<T>(p: Pool<T>) {
    && (forall i :: i in p.settled ==> i < |p.started|)
    && (forall i :: 0 <= i < |p.started| && i !in p.settled ==> InFlight(p, i))
    && (forall i :: i in p.results ==> i in p.settled && p.settled[i].Returned? && p.settled[i].value == p.results[i])
    && (p.firstError.None? ==> SettledQuietly(p))
    && (p.firstError.Some? ==> SomeFailure(p))
  }

  ghost predicate Inv<T>(limits: Limits, p: Pool<T>) {
    WorkersInv(limits, p) && ResultsInv(p)
  }

  lemma StartInv<T>(limits: Limits, u: Usage, tasks: nat)
    requires limits.Valid() && tasks > 0 && u.parallel == 0
    ensures var r := Start<T>(limits, u, tasks);
            r.Success? ==> Inv(limits, r.value) && |r.value.workers| == Min(limits.parallel, tasks) > 0
  {
    if Claimed(limits, u, tasks).Success? {
      NoneRunning(Start<T>(limits, u, tasks).value.workers);
    }
  }

  lemma {:induction false} NoneRunning(ws: seq<Worker>)
    requires forall w :: 0 <= w < |ws| ==> !ws[w].Running?
    ensures CountRunning(ws) == 0
  {
    if ws != [] {
      NoneRunning(ws[1..]);
    }
  }

  lemma InFlightKept<T>(p: Pool<T>, q: Pool<T>, w: nat)
    requires w < |p.workers| == |q.workers|
    requires q.workers == p.workers[w := q.workers[w]]
    ensures forall i: nat :: InFlight(p, i) && p.workers[w] != Running(i) ==> InFlight(q, i)
  {
    forall i: nat | InFlight(p, i) && p.workers[w] != Running(i)
      ensures InFlight(q, i)
    {
      var v :| 0 <= v < |p.workers| && p.workers[v] == Running(i);
      assert q.workers[v] == Running(i);
    }
  }

  lemma LoopInv<T>(limits: Limits, p: Pool<T>, w: nat)
    requires Inv(limits, p) && Enabled(p, Loop(w))
    ensures Inv(limits, Step(limits, p, Loop(w)))
  {
    var q := Step(limits, p, Loop(w));
    CountUpdate(p.workers, w, q.workers[w]);
    InFlightKept(p, q, w);
    if p.firstError.None? && p.nextIndex < p.tasks {
      // w itself is not running, so fewer workers run than the limit allows
      SomeIdle(p.workers, w);
      assert q.workers[w] == Running(p.nextIndex);
      assert InFlight(q, p.nextIndex);
    } else {
      assert q.workers[w].Exited?;
    }
  }

  lemma {:induction false} SomeIdle(ws: seq<Worker>, w: nat)
    requires w < |ws| && !ws[w].Running?
    ensures CountRunning(ws) < |ws|
  {
    if w > 0 {
      SomeIdle(ws[1..], w - 1);
    }
  }

  lemma SettleFailure<T>(limits: Limits, p: Pool<T>, w: nat, outcome: Outcome<T>)
    requires Inv(limits, p) && Enabled(p, Settle(w, outcome))
    requires Step(limits, p, Settle(w, outcome)).firstError.Some?
    ensures SomeFailure(Step(limits, p, Settle(w, outcome)))
  {
    var q := Step(limits, p, Settle(w, outcome));
    var index := p.workers[w].index;
    if p.firstError.Some? {
      var i :| i in p.settled &&
        match p.settled[i]
        case Returned(_, _) => i !in p.results
        case Rejected(e) => e.Some?;
      assert i != index && i in q.settled && q.settled[i] == p.settled[i];
    } else {
      assert index in q.settled;
    }
  }

  lemma SettleWorkers<T>(limits: Limits, p: Pool<T>, w: nat, outcome: Outcome<T>)
    requires Inv(limits, p) && Enabled(p, Settle(w, outcome))
    ensures WorkersInv(limits, Step(limits, p, Settle(w, outcome)))
  {
    var q := Step(limits, p, Settle(w, outcome));
    CountUpdate(p.workers, w, AtLoop);
    if exists v :: 0 <= v < |q.workers| && q.workers[v].Exited? {
      var v :| 0 <= v < |q.workers| && q.workers[v].Exited?;
      assert p.workers[v].Exited?;
    }
  }

  lemma SettleInv<T>(limits: Limits, p: Pool<T>, w: nat, outcome: Outcome<T>)
    requires Inv(limits, p) && Enabled(p, Settle(w, outcome))
    ensures Inv(limits, Step(limits, p, Settle(w, outcome)))
  {
    var q := Step(limits, p, Settle(w, outcome));
    SettleWorkers(limits, p, w, outcome);
    InFlightKept(p, q, w);
    if q.firstError.Some? {
      SettleFailure(limits, p, w, outcome);
    }
    forall i | 0 <= i < |q.started| && i !in q.settled
      ensures InFlight(q, i)
    {
      assert InFlight(p, i) && p.workers[w] != Running(i);
    }
  }

  lemma StepInv<T>(limits: Limits, p: Pool<T>, e: Event<T>)
    requires Inv(limits, p) && Enabled(p, e)
    ensures Inv(limits, Step(limits, p, e))
    ensures Step(limits, p, e).tasks == p.tasks && |Step(limits, p, e).workers| == |p.workers|
  {
    match e {
      case Loop(w) => LoopInv(limits, p, w);
      case Settle(w, o) => SettleInv(limits, p, w, o);
    }
  }

  lemma {:induction false} RunInv<T>(limits: Limits, p: Pool<T>, es: seq<Event<T>>)
    requires Inv(limits, p) && Valid(limits, p, es)
    ensures Inv(limits, Run(limits, p, es))
    ensures Run(limits, p, es).tasks == p.tasks && |Run(limits, p, es).workers| == |p.workers|
    decreases |es|
  {
    if es != [] {
      StepInv(limits, p, es[0]);
      RunInv(limits, Step(limits, p, es[0]), es[1..]);
    }
  }

  /** Every worker has returned, so `Promise.all` resolves. */
  predicate Finished<T>(p: Pool<T>) {
    forall w :: 0 <= w < |p.workers| ==> p.workers[w].Exited?
  }

  /**
   In every state of every interleaving no task starts twice, the calls running
   at once stay within the limit, and the counter equals their number, so that
   it is back at zero when the pool has finished.
   */
  lemma PoolSafety<T>(limits: Limits, u: Usage, tasks: nat, es: seq<Event<T>>)
    requires limits.Valid() && tasks > 0 && u.parallel == 0
    requires Start<T>(limits, u, tasks).Success? && Valid(limits, Start<T>(limits, u, tasks).value, es)
    ensures var p := Run(limits, Start<T>(limits, u, tasks).value, es);
            && (forall i, j :: 0 <= i < j < |p.started| ==> p.started[i] != p.started[j])
            && p.usage.parallel == CountRunning(p.workers) <= limits.parallel
            && (Finished(p) ==> p.usage.parallel == 0)
            && (!Finished(p) ==> exists w :: 0 <= w < |p.workers| && (p.workers[w].AtLoop? || p.workers[w].Running?))
  {
    StartInv<T>(limits, u, tasks);
    var s := Start<T>(limits, u, tasks).value;
    RunInv(limits, s, es);
    var p := Run(limits, s, es);
    if Finished(p) {
      NoneRunning(p.workers);
    }
  }

  /**
   The pool reports an error exactly when a settled task failed. When it has
   finished without one, every task has settled, and a
   slot holds its own task's value exactly when that task returned; the only
   empty slots belong to tasks that rejected with `undefined`.
   */
  lemma PoolResults<T>(limits: Limits, u: Usage, tasks: nat, es: seq<Event<T>>)
    requires limits.Valid() && tasks > 0 && u.parallel == 0
    requires Start<T>(limits, u, tasks).Success? && Valid(limits, Start<T>(limits, u, tasks).value, es)
    ensures var p := Run(limits, Start<T>(limits, u, tasks).value, es);
            p.firstError.None? <==> !SomeFailure(p)
    ensures var p := Run(limits, Start<T>(limits, u, tasks).value, es);
            Finished(p) && p.firstError.None? ==>
              forall i: nat :: i < tasks ==>
                && i in p.settled
                && (i in p.results <==> p.settled[i].Returned?)
                && (i in p.results ==> p.results[i] == p.settled[i].value)
                && (i !in p.results <==> p.settled[i] == Rejected(None))
  {
    StartInv<T>(limits, u, tasks);
    var s := Start<T>(limits, u, tasks).value;
    RunInv(limits, s, es);
    var p := Run(limits, s, es);
    if Finished(p) && p.firstError.None? {
      assert p.workers[0].Exited?;
      forall i: nat | i < tasks
        ensures i in p.settled
      {
        assert i !in p.settled ==> InFlight(p, i);
      }
    }
  }

  /** Once an error is recorded nothing further starts, and the error reported
      stays the first one. */
  lemma {:induction false} ErrorStopsStarts<T>(limits: Limits, p: Pool<T>, es: seq<Event<T>>)
    requires p.firstError.Some? && Valid(limits, p, es)
    ensures Run(limits, p, es).started == p.started
    ensures Run(limits, p, es).firstError == p.firstError
    decreases |es|
  {
    if es != [] {
      ErrorStopsStarts(limits, Step(limits, p, es[0]), es[1..]);
    }
  }

  /** A rejection with `undefined` is lost: the pool resolves with a hole. */
  lemma UndefinedRejectionLeavesHole(limits: Limits)
    requires limits.Valid()
    ensures var s := Start<int>(limits, Unused, 1).value;
            var es := [Loop(0), Settle(0, Rejected(None)), Loop(0)];
            && Valid(limits, s, es)
            && Finished(Run(limits, s, es)) && Run(limits, s, es).firstError.None?
            && 0 !in Run(limits, s, es).results
  {
  }
}
