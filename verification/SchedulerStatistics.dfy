/** What the scheduler's counters say about a run. */
module SchedulerStatistics {
  import opened Wrappers
  import opened ResultTable
  import opened Scheduler
  import opened SchedulerRuns
  import opened SchedulerQuery
  import opened SchedulerTheorems

  /** How many tasks have been started. */
  function Starts(log: seq<Event>): nat {
    if log == [] then 0 else Starts(log[..|log| - 1]) + if log[|log| - 1].Start? then 1 else 0
  }

  lemma {:induction false} StartsAppend(a: seq<Event>, b: seq<Event>)
    ensures Starts(a + b) == Starts(a) + Starts(b)
  {
    if b == [] {
      assert a + b == a;
    } else {
      StartsAppend(a, b[..|b| - 1]);
      assert (a + b)[..|a + b| - 1] == a + b[..|b| - 1];
    }
  }

  /** A worker whose task the watchdog can still fail. */
  predicate CanFail(worker: Worker) {
    worker.phase.Taken? || worker.current.Some?
  }

  function CanFailCount(workers: seq<Worker>): nat {
    if workers == [] then 0
    else CanFailCount(workers[..|workers| - 1]) + if CanFail(workers[|workers| - 1]) then 1 else 0
  }

  lemma {:induction false} CanFailUpdate(workers: seq<Worker>, v: nat, worker: Worker)
    requires v < |workers|
    ensures CanFailCount(workers[v := worker])
         == CanFailCount(workers) - (if CanFail(workers[v]) then 1 else 0) + (if CanFail(worker) then 1 else 0)
  {
    var n := |workers| - 1;
    if v == n {
      assert workers[v := worker][..n] == workers[..n];
    } else {
      assert workers[v := worker][..n] == workers[..n][v := worker];
      CanFailUpdate(workers[..n], v, worker);
    }
  }

  ghost predicate Accounted(w: World) {
    && w.s.inferences == w.s.completed && w.s.tokens == 128 * w.s.completed
    && Starts(w.log) == HeldCount(w.s.workers) + w.s.completed
    && w.s.timeouts + CanFailCount(w.s.workers) <= Starts(w.log)
  }

  /** Logging anything but a start, with workers and counters as they were. */
  lemma OneEvent(w: World, v: World, e: Event)
    requires Accounted(w) && v.s.workers == w.s.workers && v.log == w.log + [e] && !e.Start?
    requires v.s.inferences == w.s.inferences && v.s.tokens == w.s.tokens
    requires v.s.completed == w.s.completed && v.s.timeouts == w.s.timeouts
    ensures Accounted(v)
  {
    StartsAppend(w.log, [e]);
  }

  lemma InsertAccounted(w: World, step: Step)
    requires Shape(w) && Accounted(w) && step.InsertTask?
    ensures Accounted(Next(w, step))
  {
    if step.sub in w.flights && w.flights[step.sub].Ready? {
      OneEvent(w, Next(w, step), Enqueue(w.flights[step.sub].task));
    }
  }

  lemma CancelAccounted(w: World, step: Step)
    requires Shape(w) && Accounted(w) && step.CancelTask?
    ensures Accounted(Next(w, step))
  {
    if Withdrawn(w.s, step.id).1 {
      OneEvent(w, Next(w, step), Revoke(step.id));
    }
  }

  lemma QueryAccounted(w: World, step: Step)
    requires Shape(w) && Accounted(w) && step.QueryTask?
    ensures Accounted(Next(w, step))
  {
    if Lookup(w.s.track, step.id).Some? {
      OneEvent(w, Next(w, step), Consume(step.id));
    }
  }

  /** A thread that has not announced its task has nothing that the watchdog sees. */
  lemma TakenIsHidden(w: World, k: nat)
    requires Reachable(w) && k < |w.s.workers| && w.s.workers[k].phase.Taken?
    ensures w.s.workers[k].current.None?
  {
    assert WorkerConsistent(w, k);
  }

  /** The counts after one worker changed and some events were logged. */
  lemma Recount(w: World, v: World, k: nat, worker: Worker, more: seq<Event>)
    requires k < |w.s.workers| && v.s.workers == w.s.workers[k := worker] && v.log == w.log + more
    ensures Starts(v.log) == Starts(w.log) + Starts(more)
    ensures HeldCount(v.s.workers) == HeldCount(w.s.workers) - (if Holding(w.s.workers[k].phase) then 1 else 0)
                                      + (if Holding(worker.phase) then 1 else 0)
    ensures CanFailCount(v.s.workers) == CanFailCount(w.s.workers) - (if CanFail(w.s.workers[k]) then 1 else 0)
                                         + (if CanFail(worker) then 1 else 0)
  {
    HeldUpdate(w.s.workers, k, worker);
    CanFailUpdate(w.s.workers, k, worker);
    StartsAppend(w.log, more);
  }

  lemma TakeAccounted(w: World, step: Step)
    requires Shape(w) && Accounted(w) && step.TakeTask?
    ensures Accounted(Next(w, step))
  {
    var v := Next(w, step);
    if v != w {
      var e := Start(Dequeued(w.s).1.value);
      assert Starts([e]) == 1;
      Recount(w, v, step.w, v.s.workers[step.w], [e]);
    }
  }

  lemma AnnounceOrClearAccounted(w: World, step: Step)
    requires Shape(w) && Accounted(w) && (step.AnnounceTask? || step.ClearWorker?)
    ensures Accounted(Next(w, step))
  {
    var v := Next(w, step);
    if v != w {
      assert w.log + [] == w.log;
      Recount(w, v, step.w, v.s.workers[step.w], []);
    }
  }

  lemma FinishAccounted(w: World, step: Step)
    requires Shape(w) && Accounted(w) && step.FinishTask?
    ensures Accounted(Next(w, step))
  {
    var v := Next(w, step);
    if v != w {
      var t := w.s.workers[step.w].phase.task;
      NoStarts(Evictions(w.s.track, t.id, t.isAsync));
      Recount(w, v, step.w, v.s.workers[step.w], Evictions(w.s.track, t.id, t.isAsync));
    }
  }

  lemma WatchAccounted(w: World, step: Step)
    requires Reachable(w) && Accounted(w) && step.WatchWorker?
    ensures Accounted(Next(w, step))
  {
    var v := Next(w, step);
    if step.w < |w.s.workers| && TimedOut(w.s.workers[step.w], step.now) {
      if w.s.workers[step.w].phase.Taken? {
        TakenIsHidden(w, step.w);
      }
      var t := w.s.workers[step.w].current.value;
      NoStarts(Evictions(w.s.track, t.id, t.isAsync));
      Recount(w, v, step.w, v.s.workers[step.w], Evictions(w.s.track, t.id, t.isAsync));
    }
  }

  lemma {:induction false} NoStarts(es: seq<Event>)
    requires forall i :: 0 <= i < |es| ==> !es[i].Start?
    ensures Starts(es) == 0
  {
    if es != [] {
      NoStarts(es[..|es| - 1]);
    }
  }

  lemma StepAccounted(w: World, step: Step)
    requires Reachable(w) && Accounted(w)
    ensures Accounted(Next(w, step))
  {
    match step
    case TakeTask(_) => TakeAccounted(w, step);
    case AnnounceTask(_) => AnnounceOrClearAccounted(w, step);
    case ClearWorker(_) => AnnounceOrClearAccounted(w, step);
    case FinishTask(_, _) => FinishAccounted(w, step);
    case WatchWorker(_, _) => WatchAccounted(w, step);
    case InsertTask(_) => InsertAccounted(w, step);
    case CancelTask(_) => CancelAccounted(w, step);
    case QueryTask(_) => QueryAccounted(w, step);
    case _ =>
  }

  lemma {:induction false} RunAccounted(w: World, steps: seq<Step>)
    requires Reachable(w) && Accounted(w)
    ensures Accounted(Run(w, steps))
    decreases steps
  {
    if steps != [] {
      StepReachable(w, steps[0]);
      StepAccounted(w, steps[0]);
      RunAccounted(Next(w, steps[0]), steps[1..]);
    }
  }

  lemma {:induction false} NothingCanFail(n: nat)
    ensures CanFailCount(seq(n, _ => Worker(Idle, None, false))) == 0
  {
    if n > 0 {
      assert seq(n, _ => Worker(Idle, None, false))[..n - 1] == seq(n - 1, _ => Worker(Idle, None, false));
      NothingCanFail(n - 1);
    }
  }

  /**
   * In every run each started task is held or was completed once, the three completion counters
   * agree, and the watchdog fails at most as many tasks as were started.
   */
  lemma StatisticsAgree(c: Config, steps: seq<Step>)
    requires c.Valid()
    ensures var w := After(c, steps);
            && w.s.inferences == w.s.completed && w.s.tokens == 128 * w.s.completed
            && Starts(w.log) == HeldCount(w.s.workers) + w.s.completed
            && w.s.timeouts <= Starts(w.log)
  {
    var w := Init(c.capacity, c.submitters, c.pool, c.tableSize);
    InitReachable(c);
    NothingHeld(c.pool);
    NothingCanFail(c.pool);
    RunAccounted(w, steps);
  }
}
