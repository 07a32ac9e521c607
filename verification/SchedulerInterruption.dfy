/** When a query that other steps may interrupt between its scans is sure to find a task. */
module SchedulerInterruption {
  import opened Wrappers
  import opened ResultTable
  import opened Scheduler
  import opened SchedulerRuns
  import opened SchedulerQuery
  import opened SchedulerTheorems
  import opened SchedulerScans
  import opened SchedulerWitnesses

  /** Whatever runs between the three scans, a task that is outstanding at the last one is found. */
  ghost predicate AlwaysFound(a: World, t: Task)
    requires Inv(a)
  {
    forall xs, ys ::
      var b := Run(a, xs);
      var d := Run(b, ys);
      Outstanding(d, t) ==> ScansFind(a, b, d, t.id)
  }

  // ---------------------------------------------------------------- steps that leave a task outstanding

  lemma NotEvicted(track: Track, id: nat, isAsync: bool, other: nat)
    requires track.evict < |track.slots| && (other == id || Lookup(track, other).None?)
    ensures Evict(other) !in Evictions(track, id, isAsync)
    ensures forall e :: e in Evictions(track, id, isAsync) ==> e.Evict?
  {
  }

  lemma LogGrows(w: World, v: World, t: Task, es: seq<Event>)
    requires Outstanding(w, t) && v.log == w.log + es
    requires forall e :: e in es ==> e !in {Revoke(t.id), Consume(t.id), Evict(t.id)}
    ensures Outstanding(v, t)
  {
  }

  /** Steps that neither record a result nor consume one, and do not cancel the task itself. */
  lemma StepOutstanding(w: World, step: Step, t: Task)
    requires Shape(w) && Outstanding(w, t)
    requires step.TakeTask? || step.AnnounceTask? || step.ClearWorker? || (step.CancelTask? && step.id != t.id)
    ensures Outstanding(Next(w, step), t)
  {
    var v := Next(w, step);
    if v.log != w.log {
      LogGrows(w, v, t, [v.log[|w.log|]]);
    }
  }

  lemma FinishOutstanding(w: World, k: nat, now: nat, t: Task)
    requires Shape(w) && Outstanding(w, t) && k < |w.s.workers| && w.s.workers[k].phase.Working?
    requires w.s.workers[k].phase.task.id == t.id || !TableScan(w.s, t.id)
    ensures Outstanding(Next(w, FinishTask(k, now)), t)
  {
    var u := w.s.workers[k].phase.task;
    NotEvicted(w.s.track, u.id, u.isAsync, t.id);
    LogGrows(w, Next(w, FinishTask(k, now)), t, Evictions(w.s.track, u.id, u.isAsync));
  }

  // ---------------------------------------------------------------- a task that waits in a queue

  /** The task waits in a queue and there is a worker 0. */
  ghost predicate Waiting(w: World, t: Task) {
    Outstanding(w, t) && t.id in w.loc && w.loc[t.id].InQueue? && |w.s.workers| > 0
  }

  lemma WaitingUnrecorded(w: World, t: Task)
    requires TableTracked(w) && Waiting(w, t)
    ensures !TableScan(w.s, t.id)
  {
    assert Lookup(w.s.track, t.id).Some? ==> PastTaken(w, t.id);
  }

  /** How many steps worker 0 is away from being idle. */
  function Distance(p: Phase): nat {
    match p
    case Idle => 0
    case Finished(_) => 1
    case Working(_) => 2
    case Taken(_) => 3
  }

  /** The next step of worker 0 toward being idle. */
  function Onward(p: Phase): Step {
    match p
    case Taken(_) => AnnounceTask(0)
    case Working(_) => FinishTask(0, 0)
    case _ => ClearWorker(0)
  }

  lemma OnwardWaits(w: World, t: Task)
    requires Shape(w) && Located(w) && TableTracked(w) && Waiting(w, t) && !w.s.workers[0].phase.Idle?
    ensures var v := Next(w, Onward(w.s.workers[0].phase));
            Waiting(v, t) && Distance(v.s.workers[0].phase) < Distance(w.s.workers[0].phase)
  {
    var step := Onward(w.s.workers[0].phase);
    if step.FinishTask? {
      WaitingUnrecorded(w, t);
      FinishOutstanding(w, 0, 0, t);
    } else {
      StepOutstanding(w, step, t);
    }
  }

  /** Worker 0 can always get rid of what it holds without disturbing a waiting task. */
  lemma {:induction false} FreeWorker(w: World, t: Task) returns (steps: seq<Step>)
    requires Reachable(w) && Waiting(w, t)
    ensures var v := Run(w, steps); Waiting(v, t) && v.s.workers[0].phase.Idle?
    decreases Distance(w.s.workers[0].phase)
  {
    steps := [];
    if !w.s.workers[0].phase.Idle? {
      var step := Onward(w.s.workers[0].phase);
      OnwardWaits(w, t);
      StepReachable(w, step);
      var rest := FreeWorker(Next(w, step), t);
      RunCons(w, step, rest);
      steps := [step] + rest;
    }
  }

  /** The task that would be dequeued next; one exists when something waits. */
  lemma NextUp(w: World, t: Task) returns (q: nat, head: Task)
    requires Shape(w) && Waiting(w, t) && t in w.s.queues[QueueOf(t.priority)]
    ensures q == TopBelow(w.s, QUEUES) && w.s.queues[q] != [] && head == w.s.queues[q][0]
  {
    assert w.s.queues[QueueOf(t.priority)] != [];
    q := TopBelow(w.s, QUEUES);
    head := w.s.queues[q][0];
  }

  lemma HeadHolder(s: State, q: nat)
    requires s.Valid() && q < QUEUES && s.queues[q] != []
    ensures Holder(s, s.queues[q][0].id, 0) < QUEUES
  {
    assert Position(s.queues[q], s.queues[q][0].id) == 0;
  }

  /** Cancelling another task leaves this one waiting, with fewer tasks queued. */
  lemma CancelHead(w: World, t: Task, id: nat)
    requires Shape(w) && Waiting(w, t) && id != t.id && Holder(w.s, id, 0) < QUEUES
    ensures var v := Next(w, CancelTask(id));
            Waiting(v, t) && Total(v.s.queues) < Total(w.s.queues) && v.s.workers == w.s.workers
  {
    var q := Holder(w.s, id, 0);
    var i := Position(w.s.queues[q], id);
    TotalUpdate(w.s.queues, q, w.s.queues[q][..i] + w.s.queues[q][i + 1..]);
    StepOutstanding(w, CancelTask(id), t);
  }

  /** Worker 0 has just dequeued the task. */
  ghost predicate JustTaken(w: World, t: Task) {
    && Outstanding(w, t) && t.id in w.loc && w.loc[t.id] == AtWorker(0)
    && |w.s.workers| > 0 && w.s.workers[0].phase == Taken(t)
  }

  lemma TakeHead(w: World, t: Task)
    requires Shape(w) && Waiting(w, t) && w.s.workers[0].phase.Idle?
    requires var q := TopBelow(w.s, QUEUES); q >= 0 && w.s.queues[q][0] == t
    ensures JustTaken(Next(w, TakeTask(0)), t)
  {
    StepOutstanding(w, TakeTask(0), t);
  }

  lemma SameTask(w: World, t: Task, q: nat)
    requires Reachable(w) && Waiting(w, t) && q < QUEUES && w.s.queues[q] != [] && w.s.queues[q][0].id == t.id
    ensures w.s.queues[q][0] == t
  {
    LoggedAt(w, t);
    assert w.log[w.stamp[w.s.queues[q][0].id]] == Enqueue(w.s.queues[q][0]);
  }

  /** An idle worker can always be made to dequeue a waiting task: what is ahead of it is cancelled. */
  lemma {:induction false} DrainAndTake(w: World, t: Task) returns (steps: seq<Step>)
    requires Reachable(w) && Waiting(w, t) && w.s.workers[0].phase.Idle?
    ensures JustTaken(Run(w, steps), t)
    decreases Total(w.s.queues)
  {
    LoggedAt(w, t);
    var q, head := NextUp(w, t);
    var step := if head.id == t.id then TakeTask(0) else CancelTask(head.id);
    StepReachable(w, step);
    var rest := [];
    if head.id == t.id {
      SameTask(w, t, q);
      TakeHead(w, t);
    } else {
      HeadHolder(w.s, q);
      CancelHead(w, t, head.id);
      rest := DrainAndTake(Next(w, step), t);
    }
    RunCons(w, step, rest);
    steps := [step] + rest;
  }

  // ---------------------------------------------------------------- the exact condition

  lemma TakenMissed(a: World, b: World, t: Task, k: nat)
    requires Reachable(b) && Outstanding(b, t) && t.id in b.loc && b.loc[t.id] == AtWorker(k)
    requires k < |b.s.workers| && b.s.workers[k].phase.Taken? && !TableScan(a.s, t.id)
    ensures !ScansFind(a, b, b, t.id)
  {
    NotInQueues(b, t.id);
    OnlyHolderShows(b, t, k);
  }

  /** The query misses the task when xs runs before its queue scan and ys before its worker scan. */
  ghost predicate Missed(a: World, xs: seq<Step>, ys: seq<Step>, t: Task)
    requires Inv(a)
  {
    var b := Run(a, xs);
    var d := Run(b, ys);
    Outstanding(d, t) && !ScansFind(a, b, d, t.id)
  }

  lemma WaitingMissed(a: World, t: Task) returns (xs: seq<Step>)
    requires Reachable(a) && Waiting(a, t)
    ensures Missed(a, xs, [], t)
  {
    WaitingUnrecorded(a, t);
    var free := FreeWorker(a, t);
    RunReachable(a, free);
    var drain := DrainAndTake(Run(a, free), t);
    xs := free + drain;
    RunAppend(a, free, drain);
    RunReachable(a, xs);
    TakenMissed(a, Run(a, xs), t, 0);
  }

  lemma FinishAndClearOutstanding(w: World, t: Task, k: nat, now: nat)
    requires Inv(w) && Outstanding(w, t) && k < |w.s.workers| && w.s.workers[k].phase == Working(t)
    ensures FinishAndClear(w, k, now) == Run(w, [FinishTask(k, now), ClearWorker(k)])
    ensures Outstanding(FinishAndClear(w, k, now), t)
  {
    FinishOutstanding(w, k, now, t);
    RunCons(w, FinishTask(k, now), [ClearWorker(k)]);
    RunCons(Next(w, FinishTask(k, now)), ClearWorker(k), []);
    StepOutstanding(Next(w, FinishTask(k, now)), ClearWorker(k), t);
  }

  lemma HeldMissed(a: World, t: Task, k: nat) returns (ys: seq<Step>)
    requires Reachable(a) && Outstanding(a, t) && t.id in a.loc && a.loc[t.id] == AtWorker(k)
    requires !TableScan(a.s, t.id)
    ensures Missed(a, [], ys, t)
  {
    HeldIsScanned(a, t, k);
    if a.s.workers[k].phase.Taken? {
      ys := [];
      TakenMissed(a, a, t, k);
    } else {
      ys := [FinishTask(k, 0), ClearWorker(k)];
      assert WorkerConsistent(a, k);
      ScansMissCompleting(a, t, k, 0);
      FinishAndClearOutstanding(a, t, k, 0);
    }
  }

  // ---------------------------------------------------------------- no workers at all

  predicate Parked(l: Loc) {
    l.InQueue? || l.Revoked?
  }

  /** Without a worker a queued task can only be cancelled. */
  lemma StepParks(w: World, step: Step, id: nat)
    requires Shape(w) && Located(w) && w.s.workers == [] && id in w.loc && Parked(w.loc[id])
    ensures var v := Next(w, step); v.s.workers == [] && id in v.loc && Parked(v.loc[id])
  {
  }

  lemma {:induction false} RunParks(w: World, steps: seq<Step>, id: nat)
    requires Inv(w) && w.s.workers == [] && id in w.loc && Parked(w.loc[id])
    ensures var v := Run(w, steps); v.s.workers == [] && id in v.loc && Parked(v.loc[id])
    decreases steps
  {
    if steps != [] {
      StepKeeps(w, steps[0]);
      StepParks(w, steps[0], id);
      RunParks(Next(w, steps[0]), steps[1..], id);
    }
  }

  /** Every event that was logged stays logged. */
  lemma StepLogs(w: World, step: Step)
    requires Shape(w)
    ensures w.log <= Next(w, step).log
  {
  }

  lemma {:induction false} RunLogs(w: World, steps: seq<Step>)
    requires Inv(w)
    ensures w.log <= Run(w, steps).log
    decreases steps
  {
    if steps != [] {
      StepKeeps(w, steps[0]);
      StepLogs(w, steps[0]);
      RunLogs(Next(w, steps[0]), steps[1..]);
    }
  }

  lemma ParkedFound(a: World, t: Task, xs: seq<Step>, ys: seq<Step>)
    requires Reachable(a) && Outstanding(a, t) && a.s.workers == [] && !TableScan(a.s, t.id)
    requires Outstanding(Run(Run(a, xs), ys), t)
    ensures QueueScan(Run(a, xs).s, t.id)
  {
    LoggedAt(a, t);
    RunParks(a, xs, t.id);
    var b := Run(a, xs);
    RunLogs(a, xs);
    RunLogs(b, ys);
    assert Outstanding(b, t);
    RunReachable(a, xs);
    LoggedAt(b, t);
    InQueueIsScanned(b, t);
  }

  /**
   * The law of the interrupted query: the three scans find an outstanding task under every
   * interleaving exactly when its record is already in the table, or when there is no worker.
   */
  lemma AlwaysFoundIff(a: World, t: Task)
    requires Reachable(a) && Outstanding(a, t)
    ensures AlwaysFound(a, t) <==> TableScan(a.s, t.id) || a.s.workers == []
  {
    if !TableScan(a.s, t.id) && a.s.workers != [] {
      var xs, ys := InterruptedMisses(a, t);
      assert Missed(a, xs, ys, t);
    } else if !TableScan(a.s, t.id) {
      forall xs, ys | Outstanding(Run(Run(a, xs), ys), t)
        ensures ScansFind(a, Run(a, xs), Run(Run(a, xs), ys), t.id)
      {
        ParkedFound(a, t, xs, ys);
      }
    }
  }

  lemma InterruptedMisses(a: World, t: Task) returns (xs: seq<Step>, ys: seq<Step>)
    requires Reachable(a) && Outstanding(a, t) && a.s.workers != [] && !TableScan(a.s, t.id)
    ensures Missed(a, xs, ys, t)
  {
    LoggedAt(a, t);
    xs, ys := [], [];
    match a.loc[t.id]
    case InQueue(_) => xs := WaitingMissed(a, t);
    case AtWorker(k) => ys := HeldMissed(a, t, k);
    case _ =>
  }

  // ---------------------------------------------------------------- an input that is missed

  /** The steps that bring the first task to a worker and publish it. */
  const TO_RUNNING := TO_WORKER + [AnnounceTask(0)]

  /** Worker 0 runs the task and shows it, and nothing is recorded of it yet. */
  ghost predicate Executing(w: World, t: Task) {
    && Outstanding(w, t) && t.id in w.loc && w.loc[t.id] == AtWorker(0)
    && |w.s.workers| > 0 && w.s.workers[0] == Worker(Working(t), Some(t), true) && !TableScan(w.s, t.id)
  }

  lemma AnnouncedRuns(w: World)
    requires Shape(w) && Located(w) && WorkersTracked(w) && FirstWithWorker(w)
    ensures Executing(Next(w, AnnounceTask(0)), FIRST)
  {
    assert WorkerConsistent(w, 0);
    assert w.log[0] == Enqueue(FIRST);
  }

  lemma AfterToRunning(c: Config)
    requires c.Valid() && c.submitters > 0 && c.pool > 0 && c.capacity[0] > 0
    ensures Executing(After(c, TO_RUNNING), FIRST)
  {
    InitReachable(c);
    AfterToWorker(c);
    AnnouncedRuns(After(c, TO_WORKER));
    RunCons(After(c, TO_WORKER), AnnounceTask(0), []);
    RunAppend(Init(c.capacity, c.submitters, c.pool, c.tableSize), TO_WORKER, [AnnounceTask(0)]);
  }

  /** The counterexample: the first task runs when table and queues are scanned and has finished
      when the workers are, so the query misses it although no other task exists. */
  lemma QueryMissesFirst(c: Config, now: nat)
    requires c.Valid() && c.submitters > 0 && c.pool > 0 && c.capacity[0] > 0
    ensures var a, d := After(c, TO_RUNNING), After(c, TO_RUNNING + [FinishTask(0, now), ClearWorker(0)]);
            && Outstanding(a, FIRST) && Outstanding(d, FIRST)
            && WorkerScan(a.s, FIRST.id) && TableScan(d.s, FIRST.id)
            && !ScansFind(a, a, d, FIRST.id)
  {
    InitReachable(c);
    AfterToRunning(c);
    var a := After(c, TO_RUNNING);
    ScansMissCompleting(a, FIRST, 0, now);
    FinishAndClearOutstanding(a, FIRST, 0, now);
    RunAppend(Init(c.capacity, c.submitters, c.pool, c.tableSize), TO_RUNNING, [FinishTask(0, now), ClearWorker(0)]);
  }
}
