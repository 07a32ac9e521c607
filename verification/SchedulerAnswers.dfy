/** What a query answers, told from the steps of the run and not from the result table. */
module SchedulerAnswers {
  import opened Wrappers
  import opened ResultTable
  import opened Scheduler
  import opened SchedulerRuns
  import opened SchedulerQuery
  import opened SchedulerTheorems
  import opened SchedulerScans

  // ---------------------------------------------------------------- deadlines

  predicate Due(t: Task) {
    t.deadline == t.enqueueTime + 60000
  }

  ghost predicate WorkerDue(worker: Worker) {
    && (!worker.phase.Idle? ==> Due(worker.phase.task))
    && (worker.current.Some? ==> Due(worker.current.value))
  }

  /** Every task is due a minute after it was enqueued. */
  ghost predicate AllDue(w: World)
    requires Shape(w)
  {
    && (forall sub :: sub in w.flights && w.flights[sub].Ready? ==> Due(w.flights[sub].task))
    && (forall q, i :: 0 <= q < QUEUES && 0 <= i < |w.s.queues[q]| ==> Due(w.s.queues[q][i]))
    && (forall k :: 0 <= k < |w.s.workers| ==> WorkerDue(w.s.workers[k]))
  }

  lemma InsertDue(w: World, step: Step)
    requires Shape(w) && AllDue(w) && step.InsertTask? && Shape(Next(w, step))
    ensures AllDue(Next(w, step))
  {
    if step.sub in w.flights && w.flights[step.sub].Ready? {
      var t := w.flights[step.sub].task;
      forall p: nat, i: nat | p < QUEUES && i < |Next(w, step).s.queues[p]|
        ensures Due(Next(w, step).s.queues[p][i])
      {
        InsertEntries(w.s.queues, QueueOf(t.priority), t, p, i);
      }
    }
  }

  lemma TakeDue(w: World, step: Step)
    requires Shape(w) && AllDue(w) && step.TakeTask? && Shape(Next(w, step))
    ensures AllDue(Next(w, step))
  {
  }

  lemma CancelDue(w: World, step: Step)
    requires Shape(w) && AllDue(w) && step.CancelTask? && Shape(Next(w, step))
    ensures AllDue(Next(w, step))
  {
  }

  /** One worker changes and its tasks are among those it had. */
  lemma WorkerChangeDue(w: World, v: World, k: nat)
    requires Shape(w) && AllDue(w) && Shape(v) && v.flights == w.flights && v.s.queues == w.s.queues
    requires k < |w.s.workers| == |v.s.workers| && v.s.workers == w.s.workers[k := v.s.workers[k]]
    requires WorkerDue(v.s.workers[k])
    ensures AllDue(v)
  {
  }

  lemma WorkerStepDue(w: World, step: Step)
    requires Shape(w) && AllDue(w) && Shape(Next(w, step))
    requires step.AnnounceTask? || step.FinishTask? || step.ClearWorker? || step.WatchWorker?
    ensures AllDue(Next(w, step))
  {
    if step.w < |w.s.workers| {
      assert WorkerDue(w.s.workers[step.w]);
      WorkerChangeDue(w, Next(w, step), step.w);
    }
  }

  lemma StepDue(w: World, step: Step)
    requires Shape(w) && AllDue(w) && Shape(Next(w, step))
    ensures AllDue(Next(w, step))
  {
    match step
    case CheckRoom(_, _, _, _) =>
    case AllocId(_, _) =>
    case InsertTask(_) => InsertDue(w, step);
    case TakeTask(_) => TakeDue(w, step);
    case CancelTask(_) => CancelDue(w, step);
    case QueryTask(_) =>
    case _ => WorkerStepDue(w, step);
  }

  // ---------------------------------------------------------------- what a step reports

  /** The step lets a worker finish an asynchronous task with this id. */
  ghost predicate Finishes(w: World, step: Step, id: nat) {
    && step.FinishTask? && step.w < |w.s.workers| && w.s.workers[step.w].phase.Working?
    && w.s.workers[step.w].phase.task.id == id && w.s.workers[step.w].phase.task.isAsync
  }

  /** The watchdog looks at a worker that has shown its task for more than a minute. */
  ghost predicate Overdue(w: World, step: Step) {
    && step.WatchWorker? && step.w < |w.s.workers|
    && w.s.workers[step.w].busy && w.s.workers[step.w].current.Some?
    && step.now > w.s.workers[step.w].current.value.enqueueTime + 60000
  }

  ghost predicate GivesUp(w: World, step: Step, id: nat) {
    && Overdue(w, step)
    && w.s.workers[step.w].current.value.id == id && w.s.workers[step.w].current.value.isAsync
  }

  /** The response that a step leaves for the submitter of this id. */
  ghost function Report(w: World, step: Step, id: nat): Option<Resp> {
    if Finishes(w, step, id) then
      var t := w.s.workers[step.w].phase.task;
      var waited := if step.now > t.enqueueTime then step.now - t.enqueueTime else 0;
      Some(Resp(t.resp.taskId, Status.Completed, 128, 100, waited))
    else if GivesUp(w, step, id) then
      var r := w.s.workers[step.w].current.value.resp;
      Some(Resp(r.taskId, Status.Failed, r.tokens, r.inferenceMs, r.totalMs))
    else None
  }

  /** The last report of a run. */
  ghost function LastReport(w: World, steps: seq<Step>, id: nat): Option<Resp>
    requires Inv(w)
    decreases |steps|
  {
    if steps == [] then None
    else
      StepKeeps(w, steps[0]);
      var later := LastReport(Next(w, steps[0]), steps[1..], id);
      if later.Some? then later else Report(w, steps[0], id)
  }

  /** The answer that the table has for an id. */
  function TableAnswer(s: State, id: nat): Option<Resp> {
    match Lookup(s.track, id) case Some(r) => Some(Answer(r)) case None => None
  }

  /** A record that is added is the new answer, and the other answers stay or are evicted. */
  lemma AddAnswers(track: Track, t: Task, r: Record, id: nat)
    requires track.Valid()
    ensures var after := Lookup(Added(track, t.id, r), id);
            && (id == t.id ==> after == Some(r))
            && (id != t.id ==> after.None? || after == Lookup(track, id))
  {
    AddIsMapUpdate(track, t.id, r, id);
  }

  lemma FinishAnswers(w: World, step: Step, id: nat)
    requires Shape(w) && step.FinishTask?
    ensures var after := TableAnswer(Next(w, step).s, id);
            if Report(w, step, id).Some? then after == Report(w, step, id)
            else after.None? || after == TableAnswer(w.s, id)
  {
    if step.w < |w.s.workers| && w.s.workers[step.w].phase.Working? {
      var t := w.s.workers[step.w].phase.task;
      AddAnswers(w.s.track, t, Record(Status.Completed, CompletedResp(t, step.now)), id);
    }
  }

  lemma WatchAnswers(w: World, step: Step, id: nat)
    requires Shape(w) && AllDue(w) && step.WatchWorker?
    ensures var after := TableAnswer(Next(w, step).s, id);
            if Report(w, step, id).Some? then after == Report(w, step, id)
            else after.None? || after == TableAnswer(w.s, id)
  {
    if step.w < |w.s.workers| && w.s.workers[step.w].current.Some? {
      assert WorkerDue(w.s.workers[step.w]);
      var t := w.s.workers[step.w].current.value;
      AddAnswers(w.s.track, t, Record(Status.Failed, t.resp.(status := Status.Failed)), id);
    }
  }

  lemma StepAnswers(w: World, step: Step, id: nat)
    requires Shape(w) && AllDue(w)
    ensures var after := TableAnswer(Next(w, step).s, id);
            if Report(w, step, id).Some? then after == Report(w, step, id)
            else after.None? || after == TableAnswer(w.s, id)
  {
    match step
    case FinishTask(_, _) => FinishAnswers(w, step, id);
    case WatchWorker(_, _) => WatchAnswers(w, step, id);
    case QueryTask(asked) => QueryConsumes(w.s.track, asked, id);
    case _ =>
  }

  /** Whatever the table has is the last report of the run, or was there at its start. */
  lemma {:induction false} RunAnswers(w: World, steps: seq<Step>, id: nat)
    requires Inv(w) && AllDue(w)
    ensures var after, report := TableAnswer(Run(w, steps).s, id), LastReport(w, steps, id);
            after.Some? ==> after == if report.Some? then report else TableAnswer(w.s, id)
    decreases steps
  {
    if steps != [] {
      StepKeeps(w, steps[0]);
      StepDue(w, steps[0]);
      StepAnswers(w, steps[0], id);
      RunAnswers(Next(w, steps[0]), steps[1..], id);
    }
  }

  // ---------------------------------------------------------------- reports are not lost

  lemma ReportIsRecorded(w: World, step: Step, id: nat)
    requires Shape(w) && AllDue(w) && Report(w, step, id).Some?
    ensures Recorded(Next(w, step), id)
  {
    StepAnswers(w, step, id);
  }

  lemma FinishKeepsRecorded(w: World, step: Step, id: nat)
    requires Shape(w) && step.FinishTask? && Recorded(w, id)
    ensures Recorded(Next(w, step), id)
  {
    var v := Next(w, step);
    if step.w < |w.s.workers| && w.s.workers[step.w].phase.Working? {
      var t := w.s.workers[step.w].phase.task;
      if t.isAsync {
        AddRecords(w, v, t.id, Record(Status.Completed, CompletedResp(t, step.now)));
      }
    }
  }

  lemma WatchKeepsRecorded(w: World, step: Step, id: nat)
    requires Shape(w) && step.WatchWorker? && Recorded(w, id)
    ensures Recorded(Next(w, step), id)
  {
    var v := Next(w, step);
    if step.w < |w.s.workers| && TimedOut(w.s.workers[step.w], step.now) {
      var t := w.s.workers[step.w].current.value;
      if t.isAsync {
        AddRecords(w, v, t.id, Record(Status.Failed, t.resp.(status := Status.Failed)));
      }
    }
  }

  lemma StepKeepsRecorded(w: World, step: Step, id: nat)
    requires Shape(w) && Recorded(w, id)
    ensures Recorded(Next(w, step), id)
  {
    match step
    case FinishTask(_, _) => FinishKeepsRecorded(w, step, id);
    case WatchWorker(_, _) => WatchKeepsRecorded(w, step, id);
    case QueryTask(asked) =>
      if Lookup(w.s.track, asked).Some? {
        QueryRecords(w, Next(w, step), asked);
      }
    case _ =>
  }

  lemma {:induction false} RunKeepsRecorded(w: World, steps: seq<Step>, id: nat)
    requires Inv(w) && AllDue(w) && (Recorded(w, id) || LastReport(w, steps, id).Some?)
    ensures Recorded(Run(w, steps), id)
    decreases steps
  {
    if steps != [] {
      StepKeeps(w, steps[0]);
      StepDue(w, steps[0]);
      if Recorded(w, id) {
        StepKeepsRecorded(w, steps[0], id);
      } else if Report(w, steps[0], id).Some? {
        ReportIsRecorded(w, steps[0], id);
      }
      RunKeepsRecorded(Next(w, steps[0]), steps[1..], id);
    }
  }

  // ---------------------------------------------------------------- the answer

  ghost function Initially(c: Config): (w: World)
    requires c.Valid()
    ensures Reachable(w) && AllDue(w) && forall id :: TableAnswer(w.s, id).None?
  {
    InitReachable(c);
    Init(c.capacity, c.submitters, c.pool, c.tableSize)
  }

  /** While nobody consumed or evicted it, the table has exactly what was last reported. */
  lemma TableHasLastReport(c: Config, steps: seq<Step>, id: nat)
    requires c.Valid() && Consume(id) !in After(c, steps).log && Evict(id) !in After(c, steps).log
    ensures TableAnswer(After(c, steps).s, id) == LastReport(Initially(c), steps, id)
  {
    RunAnswers(Initially(c), steps, id);
    if LastReport(Initially(c), steps, id).Some? {
      RunKeepsRecorded(Initially(c), steps, id);
    }
  }

  /** The entry of a queue that has the id of an accepted task is that task. */
  lemma SameQueued(w: World, t: Task, q: nat, i: nat)
    requires Reachable(w) && Outstanding(w, t)
    requires q < QUEUES && i < |w.s.queues[q]| && w.s.queues[q][i].id == t.id
    ensures w.s.queues[q][i] == t
  {
    LoggedAt(w, t);
  }

  /** What a worker shows under the id of an accepted task without a record is that task. */
  lemma SameShown(w: World, t: Task, k: nat)
    requires Reachable(w) && Outstanding(w, t) && Lookup(w.s.track, t.id).None?
    requires k < |w.s.workers| && Shows(w.s.workers[k], t.id)
    ensures w.s.workers[k].current == Some(t) && w.loc[t.id] == AtWorker(k)
  {
    LoggedAt(w, t);
    assert WorkerConsistent(w, k) && HeldConsistent(w, k);
  }

  /** The response of a task with a status and its id. */
  function Told(t: Task, status: Status): Resp {
    Resp(t.id, status, t.resp.tokens, t.resp.inferenceMs, t.resp.totalMs)
  }

  lemma AnswerFromTable(s: State, id: nat)
    requires s.Valid()
    ensures TableAnswer(s, id).Some? ==> Asked(s, id).1 == TableAnswer(s, id)
    ensures TableAnswer(s, id).None? && Holder(s, id, 0) == QUEUES && Runner(s, id, 0) == |s.workers| ==>
              Asked(s, id).1.None?
  {
    QueryConsumes(s.track, id, id);
  }

  lemma AnswerFromQueue(w: World, t: Task, q: nat)
    requires Reachable(w) && Outstanding(w, t) && TableAnswer(w.s, t.id).None?
    requires q < QUEUES && t in w.s.queues[q]
    ensures Asked(w.s, t.id).1 == Some(Told(t, Status.Pending))
  {
    LoggedAt(w, t);
    QueryConsumes(w.s.track, t.id, t.id);
    var x :| 0 <= x < |w.s.queues[q]| && w.s.queues[q][x] == t;
    InQueueIsScanned(w, t);
    var h := Holder(w.s, t.id, 0);
    SameQueued(w, t, h, Position(w.s.queues[h], t.id));
  }

  lemma AnswerFromWorker(w: World, t: Task, k: nat)
    requires Reachable(w) && Outstanding(w, t) && TableAnswer(w.s, t.id).None?
    requires k < |w.s.workers| && Shows(w.s.workers[k], t.id)
    ensures Asked(w.s, t.id).1 == Some(Told(t, Status.Running))
  {
    LoggedAt(w, t);
    QueryConsumes(w.s.track, t.id, t.id);
    SameShown(w, t, k);
    NotInQueues(w, t.id);
    SameShown(w, t, Runner(w.s, t.id, 0));
  }

  /** No queue has the task and no worker shows it. */
  lemma AnswerFromNowhere(w: World, t: Task)
    requires Reachable(w) && Outstanding(w, t) && TableAnswer(w.s, t.id).None?
    requires forall q :: 0 <= q < QUEUES ==> t !in w.s.queues[q]
    requires forall k :: 0 <= k < |w.s.workers| ==> !Shows(w.s.workers[k], t.id)
    ensures Asked(w.s, t.id).1.None?
  {
    AnswerFromTable(w.s, t.id);
    var h := Holder(w.s, t.id, 0);
    if h < QUEUES {
      SameQueued(w, t, h, Position(w.s.queues[h], t.id));
    }
  }

  /**
   * What a query answers about an accepted task that was not cancelled, consumed or evicted: the last
   * report, if a step of the run made one; else Pending while the task waits in a queue, Running while
   * a worker shows it, and nothing otherwise.
   */
  lemma QueryAnswers(c: Config, steps: seq<Step>, t: Task)
    requires c.Valid() && Outstanding(After(c, steps), t)
    ensures var w, report := After(c, steps), LastReport(Initially(c), steps, t.id);
            Asked(w.s, t.id).1 ==
              if report.Some? then report
              else if exists q :: 0 <= q < 5 && t in w.s.queues[q] then
                Some(Resp(t.id, Status.Pending, t.resp.tokens, t.resp.inferenceMs, t.resp.totalMs))
              else if exists k :: 0 <= k < |w.s.workers| && w.s.workers[k].busy
                                  && w.s.workers[k].current == Some(t) then
                Some(Resp(t.id, Status.Running, t.resp.tokens, t.resp.inferenceMs, t.resp.totalMs))
              else None
  {
    var w := After(c, steps);
    TableHasLastReport(c, steps, t.id);
    AnswerFromTable(w.s, t.id);
    if TableAnswer(w.s, t.id).None? {
      AnswerWithoutReport(w, t);
    }
  }

  lemma AnswerWithoutReport(w: World, t: Task)
    requires Reachable(w) && Outstanding(w, t) && TableAnswer(w.s, t.id).None?
    ensures Asked(w.s, t.id).1 ==
              if exists q :: 0 <= q < 5 && t in w.s.queues[q] then Some(Told(t, Status.Pending))
              else if exists k :: 0 <= k < |w.s.workers| && w.s.workers[k].busy
                                  && w.s.workers[k].current == Some(t) then
                Some(Told(t, Status.Running))
              else None
  {
    if q :| 0 <= q < 5 && t in w.s.queues[q] {
      AnswerFromQueue(w, t, q);
    } else if k :| 0 <= k < |w.s.workers| && w.s.workers[k].busy && w.s.workers[k].current == Some(t) {
      AnswerFromWorker(w, t, k);
    } else {
      forall k | 0 <= k < |w.s.workers| ensures !Shows(w.s.workers[k], t.id) {
        if Shows(w.s.workers[k], t.id) {
          SameShown(w, t, k);
        }
      }
      AnswerFromNowhere(w, t);
    }
  }

  // ---------------------------------------------------------------- the watchdog

  /** The watchdog clears the slot of a worker exactly when it has shown its task for over a minute. */
  lemma WatchdogLaw(w: World, k: nat, now: nat)
    requires Shape(w) && AllDue(w) && k < |w.s.workers|
    ensures var v := Next(w, WatchWorker(k, now));
            if Overdue(w, WatchWorker(k, now)) then
              && v.s.workers == w.s.workers[k := Worker(w.s.workers[k].phase, None, false)]
              && v.s.timeouts == w.s.timeouts + 1
            else v == w
  {
    assert WorkerDue(w.s.workers[k]);
  }

  /** The timeouts of a run. */
  ghost function Timeouts(w: World, steps: seq<Step>): nat
    requires Inv(w)
    decreases |steps|
  {
    if steps == [] then 0
    else
      StepKeeps(w, steps[0]);
      (if Overdue(w, steps[0]) then 1 else 0) + Timeouts(Next(w, steps[0]), steps[1..])
  }

  lemma StepTimeouts(w: World, step: Step)
    requires Shape(w) && AllDue(w)
    ensures Next(w, step).s.timeouts == w.s.timeouts + if Overdue(w, step) then 1 else 0
  {
    if step.WatchWorker? && step.w < |w.s.workers| {
      WatchdogLaw(w, step.w, step.now);
    }
  }

  lemma {:induction false} TimeoutsFrom(w: World, steps: seq<Step>)
    requires Inv(w) && AllDue(w)
    ensures Run(w, steps).s.timeouts == w.s.timeouts + Timeouts(w, steps)
    decreases steps
  {
    if steps != [] {
      StepKeeps(w, steps[0]);
      StepDue(w, steps[0]);
      StepTimeouts(w, steps[0]);
      TimeoutsFrom(Next(w, steps[0]), steps[1..]);
    }
  }

  /** The timeout counter is the number of such checks in the run. */
  lemma TimeoutsMean(c: Config, steps: seq<Step>)
    requires c.Valid()
    ensures After(c, steps).s.timeouts == Timeouts(Initially(c), steps)
  {
    TimeoutsFrom(Initially(c), steps);
  }
}
