/** The three scans of `ai_sched_query` at three different moments. */
module SchedulerScans {
  import opened Wrappers
  import opened ResultTable
  import opened Scheduler
  import opened SchedulerRuns
  import opened SchedulerQuery
  import opened SchedulerTheorems

  predicate TableScan(s: State, id: nat) {
    Lookup(s.track, id).Some?
  }

  predicate QueueScan(s: State, id: nat)
    requires s.Valid()
  {
    Holder(s, id, 0) < QUEUES
  }

  predicate WorkerScan(s: State, id: nat) {
    Runner(s, id, 0) < |s.workers|
  }

  /** The table is scanned in a, the queues in b and the workers in d. */
  ghost predicate ScansFind(a: World, b: World, d: World, id: nat)
    requires Shape(b)
  {
    TableScan(a.s, id) || QueueScan(b.s, id) || WorkerScan(d.s, id)
  }

  /** At one moment the scans are the atomic query. */
  lemma ScansTogether(w: World, id: nat)
    requires Reachable(w)
    ensures ScansFind(w, w, w, id) <==> Asked(w.s, id).1.Some?
  {
  }

  /** In w the task has been accepted and neither cancelled nor consumed nor evicted. */
  ghost predicate Outstanding(w: World, t: Task) {
    && t.isAsync && Enqueue(t) in w.log
    && Revoke(t.id) !in w.log && Consume(t.id) !in w.log && Evict(t.id) !in w.log
  }

  /** Between w and v the task stayed where it was; a worker that has it did not go on either. */
  ghost predicate Rests(w: World, v: World, id: nat) {
    && id in w.loc && id in v.loc && w.loc[id] == v.loc[id]
    && (w.loc[id].AtWorker? && w.loc[id].w < |w.s.workers| ==>
          w.loc[id].w < |v.s.workers| && w.s.workers[w.loc[id].w] == v.s.workers[w.loc[id].w])
  }

  lemma LoggedAt(w: World, t: Task)
    requires Reachable(w) && Outstanding(w, t)
    ensures t.id in w.loc && t.id in w.stamp && w.stamp[t.id] < |w.log| && w.log[w.stamp[t.id]] == Enqueue(t)
    ensures !w.loc[t.id].AtSubmitter? && !w.loc[t.id].Revoked?
    ensures w.loc[t.id].InQueue? ==> t in w.s.queues[QueueOf(t.priority)]
    ensures w.loc[t.id].Gone? ==> TableScan(w.s, t.id)
  {
    var i :| 0 <= i < |w.log| && w.log[i] == Enqueue(t);
    assert EnqueueLogged(w, i) && GoneRecorded(w, t);
    if !w.loc[t.id].InQueue? {
      var m :| i < m < |w.log| && Leaves(w.log[m], t.id);
      assert w.log[m].Start?;
    }
  }

  lemma InQueueIsScanned(w: World, t: Task)
    requires Reachable(w) && Outstanding(w, t) && t.id in w.loc && w.loc[t.id].InQueue?
    ensures QueueScan(w.s, t.id)
  {
    LoggedAt(w, t);
    var q := QueueOf(t.priority);
    var x :| 0 <= x < |w.s.queues[q]| && w.s.queues[q][x] == t;
    assert Position(w.s.queues[q], t.id) <= x;
    assert Holder(w.s, t.id, 0) <= q;
  }

  /** A worker that has the task and announced it either shows it or left a record. */
  lemma HeldIsScanned(w: World, t: Task, k: nat)
    requires Reachable(w) && Outstanding(w, t) && t.id in w.loc && w.loc[t.id] == AtWorker(k)
    ensures k < |w.s.workers| && Holding(w.s.workers[k].phase) && w.s.workers[k].phase.task == t
    ensures w.s.workers[k].phase.Working? ==> Shows(w.s.workers[k], t.id) || TableScan(w.s, t.id)
    ensures w.s.workers[k].phase.Taken? ==> !TableScan(w.s, t.id)
  {
    LoggedAt(w, t);
    assert HeldConsistent(w, k) && WorkerConsistent(w, k);
  }

  lemma OnlyHolderShows(w: World, t: Task, k: nat)
    requires Reachable(w) && Outstanding(w, t) && t.id in w.loc && w.loc[t.id] == AtWorker(k)
    requires k < |w.s.workers| && w.s.workers[k].phase.Taken?
    ensures !WorkerScan(w.s, t.id)
  {
    HeldIsScanned(w, t, k);
    forall u | 0 <= u < |w.s.workers|
      ensures !Shows(w.s.workers[u], t.id)
    {
      assert WorkerConsistent(w, u) && HeldConsistent(w, u);
    }
  }

  /**
   * A query whose scans happen at three moments finds an outstanding task that rests meanwhile exactly
   * when no worker is between dequeuing and announcing it.
   */
  lemma ScansFindResting(a: World, b: World, d: World, t: Task)
    requires Reachable(a) && Reachable(b) && Reachable(d)
    requires Outstanding(a, t) && Outstanding(b, t) && Outstanding(d, t)
    requires Rests(a, b, t.id) && Rests(b, d, t.id)
    ensures ScansFind(a, b, d, t.id) <==>
            !(exists v :: 0 <= v < |a.s.workers| && a.s.workers[v].phase == Taken(t))
  {
    LoggedAt(a, t);
    match a.loc[t.id]
    case InQueue(_) => NotTaken(a, t); InQueueIsScanned(b, t);
    case Gone => NotTaken(a, t);
    case AtWorker(k) => RestingWorker(a, b, d, t, k);
  }

  lemma RestingWorker(a: World, b: World, d: World, t: Task, k: nat)
    requires Reachable(a) && Reachable(b) && Reachable(d)
    requires Outstanding(a, t) && Outstanding(b, t) && Outstanding(d, t)
    requires Rests(a, b, t.id) && Rests(b, d, t.id) && a.loc[t.id] == AtWorker(k)
    ensures ScansFind(a, b, d, t.id) <==>
            !(exists v :: 0 <= v < |a.s.workers| && a.s.workers[v].phase == Taken(t))
  {
    HeldIsScanned(a, t, k);
    NotInQueues(b, t.id);
    if a.s.workers[k].phase.Taken? {
      HeldIsScanned(b, t, k);
      OnlyHolderShows(d, t, k);
    } else {
      NobodyTook(a, t, k);
      if Shows(a.s.workers[k], t.id) {
        ShownIsScanned(d.s, t.id, k);
      }
    }
  }

  lemma ShownIsScanned(s: State, id: nat, k: nat)
    requires k < |s.workers| && Shows(s.workers[k], id)
    ensures WorkerScan(s, id)
  {
  }

  lemma NobodyTook(w: World, t: Task, k: nat)
    requires Reachable(w) && t.id in w.loc && w.loc[t.id] == AtWorker(k)
    requires k < |w.s.workers| && w.s.workers[k].phase.Working?
    ensures forall v :: 0 <= v < |w.s.workers| ==> w.s.workers[v].phase != Taken(t)
  {
  }

  /** The worker k finishes its task and clears its slot. */
  function FinishAndClear(w: World, k: nat, now: nat): (v: World)
    requires Inv(w)
    ensures Inv(v)
  {
    StepKeeps(w, FinishTask(k, now));
    var u := Next(w, FinishTask(k, now));
    StepKeeps(u, ClearWorker(k));
    Next(u, ClearWorker(k))
  }

  lemma FinishedFields(w: World, k: nat, now: nat)
    requires Inv(w) && k < |w.s.workers| && w.s.workers[k].phase.Working?
    ensures var v, t := FinishAndClear(w, k, now), w.s.workers[k].phase.task;
            && v.s.workers == w.s.workers[k := Worker(Idle, None, false)]
            && (t.isAsync ==> TableScan(v.s, t.id))
  {
    var t := w.s.workers[k].phase.task;
    AddIsMapUpdate(w.s.track, t.id, Record(Status.Completed, CompletedResp(t, now)), t.id);
  }

  lemma OthersDoNotShow(w: World, t: Task, k: nat, u: nat)
    requires Reachable(w) && Outstanding(w, t) && t.id in w.loc && w.loc[t.id] == AtWorker(k)
    requires u < |w.s.workers| && u != k
    ensures !Shows(w.s.workers[u], t.id)
  {
    assert WorkerConsistent(w, u) && HeldConsistent(w, u);
  }

  /**
   * The counterexample for a task that moves: it completes after the table has been scanned and
   * before the workers are, so all three scans miss it although it was visible all the time.
   */
  lemma ScansMissCompleting(w: World, t: Task, k: nat, now: nat)
    requires Reachable(w) && Outstanding(w, t) && t.id in w.loc && w.loc[t.id] == AtWorker(k)
    requires k < |w.s.workers| && w.s.workers[k] == Worker(Working(t), Some(t), true) && !TableScan(w.s, t.id)
    ensures var v := FinishAndClear(w, k, now);
            WorkerScan(w.s, t.id) && TableScan(v.s, t.id) && !ScansFind(w, w, v, t.id)
  {
    var v := FinishAndClear(w, k, now);
    FinishedFields(w, k, now);
    ShownIsScanned(w.s, t.id, k);
    NotInQueues(w, t.id);
    forall u | 0 <= u < |v.s.workers|
      ensures !Shows(v.s.workers[u], t.id)
    {
      if u != k {
        OthersDoNotShow(w, t, k, u);
      }
    }
  }
}
