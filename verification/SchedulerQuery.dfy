/** What `ai_sched_query` finds, over every run, watchdog steps included. */
module SchedulerQuery {
  import opened Wrappers
  import opened ResultTable
  import opened Scheduler
  import opened SchedulerRuns

  /** The result of `id` is in the table, or was handed out, or was evicted. */
  ghost predicate Recorded(w: World, id: nat) {
    Lookup(w.s.track, id).Some? || Consume(id) in w.log || Evict(id) in w.log
  }

  predicate Shown(worker: Worker, t: Task) {
    worker.current == Some(t) && worker.busy
  }

  predicate Hidden(worker: Worker) {
    worker.current.None? && !worker.busy
  }

  /** The shared fields of a worker against the thread's own position: a working thread whose
      fields are clear was cleared by the watchdog, which recorded the failure first. */
  ghost predicate WorkerConsistent(w: World, v: nat)
    requires v < |w.s.workers|
  {
    var worker := w.s.workers[v];
    match worker.phase
    case Idle => Hidden(worker)
    case Taken(t) => Hidden(worker) && Lookup(w.s.track, t.id).None?
    case Working(t) => Shown(worker, t) || (Hidden(worker) && (t.isAsync ==> Recorded(w, t.id)))
    case Finished(t) => Shown(worker, t) || Hidden(worker)
  }

  /** A held task is the one its insertion logged, and `loc` names exactly its holder. */
  ghost predicate HeldConsistent(w: World, v: nat)
    requires v < |w.s.workers|
  {
    var p := w.s.workers[v].phase;
    && (Holding(p) ==>
          && p.task.id in w.stamp && w.stamp[p.task.id] < |w.log|
          && w.log[w.stamp[p.task.id]] == Enqueue(p.task))
    && (p.Finished? ==> p.task.id in w.loc && w.loc[p.task.id].Gone?)
  }

  ghost predicate WorkersTracked(w: World) {
    forall v :: 0 <= v < |w.s.workers| ==> WorkerConsistent(w, v) && HeldConsistent(w, v)
  }

  ghost predicate HoldersTracked(w: World) {
    forall id :: id in w.loc && w.loc[id].AtWorker? ==>
      && w.loc[id].w < |w.s.workers|
      && Holding(w.s.workers[w.loc[id].w].phase)
      && w.s.workers[w.loc[id].w].phase.task.id == id
  }

  ghost predicate GoneTracked(w: World) {
    forall i :: 0 <= i < |w.log| && w.log[i].Enqueue? ==> GoneRecorded(w, w.log[i].task)
  }

  ghost predicate TableTracked(w: World) {
    forall id :: Lookup(w.s.track, id).Some? ==> id in w.loc && PastTaken(w, id)
  }

  ghost predicate Tracked(w: World) {
    WorkersTracked(w) && HoldersTracked(w) && GoneTracked(w) && TableTracked(w)
  }

  ghost predicate GoneRecorded(w: World, t: Task) {
    t.isAsync && t.id in w.loc && w.loc[t.id].Gone? ==> Recorded(w, t.id)
  }

  ghost predicate PastTaken(w: World, id: nat)
    requires id in w.loc
  {
    || w.loc[id].Gone?
    || (w.loc[id].AtWorker? && w.loc[id].w < |w.s.workers| && w.s.workers[w.loc[id].w].phase.Working?)
  }

  // ---------------------------------------------------------------- steps on the table

  lemma AddRecords(w: World, v: World, id: nat, r: Record)
    requires w.s.track.Valid()
    requires v.s.track == Added(w.s.track, id, r) && v.log == w.log + Evictions(w.s.track, id, true)
    ensures Recorded(v, id)
    ensures forall o :: Recorded(w, o) ==> Recorded(v, o)
    ensures forall o :: Lookup(v.s.track, o).Some? ==> o == id || Lookup(w.s.track, o).Some?
  {
    forall o
      ensures Recorded(w, o) ==> Recorded(v, o)
      ensures Lookup(v.s.track, o).Some? ==> o == id || Lookup(w.s.track, o).Some?
      ensures o == id ==> Recorded(v, o)
    {
      AddIsMapUpdate(w.s.track, id, r, o);
      if Victim(w.s.track, id) == Some(o) {
        assert v.log[|w.log|] == Evict(o);
      }
    }
  }

  lemma QueryRecords(w: World, v: World, id: nat)
    requires w.s.track.Valid()
    requires v.s.track == Queried(w.s.track, id).0 && v.log == w.log + [Consume(id)]
    ensures forall o :: Recorded(w, o) ==> Recorded(v, o)
    ensures forall o :: Lookup(v.s.track, o).Some? ==> Lookup(w.s.track, o).Some?
  {
    forall o
      ensures Recorded(w, o) ==> Recorded(v, o)
      ensures Lookup(v.s.track, o).Some? ==> Lookup(w.s.track, o).Some?
    {
      QueryConsumes(w.s.track, id, o);
      assert v.log[|w.log|] == Consume(id);
    }
  }

  lemma InitTracked(capacity: seq<nat>, submitters: nat, pool: nat, tableSize: nat)
    requires |capacity| == QUEUES && tableSize > 0
    ensures Tracked(Init(capacity, submitters, pool, tableSize))
  {
  }

  lemma StepShape(w: World, step: Step)
    requires Inv(w)
    ensures Shape(Next(w, step))
  {
    StepKeeps(w, step);
  }

  predicate WithWorker(l: Loc) {
    l.AtWorker? || l.Gone?
  }

  /** From w to v nothing changes for tasks that reached a worker. */
  ghost predicate Neutral(w: World, v: World) {
    && w.log <= v.log
    && (forall id :: id in w.loc && WithWorker(w.loc[id]) ==> id in v.loc && v.loc[id] == w.loc[id])
    && (forall id :: id in v.loc && WithWorker(v.loc[id]) ==> id in w.loc && v.loc[id] == w.loc[id])
    && (forall id :: id in w.loc && id in w.stamp && w.loc[id].AtWorker? ==>
          id in v.stamp && v.stamp[id] == w.stamp[id])
    && (forall i :: |w.log| <= i < |v.log| && v.log[i].Enqueue? ==>
          v.log[i].task.id in v.loc && !WithWorker(v.loc[v.log[i].task.id]))
  }

  /** One id moves between places other than a worker. */
  lemma OneMoveNeutral(w: World, v: World, id: nat, place: Loc, es: seq<Event>)
    requires id !in w.loc || !WithWorker(w.loc[id])
    requires !WithWorker(place)
    requires v.loc == w.loc[id := place] && v.log == w.log + es
    requires forall o :: o != id && o in w.stamp ==> o in v.stamp && v.stamp[o] == w.stamp[o]
    requires forall i :: 0 <= i < |es| && es[i].Enqueue? ==> es[i].task.id == id
    ensures Neutral(w, v)
  {
  }

  lemma AllocNeutral(w: World, step: Step)
    requires Inv(w) && step.AllocId?
    ensures Neutral(w, Next(w, step))
  {
    if step.sub in w.flights && w.flights[step.sub].Checked? {
      OneMoveNeutral(w, Next(w, step), w.s.nextTaskId + 1, AtSubmitter(step.sub), []);
    }
  }

  lemma InsertNeutral(w: World, step: Step)
    requires Inv(w) && step.InsertTask?
    ensures Neutral(w, Next(w, step))
  {
    if step.sub in w.flights && w.flights[step.sub].Ready? {
      var t := w.flights[step.sub].task;
      OneMoveNeutral(w, Next(w, step), t.id, InQueue(QueueOf(t.priority)), [Enqueue(t)]);
    }
  }

  lemma CancelNeutral(w: World, step: Step)
    requires Inv(w) && step.CancelTask?
    ensures Neutral(w, Next(w, step))
  {
    var q := Holder(w.s, step.id, 0);
    if q < QUEUES {
      assert w.s.queues[q][Position(w.s.queues[q], step.id)].id == step.id;
      OneMoveNeutral(w, Next(w, step), step.id, Revoked, [Revoke(step.id)]);
    }
  }

  lemma QueueSideNeutral(w: World, step: Step)
    requires Inv(w)
    requires step.CheckRoom? || step.AllocId? || step.InsertTask? || step.CancelTask?
    ensures Neutral(w, Next(w, step))
  {
    match step
    case CheckRoom(_, _, _, _) =>
    case AllocId(_, _) => AllocNeutral(w, step);
    case InsertTask(_) => InsertNeutral(w, step);
    case CancelTask(_) => CancelNeutral(w, step);
  }

  /** Steps that leave the workers and the table alone. */
  lemma QueueSideTracked(w: World, step: Step)
    requires Inv(w) && Tracked(w)
    requires step.CheckRoom? || step.AllocId? || step.InsertTask? || step.CancelTask?
    ensures Shape(Next(w, step)) && Tracked(Next(w, step))
  {
    StepShape(w, step);
    QueueSideNeutral(w, step);
    NeutralTracked(w, Next(w, step));
  }

  lemma NeutralWorkers(w: World, v: World)
    requires Inv(w) && WorkersTracked(w) && Neutral(w, v)
    requires v.s.workers == w.s.workers && v.s.track == w.s.track
    ensures WorkersTracked(v)
  {
    forall k | 0 <= k < |v.s.workers|
      ensures WorkerConsistent(v, k) && HeldConsistent(v, k)
    {
      assert WorkerConsistent(w, k) && HeldConsistent(w, k);
    }
  }

  lemma NeutralGone(w: World, v: World)
    requires GoneTracked(w) && Neutral(w, v) && v.s.track == w.s.track
    ensures GoneTracked(v)
  {
    forall i | 0 <= i < |v.log| && v.log[i].Enqueue?
      ensures GoneRecorded(v, v.log[i].task)
    {
      if i < |w.log| {
        assert GoneRecorded(w, w.log[i].task);
      }
    }
  }

  lemma NeutralTracked(w: World, v: World)
    requires Inv(w) && Tracked(w) && Neutral(w, v)
    requires v.s.workers == w.s.workers && v.s.track == w.s.track
    ensures Tracked(v)
  {
    NeutralWorkers(w, v);
    NeutralGone(w, v);
  }

  /** A dequeue moves one task to one idle worker. */
  lemma TakeTracked(w: World, step: Step)
    requires Inv(w) && Tracked(w) && step.TakeTask?
    ensures Shape(Next(w, step)) && Tracked(Next(w, step))
  {
    StepShape(w, step);
    var v := Next(w, step);
    if v != w {
      var q := TopBelow(w.s, QUEUES);
      var t := w.s.queues[q][0];
      assert w.loc[t.id] == InQueue(q) && w.log[w.stamp[t.id]] == Enqueue(t);
      TakenTracked(w, v, step.w, t);
    }
  }

  lemma TakenTracked(w: World, v: World, k: nat, t: Task)
    requires Tracked(w) && k < |w.s.workers| && w.s.workers[k].phase.Idle?
    requires t.id in w.loc && w.loc[t.id].InQueue?
    requires t.id in w.stamp && w.stamp[t.id] < |w.log| && w.log[w.stamp[t.id]] == Enqueue(t)
    requires v.s.workers == w.s.workers[k := w.s.workers[k].(phase := Taken(t))]
    requires v.loc == w.loc[t.id := AtWorker(k)] && v.stamp == w.stamp && v.log == w.log + [Start(t)]
    requires v.s.track == w.s.track
    ensures Tracked(v)
  {
    forall j | 0 <= j < |v.s.workers|
      ensures WorkerConsistent(v, j) && HeldConsistent(v, j)
    {
      assert WorkerConsistent(w, j) && HeldConsistent(w, j);
    }
    forall i | 0 <= i < |v.log| && v.log[i].Enqueue?
      ensures GoneRecorded(v, v.log[i].task)
    {
      assert GoneRecorded(w, w.log[i].task);
    }
  }

  /** The worker's own fields change, and nothing else that is tracked. */
  ghost predicate WorkerSide(w: World, v: World, k: nat) {
    && k < |w.s.workers| == |v.s.workers| && v.s.workers == w.s.workers[k := v.s.workers[k]]
    && v.loc == w.loc && v.stamp == w.stamp && v.log == w.log && v.s.track == w.s.track
  }

  lemma OthersTracked(w: World, v: World, k: nat)
    requires WorkersTracked(w) && WorkerSide(w, v, k) && WorkerConsistent(v, k) && HeldConsistent(v, k)
    ensures WorkersTracked(v)
  {
    forall j | 0 <= j < |v.s.workers|
      ensures WorkerConsistent(v, j) && HeldConsistent(v, j)
    {
      assert WorkerConsistent(w, j) && HeldConsistent(w, j);
    }
  }

  lemma SameGone(w: World, v: World)
    requires GoneTracked(w) && v.loc == w.loc && v.log == w.log && v.s.track == w.s.track
    ensures GoneTracked(v)
  {
    forall i | 0 <= i < |v.log| && v.log[i].Enqueue?
      ensures GoneRecorded(v, v.log[i].task)
    {
      assert GoneRecorded(w, w.log[i].task);
    }
  }

  lemma AnnounceTracked(w: World, step: Step)
    requires Inv(w) && Tracked(w) && step.AnnounceTask?
    ensures Shape(Next(w, step)) && Tracked(Next(w, step))
  {
    StepShape(w, step);
    if step.w < |w.s.workers| && w.s.workers[step.w].phase.Taken? {
      assert WorkerConsistent(w, step.w) && HeldConsistent(w, step.w);
      OthersTracked(w, Next(w, step), step.w);
      SameGone(w, Next(w, step));
    }
  }

  lemma ClearTracked(w: World, step: Step)
    requires Inv(w) && Tracked(w) && step.ClearWorker?
    ensures Shape(Next(w, step)) && Tracked(Next(w, step))
  {
    StepShape(w, step);
    if step.w < |w.s.workers| && w.s.workers[step.w].phase.Finished? {
      assert WorkerConsistent(w, step.w) && HeldConsistent(w, step.w);
      OthersTracked(w, Next(w, step), step.w);
      SameGone(w, Next(w, step));
    }
  }

  lemma QueryTracked(w: World, step: Step)
    requires Inv(w) && Tracked(w) && step.QueryTask?
    ensures Shape(Next(w, step)) && Tracked(Next(w, step))
  {
    StepShape(w, step);
    var v := Next(w, step);
    if Lookup(w.s.track, step.id).Some? {
      QueryRecords(w, v, step.id);
      forall k | 0 <= k < |v.s.workers|
        ensures WorkerConsistent(v, k) && HeldConsistent(v, k)
      {
        assert WorkerConsistent(w, k) && HeldConsistent(w, k);
      }
      forall i | 0 <= i < |v.log| && v.log[i].Enqueue?
        ensures GoneRecorded(v, v.log[i].task)
      {
        assert GoneRecorded(w, w.log[i].task);
      }
    }
  }

  lemma WatchTracked(w: World, step: Step)
    requires Inv(w) && Tracked(w) && step.WatchWorker?
    ensures Shape(Next(w, step)) && Tracked(Next(w, step))
  {
    StepShape(w, step);
    var v := Next(w, step);
    if step.w < |w.s.workers| && TimedOut(w.s.workers[step.w], step.now) {
      assert WorkerConsistent(w, step.w) && HeldConsistent(w, step.w);
      var t := w.s.workers[step.w].current.value;
      if t.isAsync {
        AddRecords(w, v, t.id, Record(Status.Failed, t.resp.(status := Status.Failed)));
      }
      TableStepTracked(w, v, step.w, t);
    }
  }

  lemma FinishTracked(w: World, step: Step)
    requires Inv(w) && Tracked(w) && step.FinishTask?
    ensures Shape(Next(w, step)) && Tracked(Next(w, step))
  {
    StepShape(w, step);
    var v := Next(w, step);
    if step.w < |w.s.workers| && w.s.workers[step.w].phase.Working? {
      assert WorkerConsistent(w, step.w) && HeldConsistent(w, step.w);
      var t := w.s.workers[step.w].phase.task;
      if t.isAsync {
        AddRecords(w, v, t.id, Record(Status.Completed, CompletedResp(t, step.now)));
      }
      TableStepTracked(w, v, step.w, t);
    }
  }

  /** Completion or watchdog: worker k's task t may be recorded now. */
  ghost predicate TableStep(w: World, v: World, k: nat, t: Task) {
    && k < |w.s.workers| == |v.s.workers| && v.s.workers == w.s.workers[k := v.s.workers[k]]
    && (w.s.workers[k].phase == Working(t) || (w.s.workers[k].phase == Finished(t) && v.loc == w.loc))
    && (v.s.workers[k].phase == w.s.workers[k].phase || v.s.workers[k].phase == Finished(t))
    && (Shown(v.s.workers[k], t) || Hidden(v.s.workers[k]))
    && (Hidden(v.s.workers[k]) && v.s.workers[k].phase.Working? && t.isAsync ==> Recorded(v, t.id))
    && v.stamp == w.stamp && w.log <= v.log
    && (forall i :: |w.log| <= i < |v.log| ==> v.log[i].Evict?)
    && v.loc == (if v.s.workers[k].phase == w.s.workers[k].phase then w.loc else w.loc[t.id := Gone])
    && (v.loc != w.loc && t.isAsync ==> Recorded(v, t.id))
    && (forall o :: Recorded(w, o) ==> Recorded(v, o))
    && (forall o :: Lookup(v.s.track, o).Some? ==> o == t.id || Lookup(w.s.track, o).Some?)
  }

  lemma TableStepWorkers(w: World, v: World, k: nat, t: Task)
    requires Shape(w) && Located(w) && WorkersTracked(w) && TableStep(w, v, k, t)
    ensures WorkersTracked(v)
  {
    assert WorkerConsistent(w, k) && HeldConsistent(w, k);
    forall j | 0 <= j < |v.s.workers|
      ensures WorkerConsistent(v, j) && HeldConsistent(v, j)
    {
      assert WorkerConsistent(w, j) && HeldConsistent(w, j);
    }
  }

  lemma TableStepTable(w: World, v: World, k: nat, t: Task)
    requires Shape(w) && Located(w) && TableStep(w, v, k, t)
    requires WorkersTracked(w) && HoldersTracked(w) && TableTracked(w)
    ensures TableTracked(v)
  {
    assert HeldConsistent(w, k);
    forall id | Lookup(v.s.track, id).Some?
      ensures id in v.loc && PastTaken(v, id)
    {
      assert id == t.id || (Lookup(w.s.track, id).Some? && PastTaken(w, id));
    }
  }

  lemma TableStepGone(w: World, v: World, k: nat, t: Task)
    requires Shape(w) && Logged(w) && WorkersTracked(w) && GoneTracked(w) && TableStep(w, v, k, t)
    ensures GoneTracked(v)
  {
    assert HeldConsistent(w, k);
    forall i | 0 <= i < |v.log| && v.log[i].Enqueue?
      ensures GoneRecorded(v, v.log[i].task)
    {
      assert GoneRecorded(w, w.log[i].task) && EnqueueLogged(w, i);
    }
  }

  lemma TableStepHolders(w: World, v: World, k: nat, t: Task)
    requires Shape(w) && Located(w) && HoldersTracked(w) && TableStep(w, v, k, t)
    ensures HoldersTracked(v)
  {
  }

  lemma TableStepTracked(w: World, v: World, k: nat, t: Task)
    requires Inv(w) && Tracked(w) && TableStep(w, v, k, t)
    ensures Tracked(v)
  {
    TableStepWorkers(w, v, k, t);
    TableStepTable(w, v, k, t);
    TableStepGone(w, v, k, t);
    TableStepHolders(w, v, k, t);
  }
}
