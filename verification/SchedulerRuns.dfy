/** Every interleaving of submitters, workers, watchdog, cancel and query over the scheduler.
    The fullness check, the id allocation and the locked insert of one submission are three
    separate steps. `loc`, `stamp`, `log`, `accepted` and `revoked` only record the history. */
module SchedulerRuns {
  import opened ResultTable
  import opened Scheduler

  datatype Flight = Checked(priority: int, isAsync: bool, resp: Resp) | Ready(task: Task)

  datatype Loc = AtSubmitter(sub: nat) | InQueue(q: nat) | AtWorker(w: nat) | Gone | Revoked

  datatype Event = Enqueue(task: Task) | Start(task: Task) | Revoke(id: nat) | Consume(id: nat) | Evict(id: nat)

  datatype World = World(
    s: State,
    capacity: seq<nat>,
    submitters: nat,
    flights: map<nat, Flight>,
    loc: map<nat, Loc>,
    stamp: map<nat, nat>,
    log: seq<Event>,
    accepted: nat,
    revoked: nat)

  datatype Step =
    | CheckRoom(sub: nat, priority: int, isAsync: bool, resp: Resp)
    | AllocId(sub: nat, now: nat)
    | InsertTask(sub: nat)
    | TakeTask(w: nat)
    | AnnounceTask(w: nat)
    | FinishTask(w: nat, now: nat)
    | ClearWorker(w: nat)
    | WatchWorker(w: nat, now: nat)
    | CancelTask(id: nat)
    | QueryTask(id: nat)

  ghost predicate Shape(w: World) {
    w.s.Valid() && |w.capacity| == QUEUES
  }

  function Evictions(track: Track, id: nat, isAsync: bool): seq<Event>
    requires track.evict < |track.slots|
  {
    if isAsync && Victim(track, id).Some? then [Evict(Victim(track, id).value)] else []
  }

  /** One step; a step whose guard does not hold changes nothing. */
  function Next(w: World, step: Step): World
    requires Shape(w)
  {
    match step
    case CheckRoom(sub, priority, isAsync, resp) =>
      if sub !in w.flights && |w.flights| < w.submitters && HasRoom(w.s, w.capacity, priority)
      then w.(flights := w.flights[sub := Checked(priority, isAsync, resp)])
      else w
    case AllocId(sub, now) =>
      if sub in w.flights && w.flights[sub].Checked? then
        var f := w.flights[sub];
        var t := Stamped(w.s, f.priority, f.isAsync, f.resp, now);
        w.(s := w.s.(nextTaskId := t.id), flights := w.flights[sub := Ready(t)], loc := w.loc[t.id := AtSubmitter(sub)])
      else w
    case InsertTask(sub) =>
      if sub in w.flights && w.flights[sub].Ready? then
        var t := w.flights[sub].task;
        w.(s := Inserted(w.s, t), flights := w.flights - {sub}, loc := w.loc[t.id := InQueue(QueueOf(t.priority))],
           stamp := w.stamp[t.id := |w.log|], log := w.log + [Enqueue(t)], accepted := w.accepted + 1)
      else w
    case TakeTask(v) =>
      var (s, task) := Dequeued(w.s);
      if v < |w.s.workers| && w.s.workers[v].phase.Idle? && task.Some? then
        w.(s := s.(workers := s.workers[v := s.workers[v].(phase := Taken(task.value))]),
           loc := w.loc[task.value.id := AtWorker(v)], log := w.log + [Start(task.value)])
      else w
    case AnnounceTask(v) =>
      if v < |w.s.workers| && w.s.workers[v].phase.Taken? then w.(s := Announced(w.s, v)) else w
    case FinishTask(v, now) =>
      if v < |w.s.workers| && w.s.workers[v].phase.Working? then
        var t := w.s.workers[v].phase.task;
        w.(s := Completion(w.s, v, now), loc := w.loc[t.id := Gone],
           log := w.log + Evictions(w.s.track, t.id, t.isAsync))
      else w
    case ClearWorker(v) =>
      if v < |w.s.workers| && w.s.workers[v].phase.Finished? then w.(s := Cleared(w.s, v)) else w
    case WatchWorker(v, now) =>
      if v < |w.s.workers| && TimedOut(w.s.workers[v], now) then
        var t := w.s.workers[v].current.value;
        w.(s := Watched(w.s, v, now), log := w.log + Evictions(w.s.track, t.id, t.isAsync))
      else w
    case CancelTask(id) =>
      var (s, ok) := Withdrawn(w.s, id);
      if ok then
        w.(s := s, loc := w.loc[id := Revoked], log := w.log + [Revoke(id)], revoked := w.revoked + 1)
      else w
    case QueryTask(id) =>
      if Lookup(w.s.track, id).Some? then
        w.(s := Asked(w.s, id).0, log := w.log + [Consume(id)])
      else w
  }

  function Init(capacity: seq<nat>, submitters: nat, pool: nat, tableSize: nat): World {
    World(Initial(pool, tableSize), capacity, submitters, map[], map[], map[], [], 0, 0)
  }

  // ---------------------------------------------------------------- where every task is

  predicate Holding(p: Phase) {
    p.Taken? || p.Working?
  }

  /** Every queued, submitted or held task is recorded at the place that has it. */
  ghost predicate Located(w: World)
    requires Shape(w)
  {
    && (forall q, i :: 0 <= q < QUEUES && 0 <= i < |w.s.queues[q]| ==>
          var t := w.s.queues[q][i];
          t.id in w.loc && w.loc[t.id] == InQueue(q) && QueueOf(t.priority) == q)
    && (forall sub :: sub in w.flights && w.flights[sub].Ready? ==>
          w.flights[sub].task.id in w.loc && w.loc[w.flights[sub].task.id] == AtSubmitter(sub))
    && (forall v :: 0 <= v < |w.s.workers| && Holding(w.s.workers[v].phase) ==>
          w.s.workers[v].phase.task.id in w.loc && w.loc[w.s.workers[v].phase.task.id] == AtWorker(v))
    && (forall id :: id in w.loc ==> 0 < id <= w.s.nextTaskId)
  }

  /** The stamp of a queued task is the log index of its insertion, and queues are in stamp order. */
  ghost predicate Ordered(w: World)
    requires Shape(w)
  {
    && (forall q, i :: 0 <= q < QUEUES && 0 <= i < |w.s.queues[q]| ==>
          var t := w.s.queues[q][i];
          t.id in w.stamp && w.stamp[t.id] < |w.log| && w.log[w.stamp[t.id]] == Enqueue(t))
    && (forall q, i, j :: 0 <= q < QUEUES && 0 <= i < j < |w.s.queues[q]| ==>
          w.stamp[w.s.queues[q][i].id] < w.stamp[w.s.queues[q][j].id])
  }

  /** The task left its queue, started or revoked, at some log index strictly between i and n. */
  ghost predicate Left(log: seq<Event>, id: nat, i: nat, n: nat)
    requires n <= |log|
  {
    exists m :: i < m < n && Leaves(log[m], id)
  }

  predicate Leaves(e: Event, id: nat) {
    (e.Start? && e.task.id == id) || e == Revoke(id)
  }

  ghost predicate EnqueueLogged(w: World, i: nat)
    requires Shape(w) && i < |w.log| && w.log[i].Enqueue?
  {
    var t := w.log[i].task;
    && t.id in w.loc && t.id in w.stamp && w.stamp[t.id] == i
    && !w.loc[t.id].AtSubmitter?
    && (w.loc[t.id].InQueue? ==> w.loc[t.id] == InQueue(QueueOf(t.priority)) && t in w.s.queues[QueueOf(t.priority)])
    && (!w.loc[t.id].InQueue? ==> Left(w.log, t.id, i, |w.log|))
  }

  /** The log agrees with where each task is now. */
  ghost predicate Logged(w: World)
    requires Shape(w)
  {
    && (forall i :: 0 <= i < |w.log| && w.log[i].Enqueue? ==> EnqueueLogged(w, i))
    && (forall i :: 0 <= i < |w.log| && w.log[i].Start? ==>
          var id := w.log[i].task.id;
          id in w.loc && (w.loc[id].AtWorker? || w.loc[id].Gone?))
    && (forall i, j :: 0 <= i < j < |w.log| && w.log[i].Start? && w.log[j].Start? ==>
          w.log[i].task.id != w.log[j].task.id)
    && (forall i :: 0 <= i < |w.log| && w.log[i].Revoke? ==>
          w.log[i].id in w.loc && w.loc[w.log[i].id].Revoked?)
  }

  /** Task a, enqueued at log index i, goes before task b, enqueued at k. */
  predicate Ahead(a: Task, i: nat, b: Task, k: nat) {
    QueueOf(a.priority) > QueueOf(b.priority) || (QueueOf(a.priority) == QueueOf(b.priority) && i < k)
  }

  /** Whenever b starts, every task ahead of it that was enqueued before had left its queue. */
  ghost predicate OrderRespected(log: seq<Event>) {
    forall i, k, j :: 0 <= i < j && 0 <= k < j < |log| && log[i].Enqueue? && log[k].Enqueue? && log[j].Start?
      && log[k].task == log[j].task && Ahead(log[i].task, i, log[k].task, k)
      ==> Left(log, log[i].task.id, i, j)
  }

  ghost predicate Inv(w: World) {
    && Shape(w)
    && Located(w)
    && Ordered(w)
    && Logged(w)
    && OrderRespected(w.log)
  }

  /** Appending events that say nothing about queues keeps the log facts. */
  predicate Quiet(es: seq<Event>) {
    forall i :: 0 <= i < |es| ==> es[i].Evict? || es[i].Consume?
  }

  lemma QuietKeeps(w: World, v: World, es: seq<Event>)
    requires Inv(w) && Shape(v) && Quiet(es)
    requires v.log == w.log + es && v.stamp == w.stamp && v.s.queues == w.s.queues
    requires forall id :: id in w.loc ==> id in v.loc
    requires forall id :: id in w.loc && v.loc[id] != w.loc[id] ==> w.loc[id].AtWorker? && v.loc[id].Gone?
    ensures Ordered(v) && Logged(v) && OrderRespected(v.log)
  {
    forall i | 0 <= i < |v.log| && v.log[i].Enqueue?
      ensures EnqueueLogged(v, i)
    {
      assert EnqueueLogged(w, i);
      LeftGrows(w.log, es, w.log[i].task.id, i, |w.log|, |v.log|);
    }
    OrderExtends(w.log, es);
  }

  lemma LeftGrows(log: seq<Event>, es: seq<Event>, id: nat, i: nat, n: nat, m: nat)
    requires n <= |log| && n <= m <= |log| + |es|
    ensures Left(log, id, i, n) ==> Left(log + es, id, i, m)
  {
    if Left(log, id, i, n) {
      var k :| i < k < n && Leaves(log[k], id);
      assert Leaves((log + es)[k], id);
    }
  }

  lemma OrderExtends(log: seq<Event>, es: seq<Event>)
    requires OrderRespected(log) && forall i :: 0 <= i < |es| ==> !es[i].Start?
    ensures OrderRespected(log + es)
  {
    var all := log + es;
    forall i, k, j | 0 <= i < j && 0 <= k < j < |all| && all[i].Enqueue? && all[k].Enqueue? && all[j].Start?
      && all[k].task == all[j].task && Ahead(all[i].task, i, all[k].task, k)
      ensures Left(all, all[i].task.id, i, j)
    {
      assert j < |log|;
      LeftGrows(log, es, log[i].task.id, i, j, j);
    }
  }

  // ---------------------------------------------------------------- each step keeps it

  lemma CheckKeeps(w: World, step: Step)
    requires Inv(w) && step.CheckRoom?
    ensures Inv(Next(w, step))
  {
    var v := Next(w, step);
    QuietKeeps(w, v, []);
  }

  lemma AllocKeeps(w: World, step: Step)
    requires Inv(w) && step.AllocId?
    ensures Inv(Next(w, step))
  {
    var v := Next(w, step);
    QuietKeeps(w, v, []);
  }

  /** A worker that keeps its task, or lets it go, leaves every place as recorded. */
  lemma OneWorkerLocated(w: World, v: World, k: nat)
    requires Shape(w) && Located(w) && Shape(v)
    requires v.loc == w.loc && v.flights == w.flights
    requires v.s.queues == w.s.queues && v.s.nextTaskId == w.s.nextTaskId
    requires k < |w.s.workers| == |v.s.workers| && v.s.workers == w.s.workers[k := v.s.workers[k]]
    requires Holding(v.s.workers[k].phase) ==>
               Holding(w.s.workers[k].phase) && v.s.workers[k].phase.task == w.s.workers[k].phase.task
    ensures Located(v)
  {
  }

  lemma AnnounceKeeps(w: World, step: Step)
    requires Inv(w) && step.AnnounceTask?
    ensures Inv(Next(w, step))
  {
    if step.w < |w.s.workers| && w.s.workers[step.w].phase.Taken? {
      QuietKeeps(w, Next(w, step), []);
      OneWorkerLocated(w, Next(w, step), step.w);
    }
  }

  lemma ClearKeeps(w: World, step: Step)
    requires Inv(w) && step.ClearWorker?
    ensures Inv(Next(w, step))
  {
    if step.w < |w.s.workers| && w.s.workers[step.w].phase.Finished? {
      QuietKeeps(w, Next(w, step), []);
      OneWorkerLocated(w, Next(w, step), step.w);
    }
  }

  lemma FinishKeeps(w: World, step: Step)
    requires Inv(w) && step.FinishTask?
    ensures Inv(Next(w, step))
  {
    var v := Next(w, step);
    if step.w < |w.s.workers| && w.s.workers[step.w].phase.Working? {
      var t := w.s.workers[step.w].phase.task;
      AddedValid(w.s.track, t.id, Record(Status.Completed, CompletedResp(t, step.now)));
      QuietKeeps(w, v, Evictions(w.s.track, t.id, t.isAsync));
    }
  }

  lemma WatchKeeps(w: World, step: Step)
    requires Inv(w) && step.WatchWorker?
    ensures Inv(Next(w, step))
  {
    var v := Next(w, step);
    if step.w < |w.s.workers| && TimedOut(w.s.workers[step.w], step.now) {
      var t := w.s.workers[step.w].current.value;
      WatchedValid(w.s, step.w, step.now);
      QuietKeeps(w, v, Evictions(w.s.track, t.id, t.isAsync));
    }
  }

  lemma QueryKeeps(w: World, step: Step)
    requires Inv(w) && step.QueryTask?
    ensures Inv(Next(w, step))
  {
    var v := Next(w, step);
    if Lookup(w.s.track, step.id).Some? {
      QueryConsumes(w.s.track, step.id, step.id);
      QuietKeeps(w, v, [Consume(step.id)]);
    }
  }

  lemma InsertKeeps(w: World, step: Step)
    requires Inv(w) && step.InsertTask?
    ensures Inv(Next(w, step))
  {
    if step.sub in w.flights && w.flights[step.sub].Ready? {
      InsertShape(w, step);
      InsertLocated(w, step);
      InsertOrdered(w, step);
      InsertLogged(w, step);
      OrderExtends(w.log, [Enqueue(w.flights[step.sub].task)]);
    }
  }

  lemma InsertShape(w: World, step: Step)
    requires Shape(w) && step.InsertTask? && step.sub in w.flights && w.flights[step.sub].Ready?
    ensures Shape(Next(w, step))
  {
  }

  /** The queues after an insertion, entry by entry. */
  lemma InsertEntries(queues: seq<seq<Task>>, q: nat, t: Task, p: nat, i: nat)
    requires q < |queues| && p < |queues|
    ensures var after := queues[q := queues[q] + [t]];
            i < |after[p]| ==>
              (p == q && i == |queues[q]| && after[p][i] == t) || (i < |queues[p]| && after[p][i] == queues[p][i])
  {
  }

  lemma InsertLocated(w: World, step: Step)
    requires Shape(w) && Located(w) && step.InsertTask? && step.sub in w.flights && w.flights[step.sub].Ready?
    requires Shape(Next(w, step))
    ensures Located(Next(w, step))
  {
    var t := w.flights[step.sub].task;
    forall p: nat, i: nat | p < QUEUES && i < |Next(w, step).s.queues[p]|
      ensures var x := Next(w, step).s.queues[p][i];
              (x == t && p == QueueOf(t.priority)) || x in w.s.queues[p]
    {
      InsertEntries(w.s.queues, QueueOf(t.priority), t, p, i);
    }
  }

  lemma InsertOrdered(w: World, step: Step)
    requires Inv(w) && step.InsertTask? && step.sub in w.flights && w.flights[step.sub].Ready?
    requires Shape(Next(w, step))
    ensures Ordered(Next(w, step))
  {
    var v := Next(w, step);
    var t := w.flights[step.sub].task;
    var q := QueueOf(t.priority);
    forall p, i | 0 <= p < QUEUES && 0 <= i < |v.s.queues[p]|
      ensures v.s.queues[p][i] == (if p == q && i == |w.s.queues[q]| then t else w.s.queues[p][i])
    {
    }
  }

  lemma InsertLogged(w: World, step: Step)
    requires Inv(w) && step.InsertTask? && step.sub in w.flights && w.flights[step.sub].Ready?
    requires Shape(Next(w, step))
    ensures Logged(Next(w, step))
  {
    var v := Next(w, step);
    var t := w.flights[step.sub].task;
    forall i | 0 <= i < |w.log| && w.log[i].Enqueue?
      ensures EnqueueLogged(v, i)
    {
      assert EnqueueLogged(w, i);
      LeftGrows(w.log, [Enqueue(t)], w.log[i].task.id, i, |w.log|, |v.log|);
    }
    assert EnqueueLogged(v, |w.log|) by {
      var q := QueueOf(t.priority);
      assert v.s.queues[q][|w.s.queues[q]|] == t;
    }
  }

  /** Task ids in one queue are distinct, because stamps strictly increase along it. */
  lemma QueueIdsDistinct(w: World, q: nat, i: nat, j: nat)
    requires Inv(w) && q < QUEUES && i < |w.s.queues[q]| && j < |w.s.queues[q]|
    ensures i != j ==> w.s.queues[q][i].id != w.s.queues[q][j].id
  {
  }

  /** Removing the task at position i of queue q, whose id then moves to `place`. */
  ghost predicate Departs(w: World, v: World, q: nat, i: nat, place: Loc, e: Event)
    requires Inv(w)
  {
    && Shape(v) && q < QUEUES && i < |w.s.queues[q]|
    && v.s.queues == w.s.queues[q := w.s.queues[q][..i] + w.s.queues[q][i + 1..]]
    && v.stamp == w.stamp && v.loc == w.loc[w.s.queues[q][i].id := place] && v.log == w.log + [e]
    && Leaves(e, w.s.queues[q][i].id) && !place.InQueue? && !place.AtSubmitter?
    && (e.Start? ==> e.task == w.s.queues[q][i] && place.AtWorker?)
    && (e.Revoke? ==> place == Revoked)
  }

  /** A task of the shortened queue sat one place further back or at the same place before. */
  function Before(p: nat, q: nat, i: nat, j: nat): nat {
    if p == q && j >= i then j + 1 else j
  }

  lemma DepartQueues(w: World, v: World, q: nat, i: nat, place: Loc, e: Event)
    requires Inv(w) && Departs(w, v, q, i, place, e)
    ensures Ordered(v)
    ensures forall p, j :: 0 <= p < QUEUES && 0 <= j < |v.s.queues[p]| ==>
              && Before(p, q, i, j) < |w.s.queues[p]|
              && v.s.queues[p][j] == w.s.queues[p][Before(p, q, i, j)]
              && v.s.queues[p][j].id in v.loc && v.loc[v.s.queues[p][j].id] == InQueue(p)
  {
    forall p, j | 0 <= p < QUEUES && 0 <= j < |v.s.queues[p]|
      ensures && Before(p, q, i, j) < |w.s.queues[p]|
              && v.s.queues[p][j] == w.s.queues[p][Before(p, q, i, j)]
              && v.s.queues[p][j].id in v.loc && v.loc[v.s.queues[p][j].id] == InQueue(p)
    {
      if p == q {
        QueueIdsDistinct(w, q, i, Before(p, q, i, j));
      }
    }
  }

  lemma DepartLogged(w: World, v: World, q: nat, i: nat, place: Loc, e: Event)
    requires Inv(w) && Departs(w, v, q, i, place, e)
    ensures Logged(v)
  {
    var gone := w.s.queues[q][i];
    forall k | 0 <= k < |v.log| && v.log[k].Enqueue?
      ensures EnqueueLogged(v, k)
    {
      assert EnqueueLogged(w, k);
      var t := w.log[k].task;
      LeftGrows(w.log, [e], t.id, k, |w.log|, |v.log|);
      if t.id == gone.id {
        assert Leaves(v.log[|w.log|], t.id);
      } else if w.loc[t.id].InQueue? {
        StaysQueued(w, v, q, i, t);
      }
    }
  }

  lemma StaysQueued(w: World, v: World, q: nat, i: nat, t: Task)
    requires Inv(w) && q < QUEUES && i < |w.s.queues[q]| && Shape(v)
    requires v.s.queues == w.s.queues[q := w.s.queues[q][..i] + w.s.queues[q][i + 1..]]
    requires t != w.s.queues[q][i] && t in w.s.queues[QueueOf(t.priority)]
    ensures t in v.s.queues[QueueOf(t.priority)]
  {
    var p := QueueOf(t.priority);
    if p == q {
      OthersStay(w.s.queues[q], i, t);
    }
  }

  lemma OthersStay(queue: seq<Task>, i: nat, t: Task)
    requires i < |queue| && t in queue && t != queue[i]
    ensures t in queue[..i] + queue[i + 1..]
  {
  }

  /** Nothing but the departing task changes its place. */
  lemma DepartLocated(w: World, v: World, q: nat, i: nat, place: Loc, e: Event)
    requires Inv(w) && Departs(w, v, q, i, place, e)
    requires v.flights == w.flights && v.s.workers == w.s.workers && v.s.nextTaskId == w.s.nextTaskId
    ensures Located(v)
  {
    DepartQueues(w, v, q, i, place, e);
  }

  lemma CancelKeeps(w: World, step: Step)
    requires Inv(w) && step.CancelTask?
    ensures Inv(Next(w, step))
  {
    var q := Holder(w.s, step.id, 0);
    if q < QUEUES {
      CancelDeparts(w, step, q, Position(w.s.queues[q], step.id));
    }
  }

  lemma CancelDeparts(w: World, step: Step, q: nat, i: nat)
    requires Inv(w) && step.CancelTask? && q == Holder(w.s, step.id, 0) && q < QUEUES
    requires i == Position(w.s.queues[q], step.id)
    ensures Inv(Next(w, step))
  {
    var v := Next(w, step);
    OrderExtends(w.log, [Revoke(step.id)]);
    CancelIsDeparture(w, step, q, i);
    DepartLocated(w, v, q, i, Revoked, Revoke(step.id));
    DepartQueues(w, v, q, i, Revoked, Revoke(step.id));
    DepartLogged(w, v, q, i, Revoked, Revoke(step.id));
  }

  lemma CancelIsDeparture(w: World, step: Step, q: nat, i: nat)
    requires Inv(w) && step.CancelTask? && q == Holder(w.s, step.id, 0) && q < QUEUES
    requires i == Position(w.s.queues[q], step.id)
    ensures var v := Next(w, step);
            && Departs(w, v, q, i, Revoked, Revoke(step.id))
            && v.flights == w.flights && v.s.workers == w.s.workers && v.s.nextTaskId == w.s.nextTaskId
            && v.log == w.log + [Revoke(step.id)]
  {
  }

  lemma TakeKeeps(w: World, step: Step)
    requires Inv(w) && step.TakeTask?
    ensures Inv(Next(w, step))
  {
    var v := Next(w, step);
    var q := TopBelow(w.s, QUEUES);
    if v != w {
      var t := w.s.queues[q][0];
      assert w.s.queues[q][..0] + w.s.queues[q][1..] == w.s.queues[q][1..];
      assert Departs(w, v, q, 0, AtWorker(step.w), Start(t));
      DepartQueues(w, v, q, 0, AtWorker(step.w), Start(t));
      DepartLogged(w, v, q, 0, AtWorker(step.w), Start(t));
      TakeRespectsOrder(w, q);
    }
  }

  /** Nothing still queued is ahead of the head of the highest non-empty queue. */
  lemma HeadFirst(w: World, q: nat, i: nat)
    requires Inv(w) && q == TopBelow(w.s, QUEUES) && i < |w.log| && w.log[i].Enqueue?
    requires w.log[i].task.id in w.loc
    ensures w.s.queues[q][0].id in w.stamp
    ensures w.loc[w.log[i].task.id].InQueue? ==>
              !Ahead(w.log[i].task, i, w.s.queues[q][0], w.stamp[w.s.queues[q][0].id])
  {
    assert EnqueueLogged(w, i);
    var a, t := w.log[i].task, w.s.queues[q][0];
    if w.loc[a.id].InQueue? {
      var p := QueueOf(a.priority);
      var x :| 0 <= x < |w.s.queues[p]| && w.s.queues[p][x] == a;
      assert p == q ==> x == 0 || w.stamp[t.id] < w.stamp[a.id];
    }
  }

  /** The head of the highest non-empty queue starts only when nothing ahead of it is queued. */
  lemma TakeRespectsOrder(w: World, q: nat)
    requires Inv(w) && q == TopBelow(w.s, QUEUES)
    ensures OrderRespected(w.log + [Start(w.s.queues[q][0])])
  {
    var t := w.s.queues[q][0];
    var all := w.log + [Start(t)];
    forall i, k, j | 0 <= i < j && 0 <= k < j < |all| && all[i].Enqueue? && all[k].Enqueue? && all[j].Start?
      && all[k].task == all[j].task && Ahead(all[i].task, i, all[k].task, k)
      ensures Left(all, all[i].task.id, i, j)
    {
      var a := all[i].task;
      assert EnqueueLogged(w, i) && EnqueueLogged(w, k);
      if j < |w.log| {
        LeftGrows(w.log, [Start(t)], a.id, i, j, j);
      } else {
        HeadFirst(w, q, i);
        LeftGrows(w.log, [Start(t)], a.id, i, |w.log|, j);
      }
    }
  }

  lemma InitInv(capacity: seq<nat>, submitters: nat, pool: nat, tableSize: nat)
    requires |capacity| == QUEUES && tableSize > 0
    ensures Inv(Init(capacity, submitters, pool, tableSize))
  {
  }

  lemma StepKeeps(w: World, step: Step)
    requires Inv(w)
    ensures Inv(Next(w, step))
  {
    match step
    case CheckRoom(_, _, _, _) => CheckKeeps(w, step);
    case AllocId(_, _) => AllocKeeps(w, step);
    case InsertTask(_) => InsertKeeps(w, step);
    case TakeTask(_) => TakeKeeps(w, step);
    case AnnounceTask(_) => AnnounceKeeps(w, step);
    case FinishTask(_, _) => FinishKeeps(w, step);
    case ClearWorker(_) => ClearKeeps(w, step);
    case WatchWorker(_, _) => WatchKeeps(w, step);
    case CancelTask(_) => CancelKeeps(w, step);
    case QueryTask(_) => QueryKeeps(w, step);
  }

  lemma StepKeepsConfig(w: World, step: Step)
    requires Shape(w)
    ensures Next(w, step).capacity == w.capacity && Next(w, step).submitters == w.submitters
  {
  }

  /** Any run of steps from a world that satisfies the invariant keeps the invariant. */
  ghost function Run(w: World, steps: seq<Step>): (v: World)
    requires Inv(w)
    ensures Inv(v)
    ensures v.capacity == w.capacity && v.submitters == w.submitters
    decreases steps
  {
    if steps == [] then w
    else
      StepKeeps(w, steps[0]);
      StepKeepsConfig(w, steps[0]);
      Run(Next(w, steps[0]), steps[1..])
  }
}
