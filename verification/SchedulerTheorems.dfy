/** What every run of the scheduler keeps: conservation of tasks, distinct ids, the capacity
    bound under racing submitters, start order, and what a query finds. */
module SchedulerTheorems {
  import opened Wrappers
  import opened ResultTable
  import opened Scheduler
  import opened SchedulerRuns
  import opened SchedulerQuery

  // ---------------------------------------------------------------- counting

  function Total(queues: seq<seq<Task>>): nat {
    if queues == [] then 0 else Total(queues[..|queues| - 1]) + |queues[|queues| - 1]|
  }

  function HeldCount(workers: seq<Worker>): nat {
    if workers == [] then 0
    else HeldCount(workers[..|workers| - 1]) + if Holding(workers[|workers| - 1].phase) then 1 else 0
  }

  lemma {:induction false} TotalUpdate(queues: seq<seq<Task>>, q: nat, queue: seq<Task>)
    requires q < |queues|
    ensures Total(queues[q := queue]) == Total(queues) - |queues[q]| + |queue|
  {
    var n := |queues| - 1;
    if q == n {
      assert queues[q := queue][..n] == queues[..n];
    } else {
      assert queues[q := queue][..n] == queues[..n][q := queue];
      TotalUpdate(queues[..n], q, queue);
    }
  }

  lemma {:induction false} HeldUpdate(workers: seq<Worker>, v: nat, worker: Worker)
    requires v < |workers|
    ensures HeldCount(workers[v := worker])
         == HeldCount(workers) - (if Holding(workers[v].phase) then 1 else 0) + (if Holding(worker.phase) then 1 else 0)
  {
    var n := |workers| - 1;
    if v == n {
      assert workers[v := worker][..n] == workers[..n];
    } else {
      assert workers[v := worker][..n] == workers[..n][v := worker];
      HeldUpdate(workers[..n], v, worker);
    }
  }

  /** Every accepted task is queued, cancelled, held by a worker, or counted as completed. */
  ghost predicate Balanced(w: World) {
    w.accepted == Total(w.s.queues) + w.revoked + HeldCount(w.s.workers) + w.s.completed
  }

  lemma StepBalanced(w: World, step: Step)
    requires Inv(w) && Balanced(w)
    ensures Balanced(Next(w, step))
  {
    match step
    case CheckRoom(_, _, _, _) =>
    case AllocId(_, _) =>
    case QueryTask(_) =>
    case InsertTask(_) => InsertBalanced(w, step);
    case TakeTask(_) => TakeBalanced(w, step);
    case CancelTask(_) => CancelBalanced(w, step);
    case AnnounceTask(k) => WorkerStep(w, step, k);
    case FinishTask(k, _) => WorkerStep(w, step, k);
    case ClearWorker(k) => WorkerStep(w, step, k);
    case WatchWorker(k, _) => WorkerStep(w, step, k);
  }

  lemma InsertBalanced(w: World, step: Step)
    requires Shape(w) && Balanced(w) && step.InsertTask?
    ensures Balanced(Next(w, step))
  {
    if step.sub in w.flights && w.flights[step.sub].Ready? {
      var t := w.flights[step.sub].task;
      var q := QueueOf(t.priority);
      TotalUpdate(w.s.queues, q, w.s.queues[q] + [t]);
    }
  }

  lemma TakeBalanced(w: World, step: Step)
    requires Shape(w) && Balanced(w) && step.TakeTask?
    ensures Balanced(Next(w, step))
  {
    var v := Next(w, step);
    if v != w {
      var q := TopBelow(w.s, QUEUES);
      TotalUpdate(w.s.queues, q, w.s.queues[q][1..]);
      HeldUpdate(w.s.workers, step.w, v.s.workers[step.w]);
    }
  }

  lemma CancelBalanced(w: World, step: Step)
    requires Shape(w) && Balanced(w) && step.CancelTask?
    ensures Balanced(Next(w, step))
  {
    var q := Holder(w.s, step.id, 0);
    if q < QUEUES {
      var i := Position(w.s.queues[q], step.id);
      TotalUpdate(w.s.queues, q, w.s.queues[q][..i] + w.s.queues[q][i + 1..]);
    }
  }

  lemma WorkerStep(w: World, step: Step, k: nat)
    requires Inv(w) && Balanced(w)
    requires step == AnnounceTask(k) || step == ClearWorker(k)
      || (step.FinishTask? && step.w == k) || (step.WatchWorker? && step.w == k)
    ensures Balanced(Next(w, step))
  {
    var v := Next(w, step);
    if v != w {
      HeldUpdate(w.s.workers, k, v.s.workers[k]);
    }
  }

  // ---------------------------------------------------------------- racing submitters

  function PriorityOf(f: Flight): int {
    if f.Checked? then f.priority else f.task.priority
  }

  /** The submitters that passed the fullness check of queue q and have not inserted yet. */
  function Toward(flights: map<nat, Flight>, q: nat): set<nat> {
    set sub | sub in flights && QueueOf(PriorityOf(flights[sub])) == q
  }

  ghost predicate Bounded(w: World)
    requires Shape(w)
  {
    && |w.flights| <= w.submitters
    && forall q :: 0 <= q < QUEUES ==> QueueBounded(w, q)
  }

  ghost predicate QueueBounded(w: World, q: nat)
    requires Shape(w) && q < QUEUES
  {
    var n := |w.s.queues[q]| + |Toward(w.flights, q)|;
    n == 0 || n <= w.capacity[q] + w.submitters - 1
  }

  lemma TowardSize(flights: map<nat, Flight>, q: nat)
    ensures |Toward(flights, q)| <= |flights|
  {
    SubsetSize(Toward(flights, q), flights.Keys);
  }

  lemma {:induction false} SubsetSize(a: set<nat>, b: set<nat>)
    requires a <= b
    ensures |a| <= |b|
  {
    if x :| x in a {
      SubsetSize(a - {x}, b - {x});
    }
  }

  /** Adding, re-stamping or dropping one flight changes only its own queue's set. */
  lemma TowardUpdate(flights: map<nat, Flight>, sub: nat, f: Flight, q: nat)
    ensures Toward(flights[sub := f], q)
         == if QueueOf(PriorityOf(f)) == q then Toward(flights, q) + {sub} else Toward(flights, q) - {sub}
    ensures Toward(flights - {sub}, q) == Toward(flights, q) - {sub}
    ensures sub in Toward(flights, q) <==> sub in flights && QueueOf(PriorityOf(flights[sub])) == q
  {
  }

  lemma StepBounded(w: World, step: Step)
    requires Inv(w) && Bounded(w)
    ensures Shape(Next(w, step)) && Bounded(Next(w, step))
  {
    StepShape(w, step);
    var v := Next(w, step);
    forall q | 0 <= q < QUEUES
      ensures QueueBounded(v, q)
    {
      StepQueueBounded(w, step, q);
    }
    match step
    case CheckRoom(sub, _, _, _) => assert v.flights.Keys <= w.flights.Keys + {sub};
    case AllocId(_, _) => assert v.flights.Keys == w.flights.Keys;
    case InsertTask(sub) =>
      SubsetSize(v.flights.Keys, w.flights.Keys);
    case _ =>
  }

  lemma CheckBounded(w: World, step: Step, q: nat)
    requires Shape(w) && Bounded(w) && q < QUEUES && step.CheckRoom? && Shape(Next(w, step))
    ensures QueueBounded(Next(w, step), q)
  {
    assert QueueBounded(w, q);
    TowardUpdate(w.flights, step.sub, Checked(step.priority, step.isAsync, step.resp), q);
    TowardSize(w.flights, q);
  }

  lemma AllocBounded(w: World, step: Step, q: nat)
    requires Shape(w) && Bounded(w) && q < QUEUES && step.AllocId? && Shape(Next(w, step))
    ensures QueueBounded(Next(w, step), q)
  {
    assert QueueBounded(w, q);
    if step.sub in w.flights && w.flights[step.sub].Checked? {
      TowardUpdate(w.flights, step.sub, Next(w, step).flights[step.sub], q);
    }
  }

  lemma InsertBounded(w: World, step: Step, q: nat)
    requires Shape(w) && Bounded(w) && q < QUEUES && step.InsertTask? && Shape(Next(w, step))
    ensures QueueBounded(Next(w, step), q)
  {
    assert QueueBounded(w, q);
    if step.sub in w.flights && w.flights[step.sub].Ready? {
      TowardUpdate(w.flights, step.sub, w.flights[step.sub], q);
    }
  }

  lemma ShrinkBounded(w: World, v: World, q: nat)
    requires Shape(w) && Bounded(w) && q < QUEUES && Shape(v)
    requires v.flights == w.flights && v.submitters == w.submitters && v.capacity == w.capacity
    requires |v.s.queues[q]| <= |w.s.queues[q]|
    ensures QueueBounded(v, q)
  {
    assert QueueBounded(w, q);
  }

  lemma TakeBounded(w: World, step: Step, q: nat)
    requires Shape(w) && Bounded(w) && q < QUEUES && step.TakeTask? && Shape(Next(w, step))
    ensures QueueBounded(Next(w, step), q)
  {
    ShrinkBounded(w, Next(w, step), q);
  }

  lemma CancelBounded(w: World, step: Step, q: nat)
    requires Shape(w) && Bounded(w) && q < QUEUES && step.CancelTask? && Shape(Next(w, step))
    ensures QueueBounded(Next(w, step), q)
  {
    ShrinkBounded(w, Next(w, step), q);
  }

  lemma StepQueueBounded(w: World, step: Step, q: nat)
    requires Shape(w) && Bounded(w) && q < QUEUES
    requires Shape(Next(w, step))
    ensures QueueBounded(Next(w, step), q)
  {
    match step
    case CheckRoom(_, _, _, _) => CheckBounded(w, step, q);
    case AllocId(_, _) => AllocBounded(w, step, q);
    case InsertTask(_) => InsertBounded(w, step, q);
    case TakeTask(_) => TakeBounded(w, step, q);
    case CancelTask(_) => CancelBounded(w, step, q);
    case _ => ShrinkBounded(w, Next(w, step), q);
  }

  // ---------------------------------------------------------------- every run

  ghost predicate Reachable(w: World) {
    Inv(w) && Balanced(w) && Bounded(w) && Tracked(w)
  }

  lemma StepReachable(w: World, step: Step)
    requires Reachable(w)
    ensures Reachable(Next(w, step))
  {
    StepKeeps(w, step);
    StepBalanced(w, step);
    StepBounded(w, step);
    match step
    case TakeTask(_) => TakeTracked(w, step);
    case AnnounceTask(_) => AnnounceTracked(w, step);
    case FinishTask(_, _) => FinishTracked(w, step);
    case ClearWorker(_) => ClearTracked(w, step);
    case WatchWorker(_, _) => WatchTracked(w, step);
    case QueryTask(_) => QueryTracked(w, step);
    case _ => QueueSideTracked(w, step);
  }

  lemma {:induction false} RunReachable(w: World, steps: seq<Step>)
    requires Reachable(w)
    ensures Reachable(Run(w, steps))
    decreases steps
  {
    if steps != [] {
      StepReachable(w, steps[0]);
      RunReachable(Next(w, steps[0]), steps[1..]);
    }
  }

  /** Queue capacities, the number of submitters, the pool size and the table size. */
  datatype Config = Config(capacity: seq<nat>, submitters: nat, pool: nat, tableSize: nat) {
    ghost predicate Valid() {
      |capacity| == QUEUES && tableSize > 0
    }
  }

  lemma InitReachable(c: Config)
    requires c.Valid()
    ensures Reachable(Init(c.capacity, c.submitters, c.pool, c.tableSize))
  {
    InitInv(c.capacity, c.submitters, c.pool, c.tableSize);
    InitTracked(c.capacity, c.submitters, c.pool, c.tableSize);
    var w := Init(c.capacity, c.submitters, c.pool, c.tableSize);
    assert Toward(map[], 0) == {};
    forall q | 0 <= q < QUEUES ensures QueueBounded(w, q) {
      assert Toward(w.flights, q) == {};
    }
    NothingQueued(QUEUES);
    NothingHeld(c.pool);
  }

  lemma {:induction false} NothingQueued(n: nat)
    ensures Total(seq(n, _ => [])) == 0
  {
    if n > 0 {
      assert seq<seq<Task>>(n, _ => [])[..n - 1] == seq(n - 1, _ => []);
      NothingQueued(n - 1);
    }
  }

  lemma {:induction false} NothingHeld(n: nat)
    ensures HeldCount(seq(n, _ => Worker(Idle, None, false))) == 0
  {
    if n > 0 {
      assert seq(n, _ => Worker(Idle, None, false))[..n - 1] == seq(n - 1, _ => Worker(Idle, None, false));
      NothingHeld(n - 1);
    }
  }

  /** The world after a run from the initial state. */
  ghost function After(c: Config, steps: seq<Step>): (w: World)
    requires c.Valid()
    ensures Reachable(w) && w.capacity == c.capacity && w.submitters == c.submitters
  {
    InitReachable(c);
    RunReachable(Init(c.capacity, c.submitters, c.pool, c.tableSize), steps);
    Run(Init(c.capacity, c.submitters, c.pool, c.tableSize), steps)
  }

  /** Conservation: in every run, watchdog steps included, no accepted task is lost or counted twice. */
  lemma TasksConserved(c: Config, steps: seq<Step>)
    requires c.Valid()
    ensures var w := After(c, steps);
            w.accepted == Total(w.s.queues) + w.revoked + HeldCount(w.s.workers) + w.s.completed
  {
    var w := After(c, steps);
    assert Balanced(w);
  }

  ghost predicate IdsDistinct(s: State)
    requires s.Valid()
  {
    && (forall q, i | 0 <= q < QUEUES && 0 <= i < |s.queues[q]| ::
          0 < s.queues[q][i].id <= s.nextTaskId)
    && (forall u | 0 <= u < |s.workers| && Holding(s.workers[u].phase) ::
          0 < s.workers[u].phase.task.id <= s.nextTaskId)
    && (forall q, i, p, j | 0 <= q < QUEUES && 0 <= i < |s.queues[q]| && 0 <= p < QUEUES && 0 <= j < |s.queues[p]| ::
          s.queues[q][i].id == s.queues[p][j].id ==> q == p && i == j)
    && (forall u, v | 0 <= u < v < |s.workers| && Holding(s.workers[u].phase) && Holding(s.workers[v].phase) ::
          s.workers[u].phase.task.id != s.workers[v].phase.task.id)
    && (forall q, i, u |
          0 <= q < QUEUES && 0 <= i < |s.queues[q]| && 0 <= u < |s.workers| && Holding(s.workers[u].phase) ::
          s.queues[q][i].id != s.workers[u].phase.task.id)
  }

  /** Ids of queued and held tasks are pairwise distinct and at most next_task_id. */
  lemma LiveIdsDistinct(c: Config, steps: seq<Step>)
    requires c.Valid()
    ensures IdsDistinct(After(c, steps).s)
  {
    assert Inv(After(c, steps));
  }

  /** With at most N submitters in flight no queue exceeds capacity + N - 1, and every counter
      equals its list length. */
  lemma QueueNeverExceeds(c: Config, steps: seq<Step>, q: nat)
    requires c.Valid() && c.submitters > 0 && q < QUEUES
    ensures var w := After(c, steps);
            && |w.s.queues[q]| <= c.capacity[q] + c.submitters - 1
            && w.s.counts[q] == |w.s.queues[q]|
  {
    assert QueueBounded(After(c, steps), q);
  }

  /** Every started task was enqueued before. */
  ghost predicate StartsEnqueued(log: seq<Event>) {
    forall j :: 0 <= j < |log| && log[j].Start? ==> EnqueuedBefore(log, log[j].task, j)
  }

  ghost predicate EnqueuedBefore(log: seq<Event>, t: Task, j: nat)
    requires j <= |log|
  {
    exists k :: 0 <= k < j && log[k] == Enqueue(t)
  }

  /** Events other than starts, and the start of an enqueued task, keep this. */
  lemma MoreStarts(log: seq<Event>, es: seq<Event>)
    requires StartsEnqueued(log)
    requires forall i :: 0 <= i < |es| && es[i].Start? ==> Enqueue(es[i].task) in log
    ensures StartsEnqueued(log + es)
  {
    var all := log + es;
    forall j | 0 <= j < |all| && all[j].Start? ensures EnqueuedBefore(all, all[j].task, j) {
      if j < |log| {
        assert EnqueuedBefore(log, log[j].task, j);
        var k :| 0 <= k < j && log[k] == Enqueue(log[j].task);
        assert all[k] == Enqueue(all[j].task);
      } else {
        var k :| 0 <= k < |log| && log[k] == Enqueue(es[j - |log|].task);
        assert all[k] == Enqueue(all[j].task);
      }
    }
  }

  lemma TakeStartsEnqueued(w: World, step: Step)
    requires Shape(w) && Ordered(w) && step.TakeTask? && StartsEnqueued(w.log)
    ensures StartsEnqueued(Next(w, step).log)
  {
    var q := TopBelow(w.s, QUEUES);
    if q >= 0 && Next(w, step) != w {
      var t := w.s.queues[q][0];
      assert w.log[w.stamp[t.id]] == Enqueue(t);
      MoreStarts(w.log, [Start(t)]);
    }
  }

  lemma WorkerStartsEnqueued(w: World, step: Step)
    requires Shape(w) && (step.FinishTask? || step.WatchWorker?) && StartsEnqueued(w.log)
    ensures StartsEnqueued(Next(w, step).log)
  {
    var v := Next(w, step);
    if v.log != w.log {
      var t := if step.FinishTask? then w.s.workers[step.w].phase.task else w.s.workers[step.w].current.value;
      MoreStarts(w.log, Evictions(w.s.track, t.id, t.isAsync));
    }
  }

  lemma StepStartsEnqueued(w: World, step: Step)
    requires Shape(w) && Ordered(w) && StartsEnqueued(w.log)
    ensures StartsEnqueued(Next(w, step).log)
  {
    match step
    case TakeTask(_) => TakeStartsEnqueued(w, step);
    case FinishTask(_, _) => WorkerStartsEnqueued(w, step);
    case WatchWorker(_, _) => WorkerStartsEnqueued(w, step);
    case CancelTask(id) => MoreStarts(w.log, [Revoke(id)]);
    case QueryTask(id) => MoreStarts(w.log, [Consume(id)]);
    case InsertTask(sub) =>
      if sub in w.flights && w.flights[sub].Ready? {
        MoreStarts(w.log, [Enqueue(w.flights[sub].task)]);
      }
    case _ =>
  }

  lemma {:induction false} RunStartsEnqueued(w: World, steps: seq<Step>)
    requires Inv(w) && StartsEnqueued(w.log)
    ensures StartsEnqueued(Run(w, steps).log)
    decreases steps
  {
    if steps != [] {
      StepKeeps(w, steps[0]);
      StepStartsEnqueued(w, steps[0]);
      RunStartsEnqueued(Next(w, steps[0]), steps[1..]);
    }
  }

  /** In every run, so that the order law below speaks about every start. */
  lemma StartedWasEnqueued(c: Config, steps: seq<Step>, j: nat)
    requires c.Valid() && j < |After(c, steps).log| && After(c, steps).log[j].Start?
    ensures EnqueuedBefore(After(c, steps).log, After(c, steps).log[j].task, j)
  {
    InitReachable(c);
    RunStartsEnqueued(Init(c.capacity, c.submitters, c.pool, c.tableSize), steps);
  }

  /** When task b starts, every task that was enqueued before and goes ahead of it, by a higher
      priority or by an earlier insertion at the same one, had already started or been cancelled. */
  lemma StartOrder(c: Config, steps: seq<Step>, i: nat, k: nat, j: nat)
    requires c.Valid()
    requires var log := After(c, steps).log;
             && i < j && k < j < |log| && log[i].Enqueue? && log[k].Enqueue? && log[j].Start?
             && log[k].task == log[j].task && Ahead(log[i].task, i, log[k].task, k)
    ensures Left(After(c, steps).log, After(c, steps).log[i].task.id, i, j)
  {
    assert OrderRespected(After(c, steps).log);
  }

  /** The same for priorities within the range 0 to 4: a higher one goes first, and equal ones by age;
      what lies outside counts as the nearest end of the range. */
  lemma HigherPriorityFirst(c: Config, steps: seq<Step>, i: nat, k: nat, j: nat)
    requires c.Valid()
    requires var log := After(c, steps).log;
             && i < j && k < j < |log| && log[i].Enqueue? && log[k].Enqueue? && log[j].Start?
             && log[k].task == log[j].task
    requires var p, q := After(c, steps).log[i].task.priority, After(c, steps).log[k].task.priority;
             || (p > q && p > 0 && q < 4)
             || (i < k && (p == q || (p >= 4 && q >= 4) || (p <= 0 && q <= 0)))
    ensures Left(After(c, steps).log, After(c, steps).log[i].task.id, i, j)
  {
    StartOrder(c, steps, i, k, j);
  }

  /** A task starts at most once, and a cancelled task never starts, before or after. */
  lemma StartsAtMostOnceAndNeverIfCancelled(c: Config, steps: seq<Step>, i: nat, j: nat)
    requires c.Valid()
    requires i < |After(c, steps).log| && j < |After(c, steps).log| && i != j
    requires After(c, steps).log[i].Start?
    ensures !Leaves(After(c, steps).log[j], After(c, steps).log[i].task.id)
  {
    assert Logged(After(c, steps));
  }

  /** An accepted asynchronous task that was not cancelled, consumed or evicted is found by a
      query exactly when no worker is between dequeuing it and publishing it. */
  lemma QueryFindsAccepted(c: Config, steps: seq<Step>, i: nat)
    requires c.Valid()
    requires var log := After(c, steps).log;
             && i < |log| && log[i].Enqueue? && log[i].task.isAsync
             && Revoke(log[i].task.id) !in log && Consume(log[i].task.id) !in log && Evict(log[i].task.id) !in log
    ensures var w := After(c, steps);
            Asked(w.s, w.log[i].task.id).1.Some? <==>
              !(exists v :: 0 <= v < |w.s.workers| && w.s.workers[v].phase == Taken(w.log[i].task))
  {
    var w := After(c, steps);
    var t := w.log[i].task;
    assert EnqueueLogged(w, i) && GoneRecorded(w, t);
    match w.loc[t.id]
    case AtSubmitter(_) =>
    case InQueue(q) => QueuedIsFound(w, t);
    case Gone => NotTaken(w, t);
    case Revoked =>
    case AtWorker(v) => HeldIsFound(w, t, v);
  }

  lemma NotTaken(w: World, t: Task)
    requires Reachable(w) && t.id in w.loc && !w.loc[t.id].AtWorker?
    ensures forall v :: 0 <= v < |w.s.workers| ==> w.s.workers[v].phase != Taken(t)
  {
  }

  lemma QueuedIsFound(w: World, t: Task)
    requires Reachable(w) && t.id in w.loc && w.loc[t.id].InQueue? && t in w.s.queues[QueueOf(t.priority)]
    ensures Asked(w.s, t.id).1.Some?
    ensures forall v :: 0 <= v < |w.s.workers| ==> w.s.workers[v].phase != Taken(t)
  {
    NotTaken(w, t);
    var q := QueueOf(t.priority);
    var x :| 0 <= x < |w.s.queues[q]| && w.s.queues[q][x] == t;
    assert Position(w.s.queues[q], t.id) <= x;
    assert Holder(w.s, t.id, 0) <= q;
  }

  lemma HeldIsFound(w: World, t: Task, v: nat)
    requires Reachable(w) && t.id in w.loc && w.loc[t.id] == AtWorker(v)
    requires t.id in w.stamp && w.stamp[t.id] < |w.log| && w.log[w.stamp[t.id]] == Enqueue(t) && t.isAsync
    requires Consume(t.id) !in w.log && Evict(t.id) !in w.log
    ensures Asked(w.s, t.id).1.Some? <==>
              !(exists u :: 0 <= u < |w.s.workers| && w.s.workers[u].phase == Taken(t))
  {
    HeldTask(w, t, v);
    if w.s.workers[v].phase.Taken? {
      TakenIsMissed(w, t, v);
    } else {
      OnlyHolder(w, t.id, v);
      AskedFinds(w.s, t.id, v);
    }
  }

  /** The worker that holds a task, and what it shows of it. */
  lemma HeldTask(w: World, t: Task, v: nat)
    requires Inv(w) && WorkersTracked(w) && HoldersTracked(w) && t.id in w.loc && w.loc[t.id] == AtWorker(v)
    requires t.id in w.stamp && w.stamp[t.id] < |w.log| && w.log[w.stamp[t.id]] == Enqueue(t) && t.isAsync
    ensures v < |w.s.workers| && Holding(w.s.workers[v].phase) && w.s.workers[v].phase.task == t
    ensures w.s.workers[v].phase.Working? ==> Shows(w.s.workers[v], t.id) || Recorded(w, t.id)
  {
    assert HeldConsistent(w, v) && WorkerConsistent(w, v);
  }

  lemma OnlyHolder(w: World, id: nat, v: nat)
    requires Shape(w) && Located(w) && id in w.loc && w.loc[id] == AtWorker(v)
    ensures forall u :: 0 <= u < |w.s.workers| && Holding(w.s.workers[u].phase) && u != v ==>
              w.s.workers[u].phase.task.id != id
  {
  }

  lemma AskedFinds(s: State, id: nat, v: nat)
    requires s.Valid() && v < |s.workers|
    requires Shows(s.workers[v], id) || Lookup(s.track, id).Some?
    ensures Asked(s, id).1.Some?
  {
  }

  lemma NotInQueues(w: World, id: nat)
    requires Reachable(w) && id in w.loc && !w.loc[id].InQueue?
    ensures Holder(w.s, id, 0) == QUEUES
  {
    forall q | 0 <= q < QUEUES
      ensures Position(w.s.queues[q], id) == |w.s.queues[q]|
    {
      forall j | 0 <= j < |w.s.queues[q]| ensures w.s.queues[q][j].id != id { }
    }
  }

  lemma TakenIsMissed(w: World, t: Task, v: nat)
    requires Reachable(w) && t.id in w.loc && w.loc[t.id] == AtWorker(v)
    requires v < |w.s.workers| && w.s.workers[v].phase == Taken(t)
    ensures Asked(w.s, t.id).1.None?
  {
    NotInQueues(w, t.id);
    assert WorkerConsistent(w, v);
    forall u | 0 <= u < |w.s.workers|
      ensures !Shows(w.s.workers[u], t.id)
    {
      NotShown(w, t.id, v, u);
    }
  }

  lemma NotShown(w: World, id: nat, v: nat, u: nat)
    requires Shape(w) && Located(w) && WorkersTracked(w) && id in w.loc && w.loc[id] == AtWorker(v)
    requires u < |w.s.workers| && (u == v ==> w.s.workers[v].phase.Taken?)
    ensures !Shows(w.s.workers[u], id)
  {
    assert WorkerConsistent(w, u) && HeldConsistent(w, u);
  }

  lemma RunCons(w: World, step: Step, rest: seq<Step>)
    requires Inv(w)
    ensures Inv(Next(w, step)) && Run(w, [step] + rest) == Run(Next(w, step), rest)
  {
    StepKeeps(w, step);
    assert ([step] + rest)[1..] == rest;
  }

  lemma {:induction false} RunAppend(w: World, a: seq<Step>, b: seq<Step>)
    requires Reachable(w)
    ensures Reachable(Run(w, a)) && Run(w, a + b) == Run(Run(w, a), b)
    decreases a
  {
    RunReachable(w, a);
    if a == [] {
      assert a + b == b;
    } else {
      StepReachable(w, a[0]);
      assert (a + b)[1..] == a[1..] + b;
      RunAppend(Next(w, a[0]), a[1..], b);
    }
  }
}
