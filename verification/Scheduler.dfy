/** The AI task scheduler: five bounded priority queues, a worker pool, a watchdog and the
    result table. Each kernel function is a method proved against a function on snapshots. */
module Scheduler {
  import opened Wrappers
  import opened ResultTable

  const QUEUES: nat := 5
  const MAX_RUNTIME_MS: nat := 60000

  datatype Error = InvalidParam | QueueFull

  datatype Task = Task(id: nat, priority: int, isAsync: bool, enqueueTime: nat, deadline: nat, resp: Resp)

  /** Where a worker thread stands in its loop: between dequeue and the store to
      `current_task`, executing, or past the result but before it clears its slot. */
  datatype Phase = Idle | Taken(task: Task) | Working(task: Task) | Finished(task: Task)

  /** `phase` is the thread's own position and local task; `current` and `busy` are the shared fields. */
  datatype Worker = Worker(phase: Phase, current: Option<Task>, busy: bool)

  datatype State = State(
    queues: seq<seq<Task>>,
    counts: seq<nat>,
    workers: seq<Worker>,
    nextTaskId: nat,
    inferences: nat,
    tokens: nat,
    completed: nat,
    timeouts: nat,
    track: Track)
  {
    /** One list and one counter per priority, the counter equal to the list length. */
    ghost predicate Valid() {
      && |queues| == |counts| == QUEUES
      && (forall q :: 0 <= q < QUEUES ==> counts[q] == |queues[q]|)
      && track.Valid()
    }
  }

  /** `priority_to_queue`: clamp to the range of queue indices. */
  function QueueOf(priority: int): (q: nat)
    ensures q < QUEUES
  {
    if priority > 4 then 4 else if priority < 0 then 0 else priority
  }

  // ---------------------------------------------------------------- enqueue

  predicate HasRoom(s: State, capacity: seq<nat>, priority: int)
    requires |s.counts| == QUEUES == |capacity|
  {
    s.counts[QueueOf(priority)] < capacity[QueueOf(priority)]
  }

  /** The task as stamped after the fullness check: next id, enqueue time and deadline. */
  function Stamped(s: State, priority: int, isAsync: bool, resp: Resp, now: nat): Task {
    Task(s.nextTaskId + 1, priority, isAsync, now, now + MAX_RUNTIME_MS, resp)
  }

  /** The locked part of `enqueue_task`. */
  function Inserted(s: State, t: Task): State
    requires s.Valid()
  {
    var q := QueueOf(t.priority);
    s.(queues := s.queues[q := s.queues[q] + [t]], counts := s.counts[q := s.counts[q] + 1])
  }

  // ---------------------------------------------------------------- dequeue

  /** Highest non-empty queue at or below index q - 1, or -1. */
  function TopBelow(s: State, q: nat): (top: int)
    requires s.Valid() && q <= QUEUES
    ensures -1 <= top < q
    ensures top >= 0 ==> s.queues[top] != []
    ensures forall p :: top < p < q ==> s.queues[p] == []
  {
    if q == 0 then -1
    else if s.counts[q - 1] == 0 || s.queues[q - 1] == [] then TopBelow(s, q - 1)
    else q - 1
  }

  function Dequeued(s: State): (State, Option<Task>)
    requires s.Valid()
  {
    var q := TopBelow(s, QUEUES);
    if q < 0 then (s, None)
    else
      (s.(queues := s.queues[q := s.queues[q][1..]], counts := s.counts[q := s.counts[q] - 1]),
       Some(s.queues[q][0]))
  }

  // ---------------------------------------------------------------- cancel

  /** First position of `id` in a queue, or its length. */
  function Position(queue: seq<Task>, id: nat): (i: nat)
    ensures i <= |queue|
    ensures i < |queue| ==> queue[i].id == id
    ensures forall j :: 0 <= j < i ==> queue[j].id != id
  {
    if queue == [] || queue[0].id == id then 0 else 1 + Position(queue[1..], id)
  }

  /** Lowest queue from `q` on that holds `id`, or QUEUES. */
  function Holder(s: State, id: nat, q: nat): (h: nat)
    requires s.Valid() && q <= QUEUES
    ensures q <= h <= QUEUES
    ensures h < QUEUES ==> Position(s.queues[h], id) < |s.queues[h]|
    ensures forall p :: q <= p < h ==> Position(s.queues[p], id) == |s.queues[p]|
    decreases QUEUES - q
  {
    if q == QUEUES || Position(s.queues[q], id) < |s.queues[q]| then q else Holder(s, id, q + 1)
  }

  function Removed(s: State, q: nat, i: nat): State
    requires s.Valid() && q < QUEUES && i < |s.queues[q]|
  {
    s.(queues := s.queues[q := s.queues[q][..i] + s.queues[q][i + 1..]], counts := s.counts[q := s.counts[q] - 1])
  }

  function Withdrawn(s: State, id: nat): (State, bool)
    requires s.Valid()
  {
    var q := Holder(s, id, 0);
    if q == QUEUES then (s, false) else (Removed(s, q, Position(s.queues[q], id)), true)
  }

  // ---------------------------------------------------------------- worker

  function Announced(s: State, w: nat): State
    requires w < |s.workers| && s.workers[w].phase.Taken?
  {
    var t := s.workers[w].phase.task;
    s.(workers := s.workers[w := Worker(Working(t), Some(t), true)])
  }

  /** The response the worker writes when it completes a task. */
  function CompletedResp(t: Task, now: nat): Resp {
    t.resp.(status := Status.Completed, tokens := 128, inferenceMs := 100,
      totalMs := if now >= t.enqueueTime then now - t.enqueueTime else 0)
  }

  /** Completion: statistics first, then the result record of an asynchronous task. */
  function Completion(s: State, w: nat, now: nat): State
    requires s.Valid() && w < |s.workers| && s.workers[w].phase.Working?
  {
    var t := s.workers[w].phase.task;
    var r := CompletedResp(t, now);
    s.(workers := s.workers[w := s.workers[w].(phase := Finished(t))],
       inferences := s.inferences + 1,
       tokens := s.tokens + r.tokens,
       completed := s.completed + 1,
       track := if t.isAsync then Added(s.track, t.id, Record(Status.Completed, r)) else s.track)
  }

  function Cleared(s: State, w: nat): State
    requires w < |s.workers|
  {
    s.(workers := s.workers[w := Worker(Idle, None, false)])
  }

  // ---------------------------------------------------------------- watchdog

  predicate TimedOut(worker: Worker, now: nat) {
    worker.busy && worker.current.Some? && now > worker.current.value.deadline
  }

  /** The watchdog's treatment of one worker: it fails the task and clears the shared fields,
      but the thread still holds the task. */
  function Watched(s: State, w: nat, now: nat): State
    requires s.Valid() && w < |s.workers|
  {
    if !TimedOut(s.workers[w], now) then s
    else
      var t := s.workers[w].current.value;
      s.(workers := s.workers[w := s.workers[w].(current := None, busy := false)],
         timeouts := s.timeouts + 1,
         track := if t.isAsync
                  then Added(s.track, t.id, Record(Status.Failed, t.resp.(status := Status.Failed)))
                  else s.track)
  }

  function WatchedUpTo(s: State, n: nat, now: nat): (r: State)
    requires s.Valid() && n <= |s.workers|
    ensures r.Valid() && |r.workers| == |s.workers|
    ensures r.queues == s.queues && r.counts == s.counts
    ensures forall w :: n <= w < |s.workers| ==> r.workers[w] == s.workers[w]
  {
    if n == 0 then s
    else
      var r := WatchedUpTo(s, n - 1, now);
      WatchedValid(r, n - 1, now);
      Watched(r, n - 1, now)
  }

  lemma WatchedValid(s: State, w: nat, now: nat)
    requires s.Valid() && w < |s.workers|
    ensures Watched(s, w, now).Valid()
  {
    if TimedOut(s.workers[w], now) {
      var t := s.workers[w].current.value;
      AddedValid(s.track, t.id, Record(Status.Failed, t.resp.(status := Status.Failed)));
    }
  }

  // ---------------------------------------------------------------- query

  /** First worker from `w` on whose shared fields show `id` running, or the pool size. */
  function Runner(s: State, id: nat, w: nat): (r: nat)
    requires w <= |s.workers|
    ensures w <= r <= |s.workers|
    ensures r < |s.workers| ==> Shows(s.workers[r], id)
    ensures forall v :: w <= v < r ==> !Shows(s.workers[v], id)
    decreases |s.workers| - w
  {
    if w == |s.workers| || Shows(s.workers[w], id) then w else Runner(s, id, w + 1)
  }

  predicate Shows(worker: Worker, id: nat) {
    worker.busy && worker.current.Some? && worker.current.value.id == id
  }

  /** `ai_sched_query`: the result table first (consuming the record), then the queues, then
      the workers. */
  function Asked(s: State, id: nat): (State, Option<Resp>)
    requires s.Valid()
  {
    var (track, answer) := Queried(s.track, id);
    if answer.Some? then (s.(track := track), answer)
    else
      var q := Holder(s, id, 0);
      if q < QUEUES then
        (s, Some(s.queues[q][Position(s.queues[q], id)].resp.(status := Pending, taskId := id)))
      else
        var w := Runner(s, id, 0);
        if w < |s.workers| then
          (s, Some(s.workers[w].current.value.resp.(status := Running, taskId := id)))
        else
          (s, None)
  }

  // ---------------------------------------------------------------- the kernel object

  class AiScheduler {
    const capacity: seq<nat>
    const queues: array<seq<Task>>
    const counts: array<nat>
    const workers: array<Worker>
    const track: TaskTrack
    var nextTaskId: nat
    var inferences: nat
    var tokens: nat
    var completed: nat
    var timeouts: nat

    ghost predicate Valid()
      reads this, queues, counts, workers, track, track.slots
    {
      && |capacity| == QUEUES
      && queues as object != workers as object
      && queues as object != track.slots as object
      && counts as object != track.slots as object
      && workers as object != track.slots as object
      && track.Valid()
      && Snapshot().Valid()
    }

    ghost function Snapshot(): State
      reads this, queues, counts, workers, track, track.slots
    {
      State(queues[..], counts[..], workers[..], nextTaskId, inferences, tokens, completed, timeouts,
            track.Snapshot())
    }

    constructor (capacity: seq<nat>, pool: nat, tableSize: nat)
      requires |capacity| == QUEUES && tableSize > 0
      ensures Valid() && this.capacity == capacity
      ensures Snapshot() == Initial(pool, tableSize)
    {
      this.capacity := capacity;
      queues := new seq<Task>[QUEUES](_ => []);
      counts := new nat[QUEUES](_ => 0);
      workers := new Worker[pool](_ => Worker(Idle, None, false));
      track := new TaskTrack(tableSize);
      nextTaskId, inferences, tokens, completed, timeouts := 0, 0, 0, 0, 0;
    }

    /** One undisturbed call of `enqueue_task`. */
    method EnqueueTask(priority: int, isAsync: bool, resp: Resp, now: nat) returns (error: Option<Error>, id: nat)
      requires Valid()
      modifies this`nextTaskId, queues, counts
      ensures Valid()
      ensures error.None? <==> old(HasRoom(Snapshot(), capacity, priority))
      ensures error.Some? ==> error.value == QueueFull && Snapshot() == old(Snapshot())
      ensures error.None? ==>
                && id == old(nextTaskId) + 1
                && Snapshot() == Inserted(old(Snapshot().(nextTaskId := id)),
                                          old(Stamped(Snapshot(), priority, isAsync, resp, now)))
      ensures error.None? ==>
                queues[QueueOf(priority)] == old(queues[QueueOf(priority)])
                                             + [Task(id, priority, isAsync, now, now + 60000, resp)]
    {
      var q := QueueOf(priority);
      if counts[q] >= capacity[q] {
        return Some(QueueFull), 0;
      }
      nextTaskId := nextTaskId + 1;
      id := nextTaskId;
      var task := Task(id, priority, isAsync, now, now + MAX_RUNTIME_MS, resp);
      queues[q] := queues[q] + [task];
      counts[q] := counts[q] + 1;
      error := None;
    }

    method DequeueTask() returns (task: Option<Task>)
      requires Valid()
      modifies queues, counts
      ensures Valid()
      ensures (Snapshot(), task) == Dequeued(old(Snapshot()))
    {
      var q := QUEUES;
      while q > 0
        invariant 0 <= q <= QUEUES
        invariant Snapshot() == old(Snapshot())
        invariant TopBelow(Snapshot(), QUEUES) == TopBelow(Snapshot(), q)
      {
        q := q - 1;
        if counts[q] == 0 {
          continue;
        }
        if queues[q] != [] {
          task := Some(queues[q][0]);
          queues[q] := queues[q][1..];
          counts[q] := counts[q] - 1;
          return;
        }
      }
      return None;
    }

    method CancelTask(id: nat) returns (ok: bool)
      requires Valid()
      modifies queues, counts
      ensures Valid()
      ensures (Snapshot(), ok) == Withdrawn(old(Snapshot()), id)
    {
      for q := 0 to QUEUES
        invariant Snapshot() == old(Snapshot())
        invariant Holder(Snapshot(), id, 0) == Holder(Snapshot(), id, q)
      {
        var i := FindTask(q, id);
        if i < |queues[q]| {
          Unlink(q, i);
          return true;
        }
      }
      return false;
    }

    /** Takes the i-th task out of a list and counts down. */
    method Unlink(q: nat, i: nat)
      requires Valid() && q < QUEUES && i < |queues[q]|
      modifies queues, counts
      ensures Valid()
      ensures Snapshot() == Removed(old(Snapshot()), q, i)
    {
      queues[q] := queues[q][..i] + queues[q][i + 1..];
      counts[q] := counts[q] - 1;
    }

    /** The list walk that cancel and query share. */
    method FindTask(q: nat, id: nat) returns (i: nat)
      requires Valid() && q < QUEUES
      ensures i == Position(queues[q], id)
    {
      i := 0;
      while i < |queues[q]|
        invariant i <= |queues[q]|
        invariant forall j :: 0 <= j < i ==> queues[q][j].id != id
      {
        if queues[q][i].id == id {
          return;
        }
        i := i + 1;
      }
    }

    /** Worker loop, first part: take a task and leave it in the thread's local variable. */
    method Take(w: nat) returns (got: bool)
      requires Valid() && w < workers.Length && workers[w].phase.Idle?
      modifies queues, counts, workers
      ensures Valid()
      ensures var (s, task) := Dequeued(old(Snapshot()));
              && got == task.Some?
              && Snapshot() == if got then s.(workers := s.workers[w := s.workers[w].(phase := Taken(task.value))])
                               else s
    {
      var task := DequeueTask();
      got := task.Some?;
      if got {
        workers[w] := workers[w].(phase := Taken(task.value));
      }
    }

    method Announce(w: nat)
      requires Valid() && w < workers.Length && workers[w].phase.Taken?
      modifies workers
      ensures Valid() && Snapshot() == Announced(old(Snapshot()), w)
    {
      var task := workers[w].phase.task;
      workers[w] := Worker(Working(task), Some(task), true);
    }

    method Complete(w: nat, now: nat)
      requires Valid() && w < workers.Length && workers[w].phase.Working?
      modifies workers, this`inferences, this`tokens, this`completed, track`evictIdx, track.slots
      ensures Valid() && Snapshot() == Completion(old(Snapshot()), w, now)
    {
      var task := workers[w].phase.task;
      var resp := CompletedResp(task, now);
      inferences := inferences + 1;
      tokens := tokens + resp.tokens;
      completed := completed + 1;
      if task.isAsync {
        track.Add(task.id, Status.Completed, resp);
      }
      workers[w] := workers[w].(phase := Finished(task));
    }

    method Clear(w: nat)
      requires Valid() && w < workers.Length
      modifies workers
      ensures Valid() && Snapshot() == Cleared(old(Snapshot()), w)
    {
      workers[w] := Worker(Idle, None, false);
    }

    method WatchdogCallback(now: nat)
      requires Valid()
      modifies workers, this`timeouts, track`evictIdx, track.slots
      ensures Valid()
      ensures Snapshot() == WatchedUpTo(old(Snapshot()), workers.Length, now)
    {
      for i := 0 to workers.Length
        invariant Valid()
        invariant Snapshot() == WatchedUpTo(old(Snapshot()), i, now)
      {
        if workers[i].busy && workers[i].current.Some? {
          var task := workers[i].current.value;
          if now > task.deadline {
            timeouts := timeouts + 1;
            if task.isAsync {
              track.Add(task.id, Status.Failed, task.resp.(status := Status.Failed));
            }
            workers[i] := workers[i].(current := None, busy := false);
          }
        }
      }
    }

    method Query(id: nat) returns (answer: Option<Resp>)
      requires Valid()
      modifies track.slots
      ensures Valid()
      ensures (Snapshot(), answer) == Asked(old(Snapshot()), id)
    {
      answer := track.Query(id);
      if answer.Some? {
        return;
      }
      for q := 0 to QUEUES
        invariant Snapshot() == old(Snapshot())
        invariant Holder(Snapshot(), id, 0) == Holder(Snapshot(), id, q)
      {
        if counts[q] == 0 {
          continue;
        }
        var i := FindTask(q, id);
        if i < |queues[q]| {
          return Some(queues[q][i].resp.(status := Pending, taskId := id));
        }
      }
      for w := 0 to workers.Length
        invariant Snapshot() == old(Snapshot())
        invariant Runner(Snapshot(), id, 0) == Runner(Snapshot(), id, w)
      {
        if workers[w].busy && workers[w].current.Some? && workers[w].current.value.id == id {
          return Some(workers[w].current.value.resp.(status := Running, taskId := id));
        }
      }
      return None;
    }
  }

  function Initial(pool: nat, tableSize: nat): State {
    State(seq(QUEUES, _ => []), seq(QUEUES, _ => 0), seq(pool, _ => Worker(Idle, None, false)),
          0, 0, 0, 0, 0, Fresh(tableSize))
  }
}
