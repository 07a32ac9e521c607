/** Runs of the scheduler that reach its limits. */
module SchedulerWitnesses {
  import opened ResultTable
  import opened Scheduler
  import opened SchedulerRuns
  import opened SchedulerTheorems

  // ---------------------------------------------------------------- the capacity bound is attained

  const NO_RESP := Resp(0, Pending, 0, 0, 0)

  /** Submitters 0..n-1 have passed the check of queue q and nobody else is in flight. */
  ghost predicate Racing(w: World, q: nat, n: nat) {
    && |w.flights| == n
    && (forall sub: nat :: sub in w.flights <==> sub < n)
    && (forall sub :: sub in w.flights ==> w.flights[sub] == Checked(q, true, NO_RESP))
  }

  lemma RaceStep(w: World, q: nat, n: nat)
    requires Shape(w) && q < QUEUES && Racing(w, q, n) && n < w.submitters && w.s.counts[q] < w.capacity[q]
    ensures var v := Next(w, CheckRoom(n, q, true, NO_RESP));
            Racing(v, q, n + 1) && v.s == w.s && v.capacity == w.capacity && v.submitters == w.submitters
  {
    OneMore(w.flights, n, Checked(q, true, NO_RESP));
    assert n !in w.flights;
  }

  lemma OneMore(flights: map<nat, Flight>, sub: nat, f: Flight)
    requires sub !in flights
    ensures |flights[sub := f]| == |flights| + 1
  {
    assert flights[sub := f].Keys == flights.Keys + {sub};
  }

  lemma {:induction false} AllCheck(w: World, q: nat, n: nat, m: nat) returns (steps: seq<Step>)
    requires Reachable(w) && q < QUEUES && Racing(w, q, n) && n <= m <= w.submitters && w.s.counts[q] < w.capacity[q]
    ensures var v := Run(w, steps);
            Racing(v, q, m) && v.s == w.s && v.capacity == w.capacity && v.submitters == w.submitters
    decreases m - n
  {
    steps := [];
    if n < m {
      RaceStep(w, q, n);
      var step := CheckRoom(n, q, true, NO_RESP);
      StepReachable(w, step);
      var rest := AllCheck(Next(w, step), q, n + 1, m);
      steps := [step] + rest;
    }
  }

  /** The last of n racing submitters allocates its id and inserts. */
  lemma LandOne(w: World, q: nat, n: nat)
    requires Reachable(w) && q < QUEUES && Racing(w, q, n + 1)
    ensures var v := Run(w, [AllocId(n, 0), InsertTask(n)]);
            && Racing(v, q, n) && |v.s.queues[q]| == |w.s.queues[q]| + 1
            && v.capacity == w.capacity && v.submitters == w.submitters
  {
    LandSteps(w, q, n);
    RunTwo(w, AllocId(n, 0), InsertTask(n));
  }

  lemma LandSteps(w: World, q: nat, n: nat)
    requires Shape(w) && q < QUEUES && Racing(w, q, n + 1)
    ensures var u := Next(w, AllocId(n, 0));
            && Shape(u)
            && var v := Next(u, InsertTask(n));
               Racing(v, q, n) && Shape(v) && |v.s.queues[q]| == |w.s.queues[q]| + 1
  {
    var u := Next(w, AllocId(n, 0));
    var v := Next(u, InsertTask(n));
    assert v.flights.Keys == w.flights.Keys - {n};
    forall sub | sub in v.flights ensures v.flights[sub] == w.flights[sub] { }
  }

  lemma RunTwo(w: World, a: Step, b: Step)
    requires Inv(w)
    ensures Inv(Next(w, a)) && Run(w, [a, b]) == Next(Next(w, a), b)
  {
    RunCons(w, a, [b]);
    RunCons(Next(w, a), b, []);
  }

  lemma {:induction false} AllLand(w: World, q: nat, n: nat) returns (steps: seq<Step>)
    requires Reachable(w) && q < QUEUES && Racing(w, q, n)
    ensures var v := Run(w, steps);
            && Racing(v, q, 0) && |v.s.queues[q]| == |w.s.queues[q]| + n
            && v.capacity == w.capacity && v.submitters == w.submitters
    decreases n
  {
    steps := [];
    if n > 0 {
      LandOne(w, q, n - 1);
      var two := [AllocId(n - 1, 0), InsertTask(n - 1)];
      RunReachable(w, two);
      var rest := AllLand(Run(w, two), q, n - 1);
      RunAppend(w, two, rest);
      steps := two + rest;
    }
  }

  /** One submitter at a time fills queue q up to any length within its capacity. */
  lemma {:induction false} FillTo(w: World, q: nat, n: nat) returns (steps: seq<Step>)
    requires Reachable(w) && q < QUEUES && Racing(w, q, 0) && w.submitters > 0
    requires |w.s.queues[q]| <= n <= w.capacity[q]
    ensures var v := Run(w, steps);
            Racing(v, q, 0) && |v.s.queues[q]| == n && v.capacity == w.capacity && v.submitters == w.submitters
    decreases n - |w.s.queues[q]|
  {
    steps := [];
    if |w.s.queues[q]| < n {
      var check := AllCheck(w, q, 0, 1);
      RunReachable(w, check);
      var land := AllLand(Run(w, check), q, 1);
      RunReachable(Run(w, check), land);
      var rest := FillTo(Run(Run(w, check), land), q, n);
      RunAppend(Run(w, check), land, rest);
      RunAppend(w, check, land + rest);
      steps := check + (land + rest);
    }
  }

  /** The bound is exact: N submitters can take any queue to capacity + N - 1. */
  lemma QueueBoundAttained(c: Config, q: nat) returns (steps: seq<Step>)
    requires c.Valid() && q < QUEUES && c.submitters > 0 && c.capacity[q] > 0
    ensures |After(c, steps).s.queues[q]| == c.capacity[q] + c.submitters - 1
  {
    var w := Init(c.capacity, c.submitters, c.pool, c.tableSize);
    InitReachable(c);
    var fill := FillTo(w, q, c.capacity[q] - 1);
    RunReachable(w, fill);
    var v := Run(w, fill);
    var check := AllCheck(v, q, 0, c.submitters);
    RunReachable(v, check);
    var land := AllLand(Run(v, check), q, c.submitters);
    RunAppend(v, check, land);
    RunAppend(w, fill, check + land);
    steps := fill + (check + land);
  }

  // ---------------------------------------------------------------- a query can miss a task

  /** The first task ever submitted, asynchronously and at the lowest priority. */
  const FIRST := Task(1, 0, true, 0, MAX_RUNTIME_MS, NO_RESP)

  /** The steps that bring it to a worker: check, id, insertion, dequeue. */
  const TO_WORKER := [CheckRoom(0, 0, true, NO_RESP), AllocId(0, 0), InsertTask(0), TakeTask(0)]

  lemma FirstAllocated(w: World)
    requires Shape(w) && w.flights == map[] && w.submitters > 0 && w.capacity[0] > 0
    requires w.s.queues == seq(QUEUES, _ => []) && w.s.nextTaskId == 0
    ensures Shape(Next(w, TO_WORKER[0])) && Shape(Next(Next(w, TO_WORKER[0]), TO_WORKER[1]))
    ensures var v := Next(Next(w, TO_WORKER[0]), TO_WORKER[1]);
            && v.flights == map[0 := Ready(FIRST)] && v.log == w.log
            && v.s.queues == w.s.queues && v.s.workers == w.s.workers
  {
    assert w.s.counts[0] == 0;
  }

  lemma FirstInserted(w: World)
    requires Shape(w) && w.flights == map[0 := Ready(FIRST)] && w.s.queues == seq(QUEUES, _ => []) && w.log == []
    ensures var v := Next(w, TO_WORKER[2]);
            && Shape(v) && v.log == [Enqueue(FIRST)] && v.s.workers == w.s.workers
            && v.s.queues == w.s.queues[0 := [FIRST]]
  {
    assert w.s.queues[0] + [FIRST] == [FIRST];
    assert [] + [Enqueue(FIRST)] == [Enqueue(FIRST)];
  }

  lemma FirstTaken(w: World)
    requires Shape(w) && w.log == [Enqueue(FIRST)] && |w.s.workers| > 0 && w.s.workers[0].phase.Idle?
    requires w.s.queues == seq(QUEUES, _ => [])[0 := [FIRST]]
    ensures var v := Next(w, TO_WORKER[3]);
            && v.log == [Enqueue(FIRST), Start(FIRST)]
            && |v.s.workers| > 0 && v.s.workers[0].phase == Taken(FIRST)
  {
    assert TopBelow(w.s, QUEUES) == 0 by {
      assert w.s.queues[0] != [];
      assert forall p :: 0 < p < QUEUES ==> w.s.queues[p] == [];
    }
  }

  lemma RunFour(w: World, a: Step, b: Step, c: Step, d: Step)
    requires Inv(w)
    ensures Inv(Next(w, a)) && Inv(Next(Next(w, a), b)) && Inv(Next(Next(Next(w, a), b), c))
    ensures Run(w, [a, b, c, d]) == Next(Next(Next(Next(w, a), b), c), d)
  {
    RunCons(w, a, [b, c, d]);
    RunCons(Next(w, a), b, [c, d]);
    RunTwo(Next(Next(w, a), b), c, d);
  }

  /** The world in which the first task has been taken. */
  ghost predicate FirstWithWorker(w: World) {
    && w.log == [Enqueue(FIRST), Start(FIRST)]
    && |w.s.workers| > 0 && w.s.workers[0].phase == Taken(FIRST)
  }

  lemma ReachesWorker(w: World)
    requires Inv(w) && w.flights == map[] && w.submitters > 0 && w.capacity[0] > 0
    requires w.s.queues == seq(QUEUES, _ => []) && w.s.nextTaskId == 0 && w.log == []
    requires |w.s.workers| > 0 && w.s.workers[0].phase.Idle?
    ensures FirstWithWorker(Run(w, TO_WORKER))
  {
    FirstAllocated(w);
    FirstInserted(Next(Next(w, TO_WORKER[0]), TO_WORKER[1]));
    FirstTaken(Next(Next(Next(w, TO_WORKER[0]), TO_WORKER[1]), TO_WORKER[2]));
    RunFour(w, TO_WORKER[0], TO_WORKER[1], TO_WORKER[2], TO_WORKER[3]);
  }

  lemma AfterToWorker(c: Config)
    requires c.Valid() && c.submitters > 0 && c.pool > 0 && c.capacity[0] > 0
    ensures FirstWithWorker(After(c, TO_WORKER))
  {
    var w := Init(c.capacity, c.submitters, c.pool, c.tableSize);
    InitInv(c.capacity, c.submitters, c.pool, c.tableSize);
    ReachesWorker(w);
  }

  /** The counterexample: an accepted asynchronous task that nobody cancelled, consumed or evicted is not found. */
  lemma QueryMissesTaken(c: Config)
    requires c.Valid() && c.submitters > 0 && c.pool > 0 && c.capacity[0] > 0
    ensures After(c, TO_WORKER).log == [Enqueue(FIRST), Start(FIRST)]
    ensures Asked(After(c, TO_WORKER).s, FIRST.id).1.None?
  {
    AfterToWorker(c);
    QueryFindsAccepted(c, TO_WORKER, 0);
  }
}
