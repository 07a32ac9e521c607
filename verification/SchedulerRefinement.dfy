/** How the operations that take several steps of the state machine are composed of them. */
module SchedulerRefinement {
  import opened ResultTable
  import opened Scheduler
  import opened SchedulerRuns
  import opened SchedulerTheorems

  // ---------------------------------------------------------------- enqueue

  /** An `enqueue_task` that nothing interrupts is the check, the id allocation and the insertion. */
  lemma EnqueueIsThreeSteps(w: World, sub: nat, priority: int, isAsync: bool, resp: Resp, now: nat)
    requires Reachable(w) && sub !in w.flights && |w.flights| < w.submitters
    ensures var v := Run(w, [CheckRoom(sub, priority, isAsync, resp), AllocId(sub, now), InsertTask(sub)]);
            && v.flights == w.flights
            && v.s == if HasRoom(w.s, w.capacity, priority)
                      then Inserted(w.s.(nextTaskId := w.s.nextTaskId + 1), Stamped(w.s, priority, isAsync, resp, now))
                      else w.s
  {
    var check, alloc, insert := CheckRoom(sub, priority, isAsync, resp), AllocId(sub, now), InsertTask(sub);
    RunThree(w, check, alloc, insert);
    if HasRoom(w.s, w.capacity, priority) {
      RoomForOne(w, sub, priority, isAsync, resp, now);
    }
  }

  lemma RunThree(w: World, a: Step, b: Step, c: Step)
    requires Inv(w)
    ensures Inv(Next(w, a)) && Inv(Next(Next(w, a), b))
    ensures Run(w, [a, b, c]) == Next(Next(Next(w, a), b), c)
  {
    RunCons(w, a, [b, c]);
    RunCons(Next(w, a), b, [c]);
    RunCons(Next(Next(w, a), b), c, []);
  }

  lemma RoomForOne(w: World, sub: nat, priority: int, isAsync: bool, resp: Resp, now: nat)
    requires Shape(w) && sub !in w.flights && |w.flights| < w.submitters && HasRoom(w.s, w.capacity, priority)
    ensures var u := Next(Next(w, CheckRoom(sub, priority, isAsync, resp)), AllocId(sub, now));
            && Shape(u)
            && var v := Next(u, InsertTask(sub));
               && v.flights == w.flights
               && v.s == Inserted(w.s.(nextTaskId := w.s.nextTaskId + 1), Stamped(w.s, priority, isAsync, resp, now))
  {
    Allocates(w, sub, priority, isAsync, resp, now);
    PutPutRemove(w.flights, sub, Checked(priority, isAsync, resp), Ready(Stamped(w.s, priority, isAsync, resp, now)));
  }

  lemma PutPutRemove(m: map<nat, Flight>, k: nat, f: Flight, g: Flight)
    requires k !in m
    ensures m[k := f][k := g] - {k} == m
  {
  }

  lemma Allocates(w: World, sub: nat, priority: int, isAsync: bool, resp: Resp, now: nat)
    requires Shape(w) && sub !in w.flights && |w.flights| < w.submitters && HasRoom(w.s, w.capacity, priority)
    ensures var u := Next(Next(w, CheckRoom(sub, priority, isAsync, resp)), AllocId(sub, now));
            var t := Stamped(w.s, priority, isAsync, resp, now);
            && u.flights == w.flights[sub := Checked(priority, isAsync, resp)][sub := Ready(t)]
            && u.s == w.s.(nextTaskId := t.id)
  {
  }

  // ---------------------------------------------------------------- the watchdog

  lemma OneWatch(w: World, k: nat, now: nat)
    requires Shape(w) && k < |w.s.workers|
    ensures Next(w, WatchWorker(k, now)).s == Watched(w.s, k, now)
    ensures Shape(Next(w, WatchWorker(k, now))) && |Next(w, WatchWorker(k, now)).s.workers| == |w.s.workers|
  {
    WatchedValid(w.s, k, now);
  }

  lemma WatchedNext(s: State, n: nat, now: nat)
    requires s.Valid() && n < |s.workers|
    ensures Watched(WatchedUpTo(s, n, now), n, now) == WatchedUpTo(s, n + 1, now)
  {
  }

  function WatchStep(w: World, k: nat, now: nat): (v: World)
    requires Shape(w) && k < |w.s.workers|
    ensures Shape(v) && |v.s.workers| == |w.s.workers| && v.s == Watched(w.s, k, now)
  {
    OneWatch(w, k, now);
    Next(w, WatchWorker(k, now))
  }

  /** The world after the watchdog has checked workers 0 to n - 1, one step of the state machine each. */
  function Checks(w: World, n: nat, now: nat): (v: World)
    requires Shape(w) && n <= |w.s.workers|
    ensures Shape(v) && |v.s.workers| == |w.s.workers|
  {
    if n == 0 then w else WatchStep(Checks(w, n - 1, now), n - 1, now)
  }

  lemma ChecksNext(w: World, n: nat, now: nat)
    requires Shape(w) && n < |w.s.workers|
    ensures Checks(w, n + 1, now).s == Watched(Checks(w, n, now).s, n, now)
  {
  }

  /** A watchdog callback that nothing interrupts is one such step for each worker, in order. */
  lemma {:induction false} WatchdogIsSteps(w: World, n: nat, now: nat)
    requires Shape(w) && n <= |w.s.workers|
    ensures Checks(w, n, now).s == WatchedUpTo(w.s, n, now)
  {
    if n > 0 {
      WatchdogIsSteps(w, n - 1, now);
      var r := WatchedUpTo(w.s, n - 1, now);
      calc {
        Checks(w, n, now).s;
      == { ChecksNext(w, n - 1, now); }
        Watched(r, n - 1, now);
      == { WatchedNext(w.s, n - 1, now); }
        WatchedUpTo(w.s, n, now);
      }
    }
  }
}
