# Ainos OS: verified models

This project models four parts of Ainos OS in Dafny and proves what they promise:

1. **The AI task scheduler** (`kernel/ai-scheduler-main.c`): five bounded priority queues, a worker
   pool, a watchdog, cancellation and a fixed-size result table.
   `Scheduler.dfy` and `ResultTable.dfy` hold the data structures as classes whose methods refine
   functions on a `State` value; `SchedulerRuns.dfy` turns every atomic step into a step of a state
   machine that any number of submitters, workers, watchdog ticks, cancels and queries interleave
   in; `SchedulerTheorems.dfy` states what every run keeps, `SchedulerStatistics.dfy` what the
   counters say, `SchedulerQuery.dfy` the invariant that queries rest on, and `SchedulerAnswers.dfy`
   what a query answers.
   `SchedulerRefinement.dfy` composes whole operations of steps, `SchedulerScans.dfy` takes a query
   apart into its scans, `SchedulerInterruption.dfy` says when an interrupted query still finds a
   task, and `SchedulerWitnesses.dfy` holds runs that reach the limits.
2. **Semantic search arithmetic and the context table** (`kernel/ai-syscalls-main.c`,
   `kernel/ai-vector-accel-main.c`): `VectorSearch.dfy` with `SearchScores.dfy`, and `ContextTable.dfy`
   with `ContextReads.dfy`.
3. **The plugin runtime** (`plugins/api.py`): `StableSort.dfy`, `PluginHooks.dfy`, `Events.dfy`,
   `EventBus.dfy`, `EventRuns.dfy`, `ServiceRegistry.dfy` and `PluginLifecycle.dfy`.
4. **Translation data** (gettext, extraction, sync, JSON, database and translator files):
   `Trees.dfy` with `DictMerges.dfy` and `DictSync.dfy` for the three deep merges, `FlatRecords.dfy`
   with `DictPaths.dfy` for trees built from flat records, `PoEscape.dfy`, `PoText.dfy`,
   `PoParser.dfy`, `PotPrinter.dfy` and `PoEntries.dfy` for PO files, and `MoCatalogue.dfy` for MO files.

Code that changes state is a class or a method with loops; its contract equates the new state with
a function of the old one, and the promises are lemmas about that function. Mutable nested
dictionaries are objects of a class `Dict` with a ghost tree and a ghost set of all dictionaries
below them. `Wrappers.dfy` holds types that several modules share.

## Where the model makes a choice

- Floats are exact reals. 64-bit counters and times do not wrap.
- `ai_sched_submit` never copies a priority into the task, so `enqueue_task` is modelled for an
  arbitrary priority. The fullness check, the id allocation and the locked insert are separate steps;
  one dequeue, one cancel, one watchdog check of a worker and one query are one step each. The scans
  of a query at different moments are treated in `SchedulerScans` and `SchedulerInterruption`.
- A worker's own task is kept apart from the shared `busy` and `current_task`. A task that the
  watchdog fails is still finished by its worker later and counted as completed then; nothing is
  claimed about finishing exactly once.
- Kernel allocation succeeds, and `ktime_get` is a parameter of each operation.
- A uuid is a number from a counter. Filters and callbacks of the event bus are parameters of each
  publish, so they may behave differently every time; hook handlers are a parameter of each trigger,
  and may depend on how many handlers ran before.
- `json.dumps` is a parameter, and so is the decoding of MO bytes to text. In regular expressions
  `\d` is an ASCII digit.
- `ServiceRegistry` values carry who registered them. The source keeps that in the metadata only;
  the extra field serves the statements about ownership and is read by nothing else.
- The MO encoder of `MoCatalogue` is the layout of the GNU gettext manual, section "The Format of
  GNU MO Files", and not code of the repository. It exists to state the round trip.

## Where the code and its documentation differ

- A one-shot subscription is documented as removed after its first delivery (`plugins/api.py:605`).
  The code removes it at the first event of its type even if its filter rejected that event, and
  keeps it, already called, when a later filter raises: `EventRuns.OnceFate`, `EventRuns.NeverAgainIff`
  and `EventRuns.OnceCalledTwice`.
- `HookRegistry.trigger` is documented to raise for an unknown hook and returns no results
  (`plugins/api.py:433-439`).
- `Hook.unregister_all` returns the number of handlers that stay, not of those removed
  (`plugins/api.py:232-240`).
- `register` and `register_factory` do not look at aliases, so a chain of aliases can become a cycle
  on which `get` never returns: `ServiceRegistry.RegisteringOverAliasLoops`,
  `ServiceRegistry.AlwaysEndsIff`.
- Services and factories of one name share a metadata entry, so a plugin's singleton can outlive its
  clean-up: `ServiceRegistry.NothingLeftIff`, `ServiceRegistry.AlwaysOwnedIff` and
  `ServiceRegistry.SingletonOutlivesPlugin`.
- `_unescape_po_string` is documented to handle octal and hex escapes and does not:
  `PoEscape.UnescapeFixedIff` and `PoEscape.OctalAndHexKept`. It is not the inverse of `_escape_pot` on
  every string: `PoEscape.EscapeRoundTripIff`.
- `ai_sched_query` misses a task between its dequeue and the store to `current_task`:
  `SchedulerTheorems.QueryFindsAccepted`, `SchedulerWitnesses.QueryMissesTaken`. It also misses one
  that moves while the query is between two scans, for instance by completing
  (`SchedulerScans.ScansMissCompleting`, `SchedulerInterruption.QueryMissesFirst`). Only a task whose
  record is already in the table is safe from every interleaving, unless there is no worker at all:
  `SchedulerInterruption.AlwaysFoundIff`.
- With N submitters in flight a queue can grow to its capacity plus N - 1:
  `SchedulerTheorems.QueueNeverExceeds`, `SchedulerWitnesses.QueueBoundAttained`.

## Model

| member | source | states |
|---|---|---|
| `VectorSearch.DotProduct` | kernel/ai-vector-accel-main.c:116-122 | the accumulating loop computes the sum of products |
| `VectorSearch.CauchySchwarz` | kernel/ai-vector-accel-main.c:116-122 | the square of the dot product of any two vectors is at most the product of their own dot products |
| `VectorSearch.FloatSqrt` | kernel/ai-syscalls-main.c:78-91 | the loop returns the 20th Newton iterate, and 0 for arguments that are not positive |
| `VectorSearch.NewtonAbove` | kernel/ai-syscalls-main.c:86-88 | every iterate from the first on has a square of at least x |
| `VectorSearch.NewtonDescends` | kernel/ai-syscalls-main.c:86-88 | from the first iterate on the iterates never increase |
| `VectorSearch.NewtonErrorLaw` | kernel/ai-syscalls-main.c:86-88 | the exact relation between consecutive errors |
| `VectorSearch.NewtonError` | kernel/ai-syscalls-main.c:86-88 | after n rounds the error is at most (r - 1)^2 / 2^n, never negative |
| `VectorSearch.SqrtBounds` | kernel/ai-syscalls-main.c:78-91 | the returned value exceeds the root r by at most (r - 1)^2 / 2^20 and is never below it |
| `VectorSearch.NormDominates` | kernel/ai-syscalls-main.c:621-626 | the guarded norm is never below the true norm and never near zero, so no division by zero |
| `VectorSearch.GuardedNorm` | kernel/ai-syscalls-main.c:656-660 | computing a norm with its 1.0 guard gives that positive norm |
| `VectorSearch.SimilarityBounded` | kernel/ai-syscalls-main.c:621-666 | for every two vectors of equal length the similarity lies in [-1, 1] |
| `VectorSearch.SimilaritySymmetric` | kernel/ai-syscalls-main.c:621-666 | swapping query and row does not change the score |
| `VectorSearch.ScoreTimesNorms` | kernel/ai-syscalls-main.c:621-662 | the score times the two norms is the dot product, so it is positive, negative or zero with it |
| `SearchScores.DotLinear` | kernel/ai-vector-accel-main.c:116-122 | the dot product is linear in each argument |
| `SearchScores.DotUnit` | kernel/ai-vector-accel-main.c:116-122 | against the i-th unit vector it is the i-th coordinate |
| `SearchScores.NormNearLength` | kernel/ai-syscalls-main.c:656-660 | a vector of length r of at least 0.000001 is divided by r and at most (r - 1)^2 / 2^20 more |
| `SearchScores.ZeroScores` | kernel/ai-syscalls-main.c:656-662 | a zero vector is divided by 1 and scores 0 against everything |
| `SearchScores.ScoreNearCosine` | kernel/ai-syscalls-main.c:644-666 | the score of vectors that are not tiny is the cosine of their angle up to an explicit error |
| `SearchScores.SelfScore` | kernel/ai-syscalls-main.c:644-666 | a vector scores against itself within twice that relative error of 1 |
| `VectorSearch.ScoreVector` | kernel/ai-syscalls-main.c:644-666 | one iteration of the search loop yields the similarity, within [-1, 1], which times the two norms is the dot product |
| `VectorSearch.SemanticScores` | kernel/ai-syscalls-main.c:584-666 | a request is accepted exactly under the listed checks; then every row has its index and the score that times the two norms is its dot product with the query, and top_k is the least of the request (10 for 0), db_size and 1000 |
| `ContextTable.KeyComparison` | kernel/ai-syscalls-main.c:287-289 | the strncmp test finds exactly the entries whose key is the truncated key |
| `ContextTable.StrncmpIsPrefixEquality` | kernel/ai-syscalls-main.c:287-289 | strncmp is zero exactly when the first n characters agree |
| `ContextTable.FullTable` | kernel/ai-syscalls-main.c:283-303 | a slot is free exactly when there are fewer entries than slots |
| `ContextTable.Table.FindSlot` | kernel/ai-syscalls-main.c:282-303 | the scan prefers the slot that holds the key over a free one and fails only when neither exists |
| `ContextTable.Table.Store` | kernel/ai-syscalls-main.c:273-327 | the slot array refines a map update with a fresh id; only a new key in a full table fails |
| `ContextTable.Table.Retrieve` | kernel/ai-syscalls-main.c:334-390 | lookup by id or by key reads the one map; an expired entry is deleted and reported as a timeout, a short buffer as no space |
| `ContextTable.RetrievedAt` | kernel/ai-syscalls-main.c:347-381 | a lookup that addresses an entry reads that entry, whichever way it is addressed |
| `ContextTable.NextEffect` | kernel/ai-syscalls-main.c:273-390 | every call changes at most the stored key, hands out only the next id and removes only expired entries |
| `ContextTable.DeadIdStaysDead` | kernel/ai-syscalls-main.c:273-390 | an id without an entry never resolves again, in any run |
| `ContextTable.ReplacedIdNeverResolves` | kernel/ai-syscalls-main.c:287-319 | the id of a replaced entry never resolves again, in any run |
| `ContextTable.ExpiredIdNeverResolves` | kernel/ai-syscalls-main.c:356-368 | the id of an entry found expired never resolves again, in any run |
| `ContextTable.LiveEntrySurvives` | kernel/ai-syscalls-main.c:273-390 | an entry that is not overwritten and not expired survives every run unchanged |
| `ContextTable.StoredValueReadBack` | kernel/ai-syscalls-main.c:273-390 | until it is overwritten or expires a stored value is read back by key and by id |
| `ContextReads.NamesAlike` | kernel/ai-syscalls-main.c:287-289 | two names address one entry exactly when they are equal or agree on their first 127 characters |
| `ContextReads.ReadAfterStore` | kernel/ai-syscalls-main.c:273-390 | every later request by key or by id, while the key is not stored again: the value or no-space before the limit, a timeout that removes the entry from the limit on, invalid once it is removed, which no call before the limit can do |
| `ResultTable.TaskTrack.Add` | kernel/ai-scheduler-main.c:192-234 | the two scans and the eviction index refine the table update |
| `ResultTable.TaskTrack.Query` | kernel/ai-scheduler-main.c:237-258 | the scan refines lookup and removal |
| `ResultTable.AddIsMapUpdate` | kernel/ai-scheduler-main.c:192-234 | an add is a map update that loses at most one other id, and one only when every slot is in use and the id is new |
| `ResultTable.Victim` | kernel/ai-scheduler-main.c:223-231 | an id is evicted exactly when the table is full and does not have the new id |
| `ResultTable.QueryConsumes` | kernel/ai-scheduler-main.c:237-258 | a query returns the latest record, removes it and touches no other |
| `ResultTable.WindowKept` | kernel/ai-scheduler-main.c:192-234 | after any adds of distinct ids each slot holds the latest of the ids that fall on it |
| `ResultTable.MostRecentKept` | kernel/ai-scheduler-main.c:192-234 | in a run of adds of distinct ids exactly the most recent SIZE records are found |
| `ResultTable.OnlyAddedIdsFound` | kernel/ai-scheduler-main.c:192-234 | nothing else is found |
| `Scheduler.AiScheduler.EnqueueTask` | kernel/ai-scheduler-main.c:265-288 | fails exactly when the queue's counter has reached its capacity; else appends the task with the next id to the queue of its clamped priority |
| `Scheduler.AiScheduler.DequeueTask` | kernel/ai-scheduler-main.c:291-317 | takes the first task of the highest non-empty queue |
| `Scheduler.TopBelow` | kernel/ai-scheduler-main.c:296-314 | the queue chosen is not empty and all higher ones are |
| `Scheduler.AiScheduler.CancelTask` | kernel/ai-scheduler-main.c:320-343 | removes the first task with the id from the lowest queue that has it |
| `Scheduler.AiScheduler.FindTask` | kernel/ai-scheduler-main.c:328-338 | the list scan finds the first position of the id |
| `Scheduler.AiScheduler.Take` | kernel/ai-scheduler-main.c:370-376 | a worker's dequeue leaves the shared worker fields alone |
| `Scheduler.AiScheduler.Announce` | kernel/ai-scheduler-main.c:378-379 | the two stores make the held task visible |
| `Scheduler.AiScheduler.Complete` | kernel/ai-scheduler-main.c:410-430 | finishing updates response and counters and records an asynchronous task in the table |
| `Scheduler.AiScheduler.Clear` | kernel/ai-scheduler-main.c:432-433 | the worker clears its slot |
| `Scheduler.AiScheduler.WatchdogCallback` | kernel/ai-scheduler-main.c:444-484 | the loop fails every visible task past its deadline, in worker order, and clears those workers' slots |
| `Scheduler.AiScheduler.Query` | kernel/ai-scheduler-main.c:695-750 | looks in the table, then in the queues from the lowest, then at the workers |
| `SchedulerRuns.StepKeeps` | kernel/ai-scheduler-main.c:265-484 | every step of every interleaving keeps the invariant on places, order and log |
| `SchedulerTheorems.RunReachable` | kernel/ai-scheduler-main.c:265-484 | every run keeps places, order, conservation, the capacity bound and what queries rest on |
| `SchedulerTheorems.TasksConserved` | kernel/ai-scheduler-main.c:265-433 | in every run accepted tasks equal queued plus cancelled plus held plus completed |
| `SchedulerTheorems.LiveIdsDistinct` | kernel/ai-scheduler-main.c:182-185 | in every run the ids of queued and held tasks are distinct and at most next_task_id |
| `SchedulerTheorems.QueueNeverExceeds` | kernel/ai-scheduler-main.c:270-283 | with N racing submitters no queue exceeds its capacity plus N - 1, and each counter equals its list length |
| `SchedulerWitnesses.QueueBoundAttained` | kernel/ai-scheduler-main.c:270-283 | some run takes any queue that has room at all to that bound |
| `SchedulerTheorems.StartedWasEnqueued` | kernel/ai-scheduler-main.c:281-317 | in every run a started task was enqueued before, so that the order law speaks about every start |
| `SchedulerTheorems.StartOrder` | kernel/ai-scheduler-main.c:291-317 | when a task starts, every task that was ahead of it by priority or age has left its queue |
| `SchedulerTheorems.HigherPriorityFirst` | kernel/ai-scheduler-main.c:291-317 | in the numbers of the caller: a higher priority within 0 to 4 goes first, equal ones by age, and what lies outside counts as the nearest end |
| `SchedulerTheorems.StartsAtMostOnceAndNeverIfCancelled` | kernel/ai-scheduler-main.c:291-343 | a started id starts once and is never cancelled, a cancelled one never starts |
| `SchedulerTheorems.QueryFindsAccepted` | kernel/ai-scheduler-main.c:695-750 | a query that nothing interrupts finds an accepted asynchronous task that was not cancelled, consumed or evicted exactly when it is not between dequeue and the store to current_task; watchdog steps included |
| `SchedulerWitnesses.QueryMissesTaken` | kernel/ai-scheduler-main.c:370-379 | a run after which such a task is not found |
| `SchedulerAnswers.QueryAnswers` | kernel/ai-scheduler-main.c:695-750 | what a query answers about an accepted task: the last report a step of the run made, with all its numbers; else Pending in a queue, Running on a worker that shows it, and nothing otherwise |
| `SchedulerAnswers.TableHasLastReport` | kernel/ai-scheduler-main.c:192-258 | while nobody consumed or evicted it the table has exactly the last report, Completed by a finishing worker or Failed by the watchdog |
| `SchedulerAnswers.WatchdogLaw` | kernel/ai-scheduler-main.c:453-479 | the watchdog clears a worker exactly when it has shown its task for more than 60000 ms since it was enqueued |
| `SchedulerAnswers.TimeoutsMean` | kernel/ai-scheduler-main.c:453-479 | the timeout counter is the number of such checks in the run |
| `SchedulerScans.ScansTogether` | kernel/ai-scheduler-main.c:710-746 | at one moment the three scans are the atomic query |
| `SchedulerScans.ScansFindResting` | kernel/ai-scheduler-main.c:710-746 | the three scans at three moments find a task that does not move between them exactly when no worker is between dequeuing and announcing it |
| `SchedulerScans.ScansMissCompleting` | kernel/ai-scheduler-main.c:710-746 | any task that a worker shows is missed by all three scans when it completes between the queue scan and the worker scan |
| `SchedulerInterruption.AlwaysFoundIff` | kernel/ai-scheduler-main.c:710-746 | an interrupted query finds an outstanding task under every interleaving of its scans exactly when the record is already in the table or there is no worker |
| `SchedulerInterruption.QueryMissesFirst` | kernel/ai-scheduler-main.c:710-746 | five steps from the start the first task runs, and an interrupted query misses it when it finishes before the worker scan |
| `SchedulerRefinement.EnqueueIsThreeSteps` | kernel/ai-scheduler-main.c:265-288 | an uninterrupted enqueue is the check, the id allocation and the insertion, or nothing when the queue is full |
| `SchedulerRefinement.WatchdogIsSteps` | kernel/ai-scheduler-main.c:453-479 | an uninterrupted watchdog callback is one step for each worker, in order |
| `SchedulerStatistics.StatisticsAgree` | kernel/ai-scheduler-main.c:416-465 | in every run each started task is held or completed once, inferences equal completions, tokens are 128 for each, and timeouts never exceed starts |
| `StableSort.SortIsStable` | plugins/api.py:220-221 | sorting by key sorts and keeps the order among equal keys |
| `StableSort.OnlyStableSort` | plugins/api.py:220-221 | there is only one such result |
| `StableSort.SortTied` | plugins/api.py:717-718 | sorting keeps whatever relation holds between entries of equal key |
| `StableSort.FilterSorts` | plugins/api.py:232-240 | dropping entries and sorting commute |
| `StableSort.RemoveFirstSorts` | plugins/api.py:223-230 | removing one entry and sorting commute |
| `PluginHooks.Hook.Register` | plugins/api.py:203-221 | append and re-sort keep the handlers equal to the stably sorted registrations in force |
| `PluginHooks.Hook.Unregister` | plugins/api.py:223-230 | removes the first registration of the handler in calling order, and reports false exactly when there is none |
| `PluginHooks.Hook.UnregisterAll` | plugins/api.py:232-240 | exactly the plugin's registrations go; the rest keep their order |
| `PluginHooks.Hook.Trigger` | plugins/api.py:262-299 | the results are those of the handlers up to the first that raises or, with short-circuiting, answers; a raise names its plugin |
| `PluginHooks.TriggeredOnce` | plugins/api.py:262-299 | that statement determines the outcome |
| `PluginHooks.TriggeredIff` | plugins/api.py:262-299 | the outcome told from the calls: the plugin of the first handler that raises, or the answers up to the end or the first value that cuts the trigger short |
| `PluginHooks.NoShortCircuit` | plugins/api.py:262-299 | without short-circuiting all handlers answer unless one raises |
| `PluginHooks.ShortCircuit` | plugins/api.py:281-288 | with it every result before the last is None, and a run cut short ends with an answer |
| `PluginHooks.CalledInOrder` | plugins/api.py:219-221 | handlers run by priority, and in registration order among equal priorities |
| `PluginHooks.HookRegistry.RegisterHook` | plugins/api.py:337-366 | a taken name is refused, a new one gets an empty hook |
| `PluginHooks.HookRegistry.GetOrCreateHook` | plugins/api.py:373-389 | the known hook, or a new empty one |
| `PluginHooks.HookRegistry.UnregisterPlugin` | plugins/api.py:400-406 | over all hooks exactly the plugin's registrations go |
| `PluginHooks.HookRegistry.Trigger` | plugins/api.py:416-439 | triggers the named hook; an unknown name gives no results |
| `PluginHooks.OthersKept` | plugins/api.py:400-406 | every other plugin's registrations stay, in their order |
| `Events.SubscribeValid` | plugins/api.py:587-631 | a subscription is added to the live ones and keeps every list ordered by priority and age with unique ids |
| `Events.KeepValid` | plugins/api.py:633-669 | removing subscriptions keeps the order and removes exactly those |
| `Events.DeliveryOrder` | plugins/api.py:703-738 | one publish calls callbacks in non-decreasing priority, named before wildcard, older before younger, and unless a filter raises exactly the live matching ones |
| `Events.PublishServes` | plugins/api.py:703-738 | the same without the model's own terms: kinds and filters of those called, ranks, wildcards and ages of their order |
| `EventBus.EventBus.Subscribe` | plugins/api.py:587-631 | append and re-sort refine the abstract subscription |
| `EventBus.EventBus.Unsubscribe` | plugins/api.py:633-647 | the scans remove exactly the subscription with the id and report whether there was one |
| `EventBus.EventBus.UnsubscribePlugin` | plugins/api.py:649-665 | exactly the plugin's subscriptions go and emptied types are forgotten |
| `EventBus.EventBus.Publish` | plugins/api.py:672-701 | an expired event only counts as dropped; another is delivered and counted |
| `EventBus.EventBus.DeliverTo` | plugins/api.py:703-744 | queueing, calling and removing one-shot subscriptions refine the abstract delivery |
| `EventBus.EventBus.CallAll` | plugins/api.py:724-738 | each matching callback is called in queue order and counted as delivered or as an error |
| `EventBus.OnceByIds` | plugins/api.py:720-744 | removing the queued one-shot subscriptions by id removes all that the event concerns, also those whose filter rejected it |
| `EventRuns.RunValid` | plugins/api.py:587-744 | in every run the lists stay ordered and the ids unique |
| `EventRuns.CountersBalance` | plugins/api.py:684-738 | in every run published plus dropped is the number of publishes, and delivered plus errors the number of callbacks called |
| `EventRuns.CountersMean` | plugins/api.py:684-738 | in every run published counts the unexpired events, dropped the expired ones, delivered the callbacks that returned and errors those that failed |
| `EventRuns.GoneNeverCalled` | plugins/api.py:633-669 | a removed subscription is never called again |
| `EventRuns.OnceFate` | plugins/api.py:703-744 | while no filter raises a one-shot subscription is called once if its filter accepts the first event that concerns it and never otherwise |
| `EventRuns.OnceAtMostOnce` | plugins/api.py:703-744 | in every run in which no filter raises a one-shot subscription is called at most once |
| `EventRuns.OnceGoneIff` | plugins/api.py:740-744 | after an event that concerns it a one-shot subscription is gone exactly when no filter raised |
| `EventRuns.RaiseRepeatsOnce` | plugins/api.py:724-744 | when a filter raises after its call a one-shot subscription is called again by the same event |
| `EventRuns.NeverAgainIff` | plugins/api.py:724-744 | a one-shot subscription that a publish called is never called again, whatever follows, exactly when no filter raised in that publish |
| `EventRuns.OnceCalledTwice` | plugins/api.py:724-744 | there is a run in which a one-shot subscription is called twice |
| `ServiceRegistry.AliasKeepsEnding` | plugins/api.py:889-911 | a new alias keeps every chain finite exactly when its target does not lead back to it |
| `ServiceRegistry.StepKeepsEndingIff` | plugins/api.py:806-985 | the same law for every operation of the registry: only register_alias can make an endless chain, and exactly then |
| `ServiceRegistry.AlwaysEndsIff` | plugins/api.py:806-985 | both resolution loops end in every state of a history exactly when no register_alias in it names a target that resolves to the new alias |
| `ServiceRegistry.StepSound` | plugins/api.py:806-985 | an operation that does not register over an alias keeps names and aliases apart and all chains finite |
| `ServiceRegistry.PoliteRunsResolve` | plugins/api.py:806-985 | in every history of such operations both resolution loops end for every name |
| `ServiceRegistry.PoliteHistoriesResolve` | plugins/api.py:806-985 | in particular from an empty registry |
| `ServiceRegistry.RegisteringOverAliasLoops` | plugins/api.py:832-973 | registering over an alias can lead to a cycle of two aliases |
| `ServiceRegistry.AliasIsTransparent` | plugins/api.py:928-931 | an alias gives what its target gives |
| `ServiceRegistry.RegisteredIsFound` | plugins/api.py:928-940 | a registered service is found under its name, unless an alias of that name leads elsewhere |
| `ServiceRegistry.GetAfterRegister` | plugins/api.py:806-935 | what every name gives after a registration: the new service if it resolves to that name, else what it gave |
| `ServiceRegistry.GetAfterFactory` | plugins/api.py:836-935 | a registered factory is what is found, unless a service has the name |
| `ServiceRegistry.UnregisterUndoes` | plugins/api.py:806-985 | unregistering a new service, factory or alias gives back the registry |
| `ServiceRegistry.ServiceRegistry.AddService` | plugins/api.py:806-846 | refuses a taken name unless told to overwrite; else records service and metadata |
| `ServiceRegistry.ServiceRegistry.AddFactory` | plugins/api.py:848-887 | the same for factories |
| `ServiceRegistry.ServiceRegistry.AddAlias` | plugins/api.py:889-911 | succeeds exactly for a free name and an existing target, with the source's order of errors |
| `ServiceRegistry.ServiceRegistry.Actual` | plugins/api.py:929-931 | the resolution loop ends, for a finite chain of any length, at its last name |
| `ServiceRegistry.ServiceRegistry.GetService` | plugins/api.py:913-943 | after resolution singletons go before factories |
| `ServiceRegistry.ServiceRegistry.GetMetadata` | plugins/api.py:950-957 | the metadata under the resolved name |
| `ServiceRegistry.ServiceRegistry.Remove` | plugins/api.py:959-973 | removes a singleton, else a factory, else an alias of the name |
| `ServiceRegistry.ServiceRegistry.RemovePlugin` | plugins/api.py:975-985 | removes all names whose metadata names the plugin, and counts them |
| `ServiceRegistry.RegisterKeepsOwned` | plugins/api.py:832-845 | registering keeps the metadata true of every owner exactly when the name is not another plugin's factory |
| `ServiceRegistry.FactoryKeepsOwned` | plugins/api.py:872-887 | the same for factories |
| `ServiceRegistry.UnregisterKeepsOwned` | plugins/api.py:961-969 | unregistering does so exactly when the name is not both |
| `ServiceRegistry.StepKeepsOwnedIff` | plugins/api.py:806-985 | the same condition for every operation |
| `ServiceRegistry.AlwaysOwnedIff` | plugins/api.py:806-985 | the metadata stays true throughout a history exactly when every operation meets its condition |
| `ServiceRegistry.RunOwned` | plugins/api.py:806-985 | it does while no name is both a singleton and a factory |
| `ServiceRegistry.NothingLeftIff` | plugins/api.py:975-985 | a leaving plugin leaves nothing exactly when the metadata of all it registered names it |
| `ServiceRegistry.SingletonOutlivesPlugin` | plugins/api.py:832-985 | a history after which a singleton is still there although its plugin was unregistered |
| `ServiceRegistry.LeavesOthersAlone` | plugins/api.py:975-985 | with true metadata it takes all it registered and nothing else |
| `PluginLifecycle.RunTracks` | plugins/api.py:1364-1396 | over every run of the bus a plugin that subscribes through its helper lists exactly its live subscriptions |
| `PluginLifecycle.CleanupAfterAnyRun` | plugins/api.py:1288-1297 | after any run, unsubscribing the listed ids removes the plugin's subscriptions and leaves all others in place |
| `PluginLifecycle.Plugin.RegisterHookHandler` | plugins/api.py:1301-1319 | adds the handler under the plugin's name and changes no other hook |
| `PluginLifecycle.Plugin.SubscribeEvent` | plugins/api.py:1364-1396 | subscribes under the plugin's name and keeps its list of ids complete |
| `PluginLifecycle.Plugin.Initialize` | plugins/api.py:1230-1248 | the registries are attached; the state is INITIALIZED, or ERROR when the plugin's own initialisation raises |
| `PluginLifecycle.Plugin.RegisterService` | plugins/api.py:1400-1431 | registers under the plugin's name, and succeeds exactly when there is a registry and the name is free or overwritten |
| `PluginLifecycle.Plugin.RegisterFactory` | plugins/api.py:1433-1463 | the same for a factory, with its own map of names |
| `PluginLifecycle.Plugin.Cleanup` | plugins/api.py:1275-1297 | reaching STOPPED leaves no handler, subscription or service of the plugin and keeps all others in their order; a raising clean-up changes nothing |
| `PluginLifecycle.Plugin.UnsubscribeAll` | plugins/api.py:1292-1295 | the loop over the listed ids |
| `Trees.MergeLeaves` | loaders/json.py:252-273 | the leaves of a merge are the overlay's and those base leaves that the overlay neither replaces nor cuts off |
| `Trees.MergeDictionaries` | loaders/json.py:252-273 | the dictionaries of a merge, empty ones included, are the overlay's and those of the base that it does not touch |
| `Trees.CutOffIff` | loaders/json.py:266-271 | a path is cut off exactly when a proper prefix of it is a leaf |
| `Trees.MergeIdempotent` | loaders/json.py:252-273 | merging a tree with itself gives it back |
| `Trees.MergeAbsorbs` | loaders/json.py:252-273 | merging the same overlay again changes nothing |
| `Trees.MergeAssociativeIff` | loaders/json.py:252-273 | the exact condition under which grouping does not matter |
| `Trees.NoFlipAssociates` | loaders/json.py:252-273 | grouping never matters when no path is dictionary, leaf, dictionary |
| `Trees.CoveredIffSwallowed` | loaders/json.py:252-273 | when a merge gives just the overlay |
| `Trees.SyncOverwriteIsMerge` | tools/sync.py:394-428 | with overwrite and without a translator the synchronising merge is the deep merge |
| `Trees.SyncCovers` | tools/sync.py:394-428 | after a run every reference leaf path resolves in the target |
| `Trees.SyncIdempotent` | tools/sync.py:394-428 | without overwrite a second run changes nothing and adds nothing |
| `Trees.SyncKeepsLeafIff` | tools/sync.py:407-426 | without overwrite an existing leaf survives exactly when the reference has no dictionary at its path |
| `Trees.SyncAtLeaf` | tools/sync.py:394-428 | what a run leaves at every leaf of the reference: the target's entry, or the reference text, translated when the translator answers |
| `Trees.SyncElsewhere` | tools/sync.py:394-428 | what it leaves at every other path: the reference's dictionaries and the target's entries, but for those an overwriting leaf replaces |
| `Trees.AddedStep` | tools/sync.py:406-426 | one loop iteration adds exactly the paths under its key |
| `DictMerges.MergeInPlace` | benchmarks/runner.py:153-165 | merging in place leaves the merge of the two trees and keeps the dictionaries apart |
| `DictMerges.MergeNew` | loaders/json.py:252-273 | the pure merge of any two dictionaries, which may share sub-dictionaries, returns a new one with the merge of the two trees and leaves both alone |
| `DictSync.MergeTranslations` | tools/sync.py:394-428 | merging in place leaves the synchronised tree; the count is the number of reference leaf paths added, those that did not resolve when nothing is overwritten |
| `FlatRecords.JoinSplit` | loaders/database.py:325 | joining undoes splitting, empty segments included |
| `FlatRecords.SplitJoin` | core/translator.py:428 | splitting undoes joining of parts without separator |
| `FlatRecords.SetLookup` | loaders/database.py:313-335 | a write changes its own path, everything below it and what it goes through, and nothing else |
| `FlatRecords.LeavesAreSurvivors` | loaders/database.py:167-174 | the leaves of the loaded tree are exactly the records that no later record's key equals, extends or is a prefix of |
| `FlatRecords.LookupAfterLoad` | loaders/database.py:167-174 | looking up a key gives its last value exactly when no later key is a proper segment-prefix or extension |
| `FlatRecords.TextAfterLoad` | loaders/database.py:167-174 | for every key a text is found exactly when a surviving record wrote it there |
| `FlatRecords.KeysAreLeafPaths` | core/translator.py:553-563 | the collected keys are the leaf paths, joined |
| `FlatRecords.KeysAfterLoad` | core/translator.py:553-563 | after a load the collected keys are exactly those of the surviving records |
| `FlatRecords.DeepSetIff` | tools/sync.py:511-521 | the strict write fails exactly when a leaf cuts the path off and else writes like the loader |
| `DictPaths.DeepGetIn` | core/translator.py:418-437 | the walking loop finds what the tree has under the key |
| `DictPaths.SetNested` | loaders/database.py:313-335 | writing in place through nested dictionaries has the effect on the tree |
| `DictPaths.DeepSetIn` | tools/sync.py:511-521 | the strict write in place; a failing one leaves the tree as it was |
| `DictPaths.Load` | loaders/database.py:167-174 | the loop builds the fold of the records |
| `DictPaths.CollectKeysIn` | core/translator.py:553-563 | the recursive walk collects those keys |
| `PoEscape.UnescapePoString` | loaders/gettext.py:405-422 | the loop over the table applies its five replacements in order |
| `PoEscape.EscapeIsEncode` | tools/extract.py:546-553 | the five replacements of the printer code five characters, each once |
| `PoEscape.EscapeAppend` | tools/extract.py:546-553 | escaping goes character by character |
| `PoEscape.EscapeCharacter` | tools/extract.py:546-553 | the code of every single character |
| `PoEscape.UnescapeEscape` | loaders/gettext.py:405-422 | the exact effect of unescape after escape on every string |
| `PoEscape.EscapeRoundTripIff` | tools/extract.py:546-553 | the string comes back exactly when no backslash in it is directly followed by n, t or r |
| `PoEscape.RawDecodeSurvives` | loaders/gettext.py:405-422 | what comes out once comes back on every further round |
| `PoEscape.UnescapeFixedIff` | loaders/gettext.py:405-422 | a string stays as it is exactly when no backslash in it is directly followed by a backslash, n, t, r or a quote |
| `PoEscape.OctalAndHexKept` | loaders/gettext.py:405-422 | an octal and a hex escape come back unchanged |
| `PoText.SplitJoinedLines` | tools/extract.py:211 | splitting joined lines gives them back |
| `PoText.BreakAfter` | loaders/gettext.py:304 | every line break character ends a line |
| `PoText.BothAfter` | loaders/gettext.py:304 | a carriage return and a line feed are one break |
| `PoText.StripPadded` | loaders/gettext.py:305 | stripping removes all space at both ends |
| `PoText.KeywordLine` | loaders/gettext.py:298-300 | a printed keyword line is read back by its own pattern, whatever its text |
| `PoText.KeywordSpaced` | loaders/gettext.py:298-300 | any space may stand between keyword and text |
| `PoText.ContinuationLine` | loaders/gettext.py:302 | a line of quoted text is a continuation line |
| `PoParser.ParsePoString` | loaders/gettext.py:284-402 | the loop over lines with its flags and current entry refines the line state machine |
| `PoEntries.ParsesEntries` | loaders/gettext.py:284-402 | parsing any text made of entries, with or without blank lines and comments between them, gives the last translation of each id; n plural forms are dumped as the map from 0 to n - 1; continuation lines belong to the field before them |
| `PoEntries.ParsesPrinted` | loaders/gettext.py:284-402 | the same for the lines of such entries joined by line feeds |
| `PoEntries.OrphanRead` | loaders/gettext.py:316-317 | plural forms without an id are stored under the plural id at a gap, and lost when another entry follows at once |
| `PoEntries.PaddedStep` | loaders/gettext.py:305 | space around a line does not matter |
| `PotPrinter.ExtractToPot` | tools/extract.py:179-211 | the nested loops print the header and each entry |
| `PotPrinter.EntryComments` | tools/extract.py:195-204 | the comments of an entry are its locations with their lines, then its contexts |
| `PotPrinter.EntrySteps` | tools/extract.py:195-209 | a printed entry adds its decoded key with an empty translation to whatever was parsed before |
| `PotPrinter.PotParsesTo` | loaders/gettext.py:284-402 | parsing any printed file gives the header text and exactly the decoded keys |
| `PotPrinter.PotRoundTripIff` | tools/extract.py:179-211 | printing and parsing keeps the set of keys exactly when every key survives the escaping; every key has an empty translation |
| `MoCatalogue.ReadStringTable` | loaders/gettext.py:210-219 | the loop reads descriptors until the file ends |
| `MoCatalogue.LoadMo` | loaders/gettext.py:182-240 | for arbitrary bytes the decoder takes only slices in bounds and reports each of the three errors under its own condition |
| `MoCatalogue.LoadErrors` | loaders/gettext.py:182-208 | the condition of each of the three errors, told from the bytes |
| `MoCatalogue.TableMeans` | loaders/gettext.py:210-219 | a table of any file is read up to its length or to the end of the file |
| `MoCatalogue.ReadMessages` | loaders/gettext.py:225-238 | descriptors that point outside are skipped, later messages win |
| `MoCatalogue.LastReadableWins` | loaders/gettext.py:225-238 | for any two tables what is found under an id is the translation of the last readable pair that gives it |
| `MoCatalogue.ReadableFound` | loaders/gettext.py:225-238 | every id that a readable pair gives is found, whatever pairs are skipped |
| `MoCatalogue.LoadsCatalogue` | loaders/gettext.py:182-240 | a file laid out in either byte order decodes to the last translation of each non-empty id |
| `MoCatalogue.ByteOrderIrrelevant` | loaders/gettext.py:185-195 | both byte orders of a catalogue decode alike |
| `MoCatalogue.EncodeIsLaid` | loaders/gettext.py:182-240 | a written catalogue has the layout |
| `MoCatalogue.MoRoundTrip` | loaders/gettext.py:182-240 | writing a catalogue in either byte order and loading it gives its last-wins map |

## Left out

- EventBus.EventBus.UnsubscribePlugin: the returned count is not modelled, because the code counts wildcard subscriptions after removing them.
- EventBus.EventBus.Publish: delivery in the publisher's thread only; delivery threads and publishing from inside a callback are not modelled.
- DictPaths.SetNested: the loop of `_set_nested_value` is one recursive call for each part of the key, in place on the same dictionaries, because the ghost trees of all parents change after the leaf does.
- DictPaths.DeepSetIn: likewise recursive where `_deep_set` loops.
- DictMerges.MergeInPlace: the two dictionaries must not share sub-dictionaries with each other or between siblings, as for data read from files; merging `{a: {p: 1}}` into a dictionary whose entries a and b are one object would change b as well.
- DictSync.MergeTranslations: the target must not share sub-dictionaries between siblings or with the reference, for the same reason; the reference may share its own.
- SchedulerTheorems.QueryFindsAccepted: a query is one atomic step here; SchedulerInterruption.AlwaysFoundIff is the law for a query that other steps interrupt between its scans.
- SchedulerScans.ScansFindResting: speaks of a task that does not move between the scans; SchedulerInterruption.AlwaysFoundIff is the law for all of them.
- SchedulerTheorems.TasksConserved: counts a task that the watchdog failed as held until its worker finishes it, as the code does; no exactly-once claim.
- Scheduler.AiScheduler.Query: a table answer carries the response as stored, whose task id the worker never sets for asynchronous tasks.
- The early return from the interruptible wait in `ai_sched_submit`, after which a task that is still queued is freed.
- Freeing of memory, pid references, signals, `complete_all` wake-ups, thermal throttling and the power modes of the scheduler.
- Sorting and copying out the top k results of the semantic search, and all user copies.
- Embedding computation, the model table, SIMD variants and quantisation.
- Memory pools, interrupt, power, device mapper, crypto and audit kernel files: field copies, stubs, textbook counters and rings.
- Plural, locale, context, fallback and number formatting rules of the translator: short case splits.
- Caches, file access, databases, logging, sockets and command lines of the translation tools.
- The namespace separator of the database loader is fixed to ".", its default.
- A hook handler that is not callable, hook contexts and `inspect.signature`, `list_services`, `list_hooks`, `clear` and the get-or-none variants of the plugin runtime: plumbing.
- Locks and threads of the plugin runtime: every call is one step.
- Overridable plugin callbacks are represented by whether they raise; what they do to the registries goes through the modelled helpers.
- Starting and stopping a plugin, hot reload, configuration changes and the plugin manager.
