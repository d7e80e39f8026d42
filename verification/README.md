# VmOrbit: verified models of its scheduling, orchestration and messaging core

VmOrbit is a VM management server. This project models the parts of it that are algorithms and
protocols rather than plumbing, and proves what they guarantee:

* **Orchestration order** (`DependencyGraph`, `ExecutionOrder`, `EnvironmentGraph`, `OrchestrationRun`):
  Kahn's algorithm with FIFO tie-breaking and a fallback for cycles, the graph updates that feed it, and
  the handler that executes the order step by step.
* **Cron** (`CronText`, `CronParser`, `CronLaws`, `CronSyntax`, `Calendar`, `CronNext`, `CronAnswers`,
  `ScheduleEngine`): the text parser,
  the skipping search over the Gregorian calendar, and the scheduler that fires from it.
* **Task engine** (`RedisQueue`, `TaskProtocol`, `TaskSafety`, `TaskCancellation`,
  `TaskStranding`, `PoolStarvation`): the ten priority lists as one queue, and the
  workers, poller, enqueuers, cancellers and timers as one interleaved transition system.
* **Bulk parent** (`BulkParent`, `Progress`), **WebSocket hub** (`Hub`, `HubServer`), **approvals**
  (`Approval`), and the **time-window filters** (`Deduplicator`, `RoomThrottle`).

Code that updates things step by step is modelled by methods with loops, or by classes whose methods are
proved to make exactly the step of a state machine; the laws over all runs are proved about the state
machine. `dafny verify dfyconfig.toml` checks everything.

## Premises

* Go's `int` has 64 bits. Every wrap-around that can be reached is modelled (the cron step counter).
* VM ids within an environment are distinct; a unique index and the upsert in `AddVM` keep them so
  (`EnvironmentGraph.Environment.Valid`).
* `sort.Slice` is not stable: `ExecutionOrder.SortBy` promises only a sorted permutation.
* Cron times live in a zone with a fixed whole-minute offset from UTC; `CronNext.Search` works on its local
  minutes.
* Task engine: no crash, shutdown or Redis/database error, and a lock does not expire while its holder is
  between acquire and release. Everything else interleaves, including the push and the "Queued" write, the
  final status write and the lock release, and the three steps of a cancellation.
* Hub: each connection enters the register channel once, and the unregister channel when its read pump stops.
  Until then the pump may join rooms, also before the client is registered and after it was evicted as slow. A
  run ends at its first panic, and `Hub.PanicsIff` says exactly when that is.
* Scheduler: no service edit while a schedule runs. Fires may overlap and their writes may fail;
  `ScheduleEngine.EngineLaw` is for runs in which neither happens.
* Approvals: each operation runs to its end before the next, repository calls succeed, and the step orders of
  a request differ.
* Time-window filters: the clock does not go back, and a browser timer does not go off early.

## Where the code does not do what its comments or callers expect

* **Cron steps can crash the parser.** `for i := lo; i <= hi; i += step` wraps when `lo + step` exceeds the
  largest 64-bit integer and then indexes out of range. `CronLaws.ExpressionPanicsIff` gives the exact
  condition, `CronLaws.DayStepCrashesIff` an expression that shows it. The panic reaches
  API requests only: the service parses every expression before it stores one
  (`ScheduleEngine.NormaliseCron`), so the scheduler never meets it unless the
  table is edited behind the service (`ScheduleEngine.StoredNeverCrashes`).
* **February 29th is lost right after it fires.** The four-year window has 1460 days, one too few. A
  February 29th schedule is found exactly when the next leap day lies within the window
  (`CronNext.LeapDayFoundIff`); after a match it is lost for one day, or for 1461 days across a century that
  is not leap (`CronNext.LeapDayLostFor`).
* **Overlapping fires and failed writes.** Each fire runs in its own goroutine and writes counters from its
  own copy of the record; a failed write is only logged. RunCount grows by one per fire exactly when no fire
  starts while another is under way and every write succeeds (`ScheduleEngine.RunsCountedIffOrderly`). A
  once-schedule fires at most once exactly when no fire starts while another is under way or after a failed
  write (`ScheduleEngine.OnceFiresOnceIff`; `ScheduleEngine.OverlapHappens` and
  `ScheduleEngine.FailedWriteRefires` are the failing runs).
* **A task can be stranded**, that is, be Queued with every worker idle and every list empty, in two ways:
  a "Queued" written after the task already finished (`TaskStranding.LateMarkStrandsATask`), and a second
  copy of the id dropped because the lock holder has written its final status but not yet released the lock
  (`TaskStranding.LateDropStrandsATask`). `TaskSafety.StepStrandsIff` shows these are the only ways. Without them
  nothing is stranded: `TaskSafety.OrderlyRunStrandsNobody`. Such a task stays as it is until a call from
  outside names it (`TaskStranding.LostForever`).
* **Bulk and environment tasks can starve the worker pool.** Their handlers keep a worker while they wait for
  child tasks. The pool stands still with work waiting exactly when every worker does so
  (`PoolStarvation.StuckWithWorkIffStarved`), and stays so until a handler times out or somebody cancels a task
  (`PoolStarvation.StarvedForever`). Fewer such tasks than workers never starve it
  (`PoolStarvation.FewParentsNeverStarve`); as many as workers can (`PoolStarvation.EveryPoolCanStarve`).
* **The hub can panic in two ways, and only these** (`Hub.PanicsIff`). A client evicted as slow whose read pump
  still runs subscribes to a room, and the next broadcast to that room sends on its closed channel
  (`Hub.LateJoinPanics`). A client that subscribes before it is registered, and is evicted before that too, is
  registered with a closed channel; when its read pump stops, its unregistration closes the channel a second
  time (`Hub.DeadRegistrationPanics`). A broadcast to everybody would panic as well, but nothing in the
  repository calls `BroadcastAll`.
* **Slow-client eviction never gives back the per-user count** (`Hub.HubLaw` states the count exactly).
* **`AddDependency` accepts dependencies that close a cycle**; `EnvironmentGraph.AddDependencyClosesCycleIff`
  says exactly which.
* **An escalated approval request is final**: like every status but Pending it can never change again
  (`Approval.SettledRequestsFrozen`).

## Model

| member | source | states |
|---|---|---|
| `ExecutionOrder.ComputeExecutionOrder` | internal/service/environment_service.go:497-590 | the order is a permutation of the VMs; a stop order descends by StopOrder; any other order satisfies the full Kahn specification (prerequisites earlier, FIFO by release then StartOrder, sorted tail in which everybody waits for a tail member) |
| `ExecutionOrder.TopologicalOrder` | internal/service/environment_service.go:508-589 | the non-stop order for arbitrary dependencies, cycles, duplicates and outside ends included |
| `ExecutionOrder.OrderingEdges` | internal/service/environment_service.go:508-518 | keeps exactly the StartBefore and Requires dependencies, as edges from target to source |
| `ExecutionOrder.MemberEdgesExact` | internal/service/environment_service.go:508-540 | the edges of an environment are exactly its StartBefore and Requires dependencies between members, from target to source |
| `ExecutionOrder.BuildGraph` | internal/service/environment_service.go:527-542 | in-degrees count incoming member edges with multiplicity, neighbour lists hold each successor with multiplicity |
| `ExecutionOrder.InitialQueue` | internal/service/environment_service.go:544-553 | the queue starts with exactly the VMs without incoming edges, sorted by StartOrder |
| `ExecutionOrder.DecrementNeighbours` | internal/service/environment_service.go:561-570 | after one emission the in-degrees count edges from VMs not yet emitted, and exactly the VMs that reached zero are queued, once each |
| `ExecutionOrder.Kahn` | internal/service/environment_service.go:555-571 | the work-list loop ends with each VM queued at most once and every VM of in-degree zero emitted |
| `ExecutionOrder.Remaining` | internal/service/environment_service.go:573-583 | the leftover VMs are exactly those not emitted |
| `ExecutionOrder.SortBy` | internal/service/environment_service.go:584-586 | any sorted permutation |
| `ExecutionOrder.TailNonEmptyIffCyclic` | internal/service/environment_service.go:573-589 | the fallback tail is non-empty exactly when the member dependency graph has a cycle |
| `ExecutionOrder.AcyclicOrderIsTopological` | internal/service/environment_service.go:508-589 | with acyclic dependencies every target precedes its source and the tail is empty |
| `ExecutionOrder.OtherKindsDoNotOrder` | internal/service/environment_service.go:508-518 | with dependencies of other kinds only, the order is sorted by StartOrder |
| `ExecutionOrder.KahnOrderDetermined` | internal/service/environment_service.go:544-589 | with different StartOrders the order and its split are unique, so tie-breaking is fully specified |
| `DependencyGraph.EverybodyWaitsMeansCycle` | internal/service/environment_service.go:573-583 | VMs that all wait for each other contain a cycle |
| `DependencyGraph.ForwardOrderMeansAcyclic` | internal/service/environment_service.go:519-571 | an order with all edges forward rules cycles out |
| `EnvironmentGraph.Environment.AddVm` | internal/service/environment_service.go:178-215 | upsert by VM id: ids stay distinct, other VMs and dependencies untouched |
| `EnvironmentGraph.Environment.RemoveVm` | internal/service/environment_service.go:217-234 | removes the VM and exactly the dependencies that mention it, and keeps the graph acyclic |
| `EnvironmentGraph.Environment.AddDependency` | internal/service/environment_service.go:248-279 | refuses exactly self-dependencies and duplicates |
| `EnvironmentGraph.AddDependencyClosesCycleIff` | internal/service/environment_service.go:261-278 | an accepted dependency makes an acyclic environment cyclic exactly when its target already waits for its source |
| `EnvironmentGraph.NewEdgeClosesCycleIff` | internal/service/environment_service.go:261-278 | the same for one more edge of any acyclic graph |
| `OrchestrationRun.Run.constructor` | internal/service/environment_service.go:353-380 | one pending step per VM, numbered in execution order |
| `OrchestrationRun.Run.RunStep` | internal/task/environment_handlers.go:88-131 | one iteration settles its step by its outcome, counts it, and reports progress |
| `OrchestrationRun.Run.RunSteps` | internal/task/environment_handlers.go:79-132 | the loop settles exactly the steps before the first iteration that sees the cancel flag, and logs them in order |
| `OrchestrationRun.Run.Execute` | internal/task/environment_handlers.go:45-170 | completed plus failed equals the steps run; an uncancelled run ends Failed exactly when no step completed |
| `OrchestrationRun.DependenciesSettledBeforeDispatch` | internal/task/environment_handlers.go:82-125 | over acyclic dependencies a VM's task is dispatched only after each VM it depends on is marked completed or failed, for every outcome and cancellation |
| `OrchestrationRun.LogOfSteps` | internal/task/environment_handlers.go:79-124 | a step that runs is settled with its success, and dispatched exactly when its task could be created |
| `OrchestrationRun.SuccessesCounted` | internal/task/environment_handlers.go:97-119 | the completed counter is the number of successful steps |
| `OrchestrationRun.ProgressReports` | internal/task/environment_handlers.go:127-131 | every report counts exactly the steps so far and lies in [10, 95] |
| `OrchestrationRun.ProgressNeverDecreases` | internal/task/environment_handlers.go:127-131 | no report is below an earlier one |
| `OrchestrationRun.ExecuteOrder` | internal/task/environment_handlers.go:60-170 | step by step: completed exactly when its task succeeded, failed when not, untouched from the first iteration that sees the cancel flag; run status, counters and result follow |
| `OrchestrationRun.Orchestrate` | internal/service/environment_service.go:340-412 | the same for the whole path, with the order of the environment: a permutation of its VMs that respects acyclic dependencies |
| `CronText.AtoiItoa` | internal/scheduler/cron.go:200-207 | reading back a printed number gives the number |
| `CronParser.FillProgression` | internal/scheduler/cron.go:166-168 | the stepping loop with its 64-bit counter: sets exactly lo, lo+step, ... up to hi, or panics exactly when lo+step overflows |
| `CronParser.ParsePart` | internal/scheduler/cron.go:152-198 | accepts, rejects or panics as the part's meaning says, and adds exactly its values to the bits |
| `CronParser.ParseBody` | internal/scheduler/cron.go:164-198 | the same for a part without its step suffix |
| `CronParser.ParseRange` | internal/scheduler/cron.go:172-186 | the same for a range |
| `CronParser.ParseSingle` | internal/scheduler/cron.go:188-197 | the same for a single value |
| `CronParser.ParseField` | internal/scheduler/cron.go:142-150 | sets exactly the union of its parts; the first part that is not accepted decides |
| `CronParser.ParseCron` | internal/scheduler/cron.go:42-68 | the five arrays are the characteristic functions of the five denoted sets; errors and panics as specified |
| `CronParser.RepresentationUnique` | internal/scheduler/cron.go:24-30 | the denoted sets determine the schedule |
| `CronLaws.AcceptedFieldsNonEmpty` | internal/scheduler/cron.go:42-68 | every field of an accepted expression is non-empty and in range |
| `CronLaws.FieldIsUnion` | internal/scheduler/cron.go:142-150 | a value is allowed exactly when some part allows it |
| `CronLaws.OnGridIff` | internal/scheduler/cron.go:182-184 | a progression is lo plus whole multiples of step |
| `CronLaws.PartPanicsIff` | internal/scheduler/cron.go:152-186 | a part panics exactly when its loop runs with a step above the largest int minus the start value |
| `CronLaws.FieldPanicsIff` | internal/scheduler/cron.go:142-150 | a field panics exactly when some part does and every earlier part is accepted |
| `CronLaws.ExpressionPanicsIff` | internal/scheduler/cron.go:42-68 | an expression panics exactly when it has five fields and some part of one does, every earlier field and part being accepted |
| `CronLaws.DayStepCrashesIff` | internal/scheduler/cron.go:57 | a stepped day field crashes for exactly one step value and is accepted for all others |
| `CronLaws.FieldsOfSpaced` | internal/scheduler/cron.go:43 | splitting into fields undoes joining with spaces |
| `CronSyntax.RangeField` | internal/scheduler/cron.go:172-186 | "a-b" allows exactly a to b |
| `CronSyntax.SteppedRangeField` | internal/scheduler/cron.go:152-186 | "a-b/s" allows exactly a, a + s, a + 2s, ... up to b |
| `CronSyntax.SteppedStarField` | internal/scheduler/cron.go:152-172 | the wildcard with a step allows every s-th value of the field's range |
| `CronSyntax.SteppedNumberField` | internal/scheduler/cron.go:152-198 | the step of a single value is ignored |
| `CronSyntax.BadRangeField` | internal/scheduler/cron.go:172-186 | a reversed range or one outside the field's range is refused |
| `CronSyntax.BadStepField` | internal/scheduler/cron.go:152-162 | a step below one is refused |
| `CronSyntax.OnlyFiveFields` | internal/scheduler/cron.go:42-46 | anything but five fields is refused |
| `CronSyntax.ListField` | internal/scheduler/cron.go:142-150 | a list means its first part together with the rest |
| `CronSyntax.PairField` | internal/scheduler/cron.go:142-150 | "a,b" allows exactly a and b |
| `CronSyntax.MonthNameField` | internal/scheduler/cron.go:200-207 | a month name in either case allows exactly its number |
| `CronSyntax.WeekdayNameField` | internal/scheduler/cron.go:200-207 | a weekday name in either case allows exactly its number |
| `CronLaws.DailyCronParsesBack` | internal/scheduler/cron.go:120-122 | for all integers: parses exactly when in range, giving that minute and hour with all days allowed |
| `CronLaws.WeeklyCronParsesBack` | internal/scheduler/cron.go:126-128 | the same for a weekday |
| `CronLaws.MonthlyCronParsesBack` | internal/scheduler/cron.go:131-133 | the same for a day of the month |
| `Calendar.DaysBeforeYearClosed` | internal/scheduler/cron.go:81-99 | the calendar's year starts agree with the closed form of the Gregorian rule |
| `Calendar.MonthTable` | internal/scheduler/cron.go:91-99 | month starts agree with the cumulative month table, shifted by one after February of a leap year |
| `Calendar.UnixEpoch` | internal/scheduler/cron.go:90 | the weekday numbering is anchored: 1970-01-01 is a Thursday |
| `Calendar.DateOfParts` | internal/scheduler/cron.go:91-99 | building a time from its own parts gives the time |
| `Calendar.PartsOfDate` | internal/scheduler/cron.go:219 | reading the parts of a built time gives what it was built from |
| `CronNext.NextSetMonth` | internal/scheduler/cron.go:209-226 | finds the next allowed month within 12 iterations; gives up only when no month is allowed |
| `CronNext.ParsedHasMonth` | internal/scheduler/cron.go:221-224 | a parsed schedule allows some month, so the give-up exit is unreachable for it |
| `CronNext.AdvanceToNextMonth` | internal/scheduler/cron.go:209-226 | the start of the next allowed month, skipping no match |
| `CronNext.NextMidnightIsNextDay` | internal/scheduler/cron.go:91-92 | the rebuilt date is midnight of the following day |
| `CronNext.NextHourIsNextHour` | internal/scheduler/cron.go:98-99 | the rebuilt time is the start of the following hour |
| `CronNext.Round` | internal/scheduler/cron.go:79-109 | one iteration either finds a match or skips only minutes that do not match |
| `CronNext.Search` | internal/scheduler/cron.go:76-112 | the skipping search terminates with the answer of the minute-by-minute scan, for every schedule |
| `CronNext.ScanIsLeast` | internal/scheduler/cron.go:70-71 | that answer is the least matching minute of the window, and none exactly when nothing matches |
| `CronNext.Next` | internal/scheduler/cron.go:72-113 | from any instant: the next match is later than it, least, and within 1460 days, or there is none |
| `CronAnswers.MatchesIffAt` | internal/scheduler/cron.go:79-109 | a minute matches exactly when its minute, hour, day, month and weekday are all among the allowed values |
| `CronAnswers.NextOf` | internal/scheduler/cron.go:42-113 | parser and search together: the first later minute with allowed values in all five parts, or none within 1460 days |
| `CronAnswers.NextDaily` | internal/scheduler/cron.go:120-123 | a daily expression runs at the next minute showing its time, and there always is one |
| `CronAnswers.NextWeekly` | internal/scheduler/cron.go:125-128 | a weekly expression runs at the next minute showing its time on its weekday, and there always is one |
| `CronAnswers.NextMonthly` | internal/scheduler/cron.go:130-133 | a monthly expression runs at the next minute showing its time on its day of a month, and there always is one |
| `CronAnswers.ZoneAhead` | internal/scheduler/cron.go:74-75 | a zone ahead of UTC shows the later time |
| `CronAnswers.WeekdayAdvances` | internal/scheduler/cron.go:90 | weekdays follow each other, Sunday after Saturday |
| `CronNext.LeapDayFoundIff` | internal/scheduler/cron.go:76-77 | asked at any minute, a February 29th schedule finds the next leap day exactly when it is less than 1460 days ahead, and otherwise finds nothing |
| `CronNext.LeapDayText` | internal/scheduler/cron.go:42-68 | the expression "0 0 29 2 *" is accepted and parses to the February 29th schedule |
| `CronNext.NextLeapMidnightIsNext` | internal/scheduler/cron.go:76-113 | the next leap day is the first match of the schedule from the given minute on |
| `CronNext.LeapDayLostFor` | internal/scheduler/cron.go:76-77 | between two leap days the schedule is lost for one day, or for 1461 days when the year four later is not leap |
| `ScheduleEngine.ComputeNextRun` | internal/scheduler/engine.go:327-345 | the next run is later than the given time; a once-schedule has none; it panics exactly on expressions that panic the parser |
| `ScheduleEngine.Engine.Compute` | internal/scheduler/engine.go:327-345 | parser and search together compute that next run |
| `ScheduleEngine.Engine.DoTick` | internal/scheduler/engine.go:100-122 | a tick starts a fire of exactly a due schedule with a valid expression, from a copy of its record, and goes down when the parser panics |
| `ScheduleEngine.Engine.Record` | internal/scheduler/engine.go:124-194 | a fire ends by overwriting the run fields with values computed from its own copy, or, when the write fails, by leaving the record alone |
| `ScheduleEngine.PollFiresIff` | internal/scheduler/engine.go:100-122 | a tick fires a schedule exactly when it is enabled, active, due, and its expression is accepted or not needed |
| `ScheduleEngine.LastFire` | internal/scheduler/engine.go:124-131 | a fire that uses up MaxRuns, ends past the expiry date or belongs to a once-schedule is the last one |
| `ScheduleEngine.OtherFiresGoOn` | internal/scheduler/engine.go:124-131 | any other fire leaves the schedule active |
| `ScheduleEngine.NextRunIsAnswer` | internal/scheduler/engine.go:327-345 | the next run written after a fire is the first later minute the expression allows |
| `ScheduleEngine.OrderlyIsSequential` | internal/scheduler/engine.go:107-194 | a run without overlapping fires and failed writes is its completed fires one after the other |
| `ScheduleEngine.RunsCountedIffOrderly` | internal/scheduler/engine.go:107-194 | once all fires have ended, RunCount grew by one per fire exactly when none overlapped and every write succeeded, and by less otherwise |
| `ScheduleEngine.OnceFiresOnceIff` | internal/scheduler/engine.go:107-194 | a once-schedule fires at most once exactly when no fire starts while another is under way or after a failed write |
| `ScheduleEngine.OverlapHappens` | internal/scheduler/engine.go:100-111 | two ticks before the first write fire a due once-schedule twice |
| `ScheduleEngine.FailedWriteRefires` | internal/scheduler/engine.go:189-194 | a tick after a failed write fires a due once-schedule again, without any overlap |
| `ScheduleEngine.FailuresNeverExceedRuns` | internal/scheduler/engine.go:165-194 | FailureCount never exceeds RunCount, even with overlapping fires and failed writes |
| `ScheduleEngine.NormaliseCron` | internal/service/schedule_service.go:253-277 | lets through only once-schedules and expressions the parser accepts, and panics exactly when the parser does |
| `ScheduleEngine.StoredNeverCrashes` | internal/scheduler/engine.go:113-122 | over every run from a record the service can store, the parser never panics and the expression stays |
| `ScheduleEngine.TicksKeepLaw` | internal/scheduler/engine.go:113-194 | over all sequences of fires one after the other: fire times strictly increase, counters count fires, MaxRuns and once-schedules are respected |
| `ScheduleEngine.EngineLaw` | internal/scheduler/engine.go:100-204 | the same for every run of the cron-driven engine without overlapping fires and failed writes, from a fresh record |
| `RedisQueue.ClampNearest` | internal/task/queue.go:58-67 | a priority goes to the nearest of the ten lists |
| `RedisQueue.PushImplements` | internal/task/queue.go:58-67 | LPUSH onto the clamped list appends to the abstract queue |
| `RedisQueue.PopImplements` | internal/task/queue.go:85-99 | BRPOP over the ten keys removes the oldest entry of the best waiting priority |
| `RedisQueue.Queue.Enqueue` | internal/task/queue.go:58-67 | the abstract queue grows by the entry at its clamped priority |
| `RedisQueue.Queue.Dequeue` | internal/task/queue.go:85-99 | returns the oldest id of the best waiting priority; pushed entries equal popped plus waiting |
| `RedisQueue.Queue.AcquireLock` | internal/task/queue.go:105-109 | succeeds exactly when the lock is free |
| `RedisQueue.Queue.ReleaseLock` | internal/task/queue.go:112-114 | frees the lock |
| `TaskSafety.StepKeepsLocks` | internal/task/engine.go:235-251 | every step keeps exactly one holder per held lock |
| `TaskSafety.StepKeepsSlots` | internal/task/throttle.go:43-54 | every step keeps occupancy equal to the workers holding the slot, and at most the maximum |
| `TaskSafety.StepKeepsWaits` | internal/service/vm_service.go:219-232 | tasks whose handlers wait carry no hypervisor, nor do loaded copies |
| `TaskSafety.ReachableStatesSafe` | internal/task/engine.go:235-322 | in every reachable state of every interleaving: at most one worker or the poller is between acquire and release of a task's lock, no two handlers run one task, slots are conserved, no slot holder waits for another task |
| `TaskCancellation.WorkerProgram` | internal/task/engine.go:235-380 | in every run each worker goes through processTask in its order, for every handler result |
| `TaskCancellation.PollerProgram` | internal/task/engine.go:430-460 | the poller passes over a task exactly when its lock is held, and otherwise locks, releases, pushes and marks it |
| `TaskCancellation.WriteIsStored` | internal/task/engine.go:264-380 | success is recorded as Completed, failure as Failed, retry as Retrying, cancellation as Cancelled, a start as Running and an enqueue as Queued |
| `TaskCancellation.OnlyWritesChange` | internal/task/engine.go:264-380 | nothing else changes a task |
| `TaskCancellation.ListsChange` | internal/task/queue.go:58-99 | a pushed id comes first in the list of its own priority, a popped one was last in the best list, and no other step touches the lists |
| `TaskCancellation.RetryKeepsPriority` | internal/task/engine.go:361-373 | a retry is armed with the task's own id and priority |
| `TaskCancellation.CancelledCopiesStop` | internal/task/engine.go:264-269 | in every reachable state no worker is past the check with a copy that says Cancelled |
| `TaskCancellation.CheckPassesIff` | internal/task/engine.go:264-269 | the check lets a task through exactly when neither its copy nor its flag says cancelled |
| `TaskCancellation.CancelledNeverExecuted` | internal/task/engine.go:245-322 | over every run, a task cancelled before a worker passed its check is never executed until somebody writes Queued for it or its flag expires |
| `TaskCancellation.FlagDooms` | internal/service/task_service.go:48-73 | the service's flag is such a cancellation if no worker has started the task or is clearing the flag |
| `TaskCancellation.SeenIsWritten` | internal/task/engine.go:264-269 | a worker that saw the cancellation next writes Cancelled |
| `TaskCancellation.FlagStandsUntil` | internal/task/queue.go:121-137 | a cancel flag stands from the service's call until it expires or the worker that acknowledged the cancellation clears it |
| `TaskSafety.StepStrandsIff` | internal/task/engine.go:235-460 | a step strands a task exactly when it is a late "Queued" write or the drop of the last copy |
| `TaskSafety.NoTaskStranded` | internal/task/engine.go:235-460 | in every run without such a step each non-terminal task is pending, in a list, a timer, the poller's step or a worker's hands |
| `TaskSafety.StrandingStepShows` | internal/task/engine.go:235-460 | a run with such a step passes through a state with a stranded task |
| `TaskSafety.OrderlyRunStrandsNobody` | internal/task/engine.go:235-460 | no task is stranded in any run where each "Queued" write directly follows its push and no id is dropped between the lock holder's final status write and its release |
| `TaskSafety.StrandingDropIsLate` | internal/task/engine.go:245-251 | a stranding drop happens only between the lock holder's final status write and its release |
| `TaskSafety.AtomicEnqueueIsSafe` | internal/task/engine.go:167-170 | push and mark in one go never strand |
| `TaskSafety.AtomicPollIsSafe` | internal/task/engine.go:447-454 | the same for the poller |
| `TaskStranding.LateMarkStrandsATask` | internal/task/engine.go:167-170 | a reachable state with a lost task: Queued, all workers idle, all lists empty, unknown to the poller |
| `TaskStranding.LateDropStrandsATask` | internal/task/engine.go:245-251 | the same, with push and mark together, when poller and creator both enqueue the task and the second copy is dropped before the release |
| `TaskStranding.LostForever` | internal/task/engine.go:235-460 | over every run, a stranded task the poller does not know keeps its status until somebody enqueues or cancels it by name |
| `PoolStarvation.CanMoveIff` | internal/task/engine.go:235-380 | a worker cannot move exactly when it is idle with empty lists, awaits a full slot, or its handler waits for unfinished children |
| `PoolStarvation.PoolStuckIff` | internal/task/throttle.go:32-68 | the whole pool stands still exactly when every worker is idle with empty lists or waits for children: waiting for slots never brings it to a stop |
| `PoolStarvation.StuckWithWorkIffStarved` | internal/task/bulk_handlers.go:106-143 | in every reachable state with work waiting, the pool stands still exactly when every worker waits for children |
| `PoolStarvation.StarvedForever` | internal/task/bulk_handlers.go:106-143 | over every run without a handler giving up or a cancellation, a starved pool stays so and takes nothing from the lists |
| `PoolStarvation.StarvationNeedsParents` | internal/task/engine.go:176-182 | a starved pool has at least as many bulk and environment tasks as workers |
| `PoolStarvation.FewParentsNeverStarve` | internal/task/engine.go:176-182 | with fewer of them than workers, waiting work always finds a worker that can move |
| `PoolStarvation.EveryPoolCanStarve` | internal/task/bulk_handlers.go:76-143 | for every number of workers a reachable starved pool with exactly as many parents, each with a child of its own that is Queued and in a list |
| `BulkParent.BulkRun.ReadAll` | internal/task/bulk_handlers.go:111-128 | one pass moves exactly the children it reads as terminal out of the remaining ones |
| `BulkParent.BulkRun.Wait` | internal/task/bulk_handlers.go:106-143 | polls exactly as long as a child is open, is cancelled exactly by the flag before a poll or an interruption after one that leaves a child open; verdicts and reports as of each poll |
| `BulkParent.EndsOnce` | internal/task/bulk_handlers.go:106-143 | polls and children determine how and after how many polls the waiting ends |
| `BulkParent.HandleBulkParent` | internal/task/bulk_handlers.go:45-160 | cancelled, unreadable and childless parents end at once; otherwise it dispatches, waits and ends exactly as described there, failed lists exactly the children read failed, cancelled or timed out, and progress never decreases |
| `BulkParent.Dispatch` | internal/task/bulk_handlers.go:76-87 | appends to the queue the children whose push succeeds, in order, and marks exactly those Queued |
| `BulkParent.EntriesExact` | internal/task/bulk_handlers.go:76-87 | exactly the accepted children are queued, in their order |
| `BulkParent.WaitForAll` | internal/task/bulk_handlers.go:91-143 | the waiting part alone, with one report per poll: the share of the children with a verdict |
| `BulkParent.FatesPartition` | internal/task/bulk_handlers.go:101-128 | open, failed and succeeded children partition the children |
| `BulkParent.VerdictIsARead` | internal/task/bulk_handlers.go:112-127 | a verdict is the first terminal reading of the child |
| `Progress.PercentExact` | internal/task/bulk_handlers.go:132 | the percentage is 10 plus the finished share of 85, rounded down |
| `Progress.PercentMonotone` | internal/task/bulk_handlers.go:131-133 | more work done never reports less |
| `Progress.PercentBounds` | internal/task/bulk_handlers.go:131-133 | reports lie in [10, 95] |
| `Hub.HubLaw` | internal/websocket/hub.go:121-208 | over any run up to a panic, whoever joins whenever: exact room index, per-user counts equal live plus slow-evicted registered connections, and every client not disconnected has been sent exactly the messages addressed to it since it joined or was registered, in order |
| `Hub.PanicsIff` | internal/websocket/hub.go:132-178 | an event panics exactly when it is a message to a room somebody joined after being evicted as slow, or a message to everybody or an unregistration hitting a client registered after being evicted |
| `Hub.LiveJoinsNeverPanic` | internal/websocket/hub.go:121-208 | as long as only registered, not disconnected clients join, nothing panics |
| `Hub.ClosedOnceNeverUsed` | internal/websocket/hub.go:132-178 | a step closes only open channels; a closed channel stays closed and nothing more is put into it |
| `Hub.ClosesIff` | internal/websocket/hub.go:132-178 | a channel is closed exactly when its registered client is unregistered or a message is addressed to a client 256 messages behind |
| `Hub.CountsCoverLive` | internal/websocket/hub.go:125-148 | the per-user count never under-counts live connections |
| `Hub.JoinPanicsIff` | internal/websocket/hub.go:197-208 | a join makes broadcasts to its room panic exactly when the joining client's channel is closed or they did so before |
| `Hub.LateJoinPanics` | internal/websocket/hub.go:152-208 | a registered client is evicted as slow, its read pump joins a room, and the next broadcast to the room panics |
| `Hub.DeadRegistrationPanics` | internal/websocket/hub.go:125-178 | a run with no late join in which a client evicted before its registration makes its own unregistration panic, and would make a broadcast to everybody panic |
| `Hub.BroadcastDelivers` | internal/websocket/hub.go:152-178 | a full buffer evicts the client, so a surviving client misses nothing |
| `HubServer.Server.Connect` | internal/websocket/hub.go:184-194 | a new client enters the register channel |
| `HubServer.Server.EndReader` | internal/websocket/hub.go:261-265 | a stopping read pump sends its client to the unregister channel |
| `HubServer.Server.HandleRegister` | internal/websocket/hub.go:125-130 | makes exactly the register step |
| `HubServer.Server.HandleUnregister` | internal/websocket/hub.go:132-150 | makes exactly the unregister step, and panics exactly on a live client with a closed channel |
| `HubServer.Server.JoinRoom` | internal/websocket/hub.go:197-208 | makes exactly the join step |
| `HubServer.Server.HandleBroadcast` | internal/websocket/hub.go:152-178 | panics exactly when a target's channel is closed, otherwise makes exactly the broadcast step, in whatever order targets are visited |
| `HubServer.EvictMore` | internal/websocket/hub.go:171-177 | evicting clients one by one is evicting them together |
| `Approval.CurrentPending` | internal/infrastructure/repository/approval_repo.go:194-203 | the pending step of least order, none exactly when all are settled |
| `Approval.ApproveKeepsInv` | internal/service/approval_service.go:134-198 | approving keeps the request invariant |
| `Approval.RejectKeepsInv` | internal/service/approval_service.go:200-252 | rejecting keeps it |
| `Approval.ApprovalLaw` | internal/service/approval_service.go:40-331 | over every operation sequence: approved prefix then pending steps, Approved exactly when all steps are, Rejected exactly when a step is, approved history entries equal approved steps, named approvers resolved their steps |
| `Approval.RejectedShape` | internal/service/approval_service.go:221-236 | a rejected request has one rejected step, approved steps before it and pending steps after it |
| `Approval.SettledRequestsFrozen` | internal/service/approval_service.go:140-142 | a request that is not pending never changes again |
| `Approval.EverythingExplained` | internal/service/approval_service.go:76-331 | after any operations a request has the requester, deadline and steps it was created with, is cancelled only by its requester, expired only by a sweep at or after its deadline, escalated only on demand, and each settled step was settled by somebody entitled |
| `Approval.ChangesIff` | internal/service/approval_service.go:134-331 | a request changes exactly when it is pending and the operation comes from somebody who may: the requester cancels, the one entitled to the current step decides, the sweep takes what is due |
| `Approval.ChangedTo` | internal/service/approval_service.go:134-331 | what each change makes of the request; a decision settles the pending step of least order, the last approval approves |
| `Approval.ApprovalService.Create` | internal/service/approval_service.go:76-113 | the requested steps, or one default step, all pending |
| `Approval.ApprovalService.ApproveRequest` | internal/service/approval_service.go:134-198 | makes exactly the approve step, or fails and changes nothing |
| `Approval.ApprovalService.RejectRequest` | internal/service/approval_service.go:200-252 | makes exactly the reject step, or fails and changes nothing |
| `Approval.ApprovalService.CancelRequest` | internal/service/approval_service.go:254-278 | only the requester cancels, and only a pending request |
| `Approval.ApprovalService.EscalateRequest` | internal/service/approval_service.go:280-304 | only a pending request is escalated |
| `Approval.ApprovalService.ExpireStale` | internal/service/approval_service.go:306-331 | expires exactly the stale pending requests and counts them |
| `Approval.ApprovalService.Decide` | internal/service/approval_service.go:341-348 | a step naming an approver is decided by that approver only |
| `Deduplicator.PruningInvisible` | internal/task/throttle.go:92-121 | for every call sequence the pruning deduplicator answers as the one that never forgets |
| `Deduplicator.AcceptedApart` | frontend/lib/ws/WSClient.ts:13-26 | two accepted calls for a key are at least the window apart unless it was released |
| `Deduplicator.DuplicateIff` | internal/task/throttle.go:109-121 | a call is a duplicate exactly when an accepted call for its key, not released since, is less than the window ago |
| `Deduplicator.BrowserDuplicateIff` | frontend/lib/ws/WSClient.ts:10-27 | the same for the browser, with 200 milliseconds |
| `Deduplicator.BrowserForgetsIff` | frontend/lib/ws/WSClient.ts:18-25 | the browser forgets another key exactly when it holds over 500 keys and the key is over two seconds old |
| `Deduplicator.CleanupForgetsIff` | internal/task/throttle.go:92-106 | the cleanup forgets exactly the keys older than the window |
| `Deduplicator.TaskDeduplicator.Cleanup` | internal/task/throttle.go:92-105 | removes exactly the entries older than the window |
| `Deduplicator.TaskDeduplicator.Ask` | internal/task/throttle.go:109-121 | answers by the window; unscoped operations are never duplicates |
| `Deduplicator.TaskDeduplicator.Release` | internal/task/throttle.go:124-132 | forgets the key |
| `Deduplicator.MessageDeduplicator.Ask` | frontend/lib/ws/WSClient.ts:13-26 | answers by the window and prunes beyond ten windows once it holds over 500 keys |
| `Deduplicator.RemoveOld` | frontend/lib/ws/WSClient.ts:21-23 | deleting while iterating removes exactly the old entries |
| `RoomThrottle.ThrottleLaw` | frontend/lib/ws/WSClient.ts:39-76 | fires of a room are at least its interval apart, the pending message is the latest offered, and with none pending the last fired message is the last offered |
| `RoomThrottle.FiresAtOnceIff` | frontend/lib/ws/WSClient.ts:43-75 | a message fires at once exactly when its room is not throttled or the interval has passed since the last fire; otherwise it waits for exactly the rest |
| `RoomThrottle.PendingIsDelivered` | frontend/lib/ws/WSClient.ts:66-72 | a pending message can be delivered once the interval has passed, and is the last one offered |
| `RoomThrottle.ThrottledRooms` | frontend/lib/ws/WSClient.ts:33-37 | which rooms are throttled, and for how long |
| `RoomThrottle.Throttle.ShouldFire` | frontend/lib/ws/WSClient.ts:43-75 | makes exactly the offer step |
| `RoomThrottle.Throttle.OnTimer` | frontend/lib/ws/WSClient.ts:68-72 | makes exactly the timer step |

## Left out

- Repositories, GORM, Redis client, event bus, provider drivers: replaced by maps, sequences and the contracts of the queries used.
- DST and named time zones: location lookup is library behaviour; at a repeated local hour the rebuilt time can go back.
- Lock expiry, crash and shutdown paths of the task engine: excluded by the premises above.
- Retry bound and "completed tasks never re-run": the code promises neither.
- Backpressure guard and live state hash: an enqueue that is refused leaves the task pending, which the protocol already allows.
- `waitForTask` and the VM task payloads: a step's outcome is an input of the run.
- Hub connections are ids and their fields live in maps of the hub object: pointer aliasing of clients is not modelled.
- Floating-point rounding of progress percentages: exact rationals and floor.
- Concurrent approvals of one request, and failing repository calls between them.
- Analytics, health scores, backoff formula, policy matching, CRUD services, HTTP handlers, console proxy, notifications, authentication, encryption and the rest of the frontend: no hard property, or library wrappers.
