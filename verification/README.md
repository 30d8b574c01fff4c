# CommonUtilsLib: the I/O scheduler and the containers around it

This project models the stateful core of CommonUtilsLib and proves what it promises.

**The I/O scheduler.** A scheduler owns a fixed number of task objects and a fixed number of timer IDs.
Clients are handed task objects out of a pool, schedule them, re-arm them and ask for their removal; a pump
turn sweeps the removed tasks back into the pools, asks `select` for ready descriptors and walks the list of
scheduled tasks, running callbacks that may themselves call the scheduler. `SchedulerModel` and
`SchedulerPump` state this as a machine over values; `IoScheduler` is the program: task objects with `next`
pointers, array stacks as pools, and the loops that walk and cut the list in place. Every method of
`IoScheduler.Scheduler` ends in exactly the state that the machine's function gives, so what is proved of
runs of the machine holds of the program.

Everything learned from outside is an argument: `Env` supplies the clock readings, what `select` reports and
what each callback execution does and answers. A callback is any finite list of client calls -- into the
scheduler, or starting and stopping a child-process manager -- plus its boolean result. Nothing is assumed
about them, except where a lemma says so (a clock that does not run backwards). Lists of calls range over the
permitted ones: a call that the interface forbids its callers (`Permitted`) is skipped. The event log and the
sets of live, handed-out and lost things in `Store` are history; they decide nothing. The `monitor_task`
pointers of child-process managers are kept by manager, because callbacks change them: in the machine's state,
and as real pointers in the field `monitorTasks` of the program.

| part | modules |
|---|---|
| scheduler as a state machine | `Deadlines`, `SchedulerModel`, `SchedulerCalls`, `SchedulerPump` |
| properties of its runs | `SchedulerTrace`, `SchedulerSafety`, `SchedulerDispatch`, `SchedulerTurn`, `SchedulerVisits`, `SchedulerTimeOuts`, `SchedulerExample` |
| scheduler as a program | `Stacks`, `IoScheduler` |
| child processes, driven by a scheduler timer | `MonitorTimer`, `ChildProcessManager` |
| other cores | `SocketManager`, `CircularList`, `SingleList`, `StableSort`, `MemoryPool`, `CommandTokenizer` |
| shared | `Sequences` |

Where the code and what it seems to intend differ, the code is modelled, and the difference is stated exactly:

- A task that watches reads and writes loses readiness to write unless a read or time-out callback ran first
  and reported completion (`SchedulerDispatch.WriteHandedIff`, with a run in `SchedulerExample.WriteIsDropped`);
  a task that watches only errors completes at its first visit, ready or not (`SchedulerDispatch.VisitCompletes`).
- A timer request takes a timer ID out of circulation for good when no task object is left
  (`SchedulerSafety.TimerIdTotal` and `LostForGood`, with a run in `SchedulerExample.TimerIdIsLost`).
- A task with descriptor -1 cannot be unscheduled, so when its callback reports completion it is neither marked
  nor armed again and fires at every turn from then on (`SchedulerSafety.RearmedIff` gives the exact
  condition, `SchedulerExample.SpecialFiresUnspaced` a run).
- A deadline may carry a nanosecond part of exactly 10^9; the expiry test is still numeric, and would not be
  beyond that (`Deadlines.ExpiredIsNumericIff`). Time-outs are nanoseconds, although comments in
  `src/io-scheduler.h` (117, 142-151) speak of microseconds.
- A task with a descriptor is armed only if the TIMER bit was requested or it is rescheduled; otherwise its
  deadline is 0 and it times out at its first visit (`SchedulerTimeOuts.TimedOutIff`, with a run in
  `SchedulerExample.ReaderTimesOutAtOnce`). Expiry is decided when a visit begins, so an arming by the task's own
  error callback comes too late (`SchedulerTimeOuts.IoTimeOutBound`, with a run in
  `SchedulerExample.RescheduledTooLate`). The dispatcher never arms such a task again, so once timed out it times
  out in every turn until a direction is ready (`SchedulerTimeOuts.IoNotRepeated` and `IoTimesOutEveryTurn`).
- An exit callback that registers the very record it was called for leaves a freed record on the ring if the
  manager owns that record (`ChildProcessManager.FreedStaysIff`, with a case in `FreedStays`).
- `mem_pool_free` checks nothing: it keeps the pool in order exactly for live blocks
  (`MemoryPool.FreeSafeIff`, with a run in `MemoryPool.FreedTwice`), and blocks of size 0 are not distinct (`MemoryPool.NewIsSafeIff`).
- `slinklst_insert_ordered` does not clear the `next` of the first node of a list
  (`SingleList.InsertOrdered`, with a case in `SingleList.InsertStale`).
- The loop in `my_popen` that skips leading white space has no effect (`CommandTokenizer.LeadingSpaceIff`).
- A monitored process with a number of 1 or below is never reaped (`ChildProcessManager.ReapExactly`).

## Model

| member | source | states |
|---|---|---|
| Deadlines.Deadline | src/io-scheduler.c:555-576 | For every clock reading (0 <= nsec < 1,000,000,000) and time-out >= 0 the deadline in seconds and nanoseconds, at 1,000,000,000 to the second, is exactly clock plus time-out; its nanosecond part lies in [0, 10^9], and the intermediate sum is below 2^31. |
| Deadlines.ExpiredIsNumeric | src/io-scheduler.c:446-450 | The lexicographic expiry test is `now >= deadline` in nanoseconds, even for a nanosecond part of exactly 10^9. |
| Deadlines.ExpiredIsNumericIff | src/io-scheduler.c:446-450 | The test is numeric for all clock readings if and only if the nanosecond part of the deadline lies in [0, 10^9]. |
| Deadlines.HeaderConstants | src/io-scheduler.h:115-122 | A second has 1,000,000,000 nanoseconds and no time-out is -1. |
| SchedulerModel.InitInv | src/io-scheduler.c:79-123 | A new scheduler, whatever its task objects contain, satisfies the invariant: tasks and timer IDs are pooled once each. |
| SchedulerCalls.PerformKeeps | src/io-scheduler.c:129-430 | Every permitted interface call keeps the invariant, only appends to the list, only pops the pool, never clears REMOVE, never changes which task a listed object is, never forgets a lost timer ID, and logs each loss. |
| SchedulerCalls.DropKeeps | src/io-scheduler.c:518-530 | Returning a listed task keeps the invariant, and the pool has room for it: the branch that frees the object is never taken. |
| SchedulerPump.Dispatch | src/io-scheduler.c:663-670 | The walk terminates although callbacks keep scheduling, because capacity minus visited decreases; it keeps the invariant and takes nothing off the list. |
| SchedulerSafety.ReachableInv | src/io-scheduler.c:79-672 | In every state that any interleaving of calls and pump turns reaches, under any environment, the invariant holds and the event log is in order. |
| SchedulerSafety.SlotsPartition | src/io-scheduler.c:94-110 | List, handed-out tasks and pool are disjoint and together are exactly all task objects. |
| SchedulerSafety.TaskConservation | src/io-scheduler.c:94-110 | In every reachable state each task object is in exactly one of pool, list and hands of a client, once; when a task is listed the pool is not full. |
| SchedulerSafety.TimerIdsUnique | src/io-scheduler.c:113-116 | In every reachable state no two live tasks carry the same timer ID, none carries a pooled or lost one, all lie in [-max-2, -3], and pooled, held and lost IDs are `max_num_timers` in number. |
| SchedulerSafety.TimerFoundIsUnique | src/io-scheduler.c:246-259 | At most one scheduled task carries a given timer ID, so `find_task` on it can only return that task. |
| SchedulerSafety.TimerIdTotal | src/io-scheduler.c:164-180 | In every reachable state pooled and carried timer IDs never exceed `max_num_timers`, and number exactly that if and only if no timer request so far found an ID but no task object. |
| SchedulerSafety.LostForGood | src/io-scheduler.c:173-179 | A lost timer ID stays lost through any run: it is never pooled nor carried by a live task again. |
| SchedulerSafety.TimerIdLoss | src/io-scheduler.c:164-180 | A timer request pops one ID: the new task carries it, or, if and only if no task object was left, it is lost and the log says so. |
| SchedulerSafety.CreatingTask | src/io-scheduler.c:129-159 | In every state: null and no change when no task object is left; otherwise the top object leaves the pool with exactly the requested descriptor, bits, time-out, user data and callbacks, without REMOVE, and no other task changes. |
| SchedulerSafety.CreatingTimer | src/io-scheduler.c:164-180 | In every state: a successful timer request hands out the top object with the top ID as descriptor, exactly the TIMER bit, the requested time-out and user data, and at most a time-out callback, as requested; no other task changes. |
| SchedulerSafety.UnschedulingMarks | src/io-scheduler.c:422-428 | Unscheduling sets REMOVE on that task, changes no other field of any task, and does nothing for descriptor -1. |
| SchedulerSafety.RemoveIsSticky | src/io-scheduler.c:145-147 | Once REMOVE is set on a live task no later visit dispatches that object, over any run, before it was created anew. |
| SchedulerSafety.SchedulingSetsUp | src/io-scheduler.c:296-345 | A scheduled task is last on the list, keeps exactly the requested bits that have what they need, has REMOVE if and only if nothing is left, and is due exactly its time-out later; no other task changes. |
| SchedulerSafety.ReschedulingMovesDeadline | src/io-scheduler.c:264-274 | The deadline of a task without REMOVE becomes the next clock reading plus its time-out; a task with REMOVE is left alone. |
| SchedulerSafety.TimersNeverEarly | src/io-scheduler.c:489-502 | Over any run, the time-out callback of a task without a descriptor, be it a timer or -1, runs only when the clock has reached the reading of its latest arming plus its time-out. |
| SchedulerSafety.TimerFiringsSpaced | src/io-scheduler.c:489-497 | Under a clock that does not run backwards, successive firings of a task without a descriptor are at least its time-out apart if it was armed in between; otherwise the second is due on the same arming as the first. |
| SchedulerSafety.RearmedIff | src/io-scheduler.c:489-497 | It is armed in between if and only if its callback reported incomplete or the task was rescheduled; a task with a timer ID fires again only in the first case, so its firings are always spaced. |
| SchedulerTimeOuts.TimedOutIff | src/io-scheduler.c:445-450 | In every reachable state a live task, with a descriptor or without, has timed out at a clock reading if and only if it has a time-out and that of its latest arming has passed, counted from 0 if it was never armed. |
| SchedulerTimeOuts.IoTimeOutBound | src/io-scheduler.c:461-484 | Over any run, a time-out callback of a task with a descriptor runs only when the time-out of the latest arming before its visit has passed, or at 0 or later when there was none. |
| SchedulerTimeOuts.IoNotRepeated | src/io-scheduler.c:461-484 | After a time-out callback of a task with a descriptor, whatever it reported, only rescheduling arms the task again. |
| SchedulerTimeOuts.StaysTimedOut | src/io-scheduler.c:445-450 | Under a clock that does not run backwards, a timed-out task that is not armed in between is timed out in every later state. |
| SchedulerTimeOuts.IoTimesOutEveryTurn | src/io-scheduler.c:461-484 | A timed-out task with a descriptor runs its time-out callback in every turn that dispatches, unless it is armed, removed, or a direction that decides about the time-out is ready. |
| SchedulerExample.TimersFireAgain | src/io-scheduler.c:489-497 | A reachable run in which one timer fires in two turns. |
| SchedulerExample.SpecialFiresUnspaced | src/io-scheduler.c:486-503 | A reachable run in which a task with descriptor -1 and a time-out of one second fires twice at the same instant. |
| SchedulerExample.IdLeft | src/io-scheduler.c:173-179 | A reachable state with a timer ID in its pool and no task object in the other. |
| SchedulerExample.TimerIdIsLost | src/io-scheduler.c:173-179 | A reachable run with two timer IDs and one task object that loses an ID. |
| SchedulerExample.WriteIsDropped | src/io-scheduler.c:461-479 | A reachable turn in which a watched descriptor is ready to be written and no callback runs. |
| SchedulerExample.ReaderTimesOutAtOnce | src/io-scheduler.c:445-450 | A reachable run in which a reading task with a time-out of five seconds, and no TIMER bit, times out at the first clock reading. |
| SchedulerExample.RescheduledTooLate | src/io-scheduler.c:455-468 | A reachable run in which a task times out five seconds before its latest arming has passed, because its error callback rescheduled it in the same visit. |
| SchedulerExample.RemovedComesBack | src/io-scheduler.c:145-147 | A reachable run in which an unscheduled task object is visited again, after it was created anew. |
| SchedulerExample.MonitorStarts | src/child-process-mgr.c:211-229 | A manager started on a new scheduler meets all that the lemmas about monitors suppose, through any number of turns. |
| SchedulerTrace.PerformStory | src/io-scheduler.c:264-330 | Each interface call keeps log and task fields in agreement: REMOVE as last marked, and for every task without a descriptor the deadline as last armed. |
| SchedulerTrace.TimerPartStory | src/io-scheduler.c:486-503 | Firing a timer or the descriptor -1, and arming it again, keeps that agreement, with the deadline counted from a reading after the callback. |
| SchedulerTrace.LaunchStory | src/child-process-mgr.c:211-229 | So does starting a child-process manager. |
| SchedulerTrace.RunStory | src/io-scheduler.c:578-672 | Any run of calls and turns keeps the agreement. |
| SchedulerDispatch.VisitSelect | src/io-scheduler.c:437-506 | One visit: a task with REMOVE changes nothing; any other is visited once, consumes every direction it watches, and runs exactly the ready-callbacks that `Serves` names and the time-out callbacks that `ReadTimesOut` and `WriteTimesOut` name. |
| SchedulerDispatch.WriteHandedIff | src/io-scheduler.c:470-484 | Readiness to write is consumed by the first visited task that watches it, and reaches its callback if and only if the task watches no reads or its read or time-out callback ran and reported completion. |
| SchedulerDispatch.VisitCompletes | src/io-scheduler.c:437-506 | A visit that completes a task marks it; a task watching only errors is marked at its first visit. |
| SchedulerDispatch.DispatchWalk | src/io-scheduler.c:663-670 | The visits of a walk are a subsequence of the rest of the final list and miss no task left without REMOVE. |
| SchedulerDispatch.ReadinessHandedOnce | src/io-scheduler.c:455-484 | Over a walk, readiness of a descriptor in one direction runs at most one callback, that of the first visited task watching it; for reads and errors it does run. |
| SchedulerDispatch.DispatchSees | src/io-scheduler.c:663-670 | In a walk that does not stop, a task that watches a descriptor and is left without REMOVE is visited with that descriptor watched, after what was visited before. |
| SchedulerTurn.SweepIsFilter | src/io-scheduler.c:611-655 | The in-place sweep is a filter: the list keeps, in order, exactly the tasks without REMOVE or with descriptor -1; the others and their timer IDs lie, latest first, on the pools, blanked; nothing else changes. |
| SchedulerTurn.SweepExactly | src/io-scheduler.c:611-655 | For every task object: it stays listed if and only if it was listed and lacks REMOVE or has descriptor -1; it is pooled if and only if it was or goes; if it goes it is zeroed, otherwise unchanged. |
| SchedulerTurn.SweepReturnsIds | src/io-scheduler.c:518-530 | A timer ID is pooled after the sweep if and only if it was, or a task that goes carried it. |
| SchedulerTurn.AskedAreWatched | src/io-scheduler.c:626-641 | The descriptor sets handed to `select` are the unions over the surviving tasks that have the bit. |
| SchedulerTurn.ReadyMeans | src/io-scheduler.c:626-661 | A descriptor counts as ready in a direction if and only if `select` reports it and, before the turn, a listed task that stays watches it. |
| SchedulerTurn.FailedTurnOnlySweeps | src/io-scheduler.c:657-662 | A turn whose `select` fails sweeps and does nothing else. |
| SchedulerTurn.TurnVisitsOnce | src/io-scheduler.c:657-670 | One pump turn visits each task at most once, in list order, at most as many as there are task objects, none when stopped or when `select` fails, and misses no task that remains without REMOVE. |
| SchedulerTurn.TurnHandsOutOnce | src/io-scheduler.c:455-484 | Within one pump turn readiness of a (descriptor, direction) reaches at most one callback across all tasks. |
| SchedulerTurn.ReadyRuns | src/io-scheduler.c:455-484 | And it does reach one, unless the turn stops the scheduler, if a listed task that watches it is still without REMOVE after the turn; for writes, if its watchers watch no reads. |
| SchedulerTurn.StopIsFinal | src/io-scheduler.c:657-664 | A stopped scheduler visits and hands out nothing in any later calls or turns, and its list is only appended to. |
| SchedulerTurn.StopMarksAll | src/io-scheduler.c:382-398 | Stopping sets the flag and marks a task if and only if it is scheduled; nothing else changes. |
| SchedulerTurn.StopEndsAll | src/io-scheduler.c:382-398 | Stopping marks every scheduled task, including those with descriptor -1; through any later calls and turns they stay in place with REMOVE set, and nothing is visited or handed out. |
| SchedulerTurn.SpecialStays | src/io-scheduler.c:602-617 | A scheduled task with descriptor -1 stays scheduled through any run. |
| SchedulerVisits.TimerVisits | src/io-scheduler.c:486-503 | Every visited task without a descriptor fires if and only if its deadline has come; then, whatever its callback calls, an incomplete answer arms it again from a reading after the callback plus its own time-out, and a complete one sets REMOVE on a timer; before the deadline nothing changes. |
| SchedulerVisits.QuietTimerVisit | src/io-scheduler.c:486-503 | With callbacks that make no calls, the whole state after such a visit. |
| SchedulerVisits.QuietIoVisit | src/io-scheduler.c:437-484 | With such callbacks, a visit to a task with a descriptor changes nothing but REMOVE of a task that completes. |
| IoScheduler.Scheduler.constructor | src/io-scheduler.c:79-123 | Builds an initial scheduler: objects pushed in order, IDs from -max-2 up to -3, empty list. |
| IoScheduler.Scheduler.CreateScheduler | src/io-scheduler.c:87-93 | No scheduler if and only if one of the two sizes is 0. |
| IoScheduler.Scheduler.PopulateExpireTime | src/io-scheduler.c:555-576 | The subtracting loop in place computes `Deadline`, so clock plus time-out at 1,000,000,000 nanoseconds to the second, and changes nothing else. |
| IoScheduler.Scheduler.CreateTask | src/io-scheduler.c:129-159 | Pops the object on top of the pool and gives it exactly the requested fields, or answers null and changes nothing when the pool is empty. |
| IoScheduler.Scheduler.CreateTimerTask | src/io-scheduler.c:164-180 | Pops an ID, then a task object, with both failures as in the machine; the object returned has the ID as descriptor, exactly the TIMER bit, the requested time-out and user data, and at most a time-out callback. |
| IoScheduler.Scheduler.ScheduleTask | src/io-scheduler.c:296-345 | Normalises the option word, arms timed tasks and links the task behind the last one. |
| IoScheduler.Scheduler.UnscheduleTask | src/io-scheduler.c:422-428 | Sets REMOVE unless the descriptor is -1. |
| IoScheduler.Scheduler.RescheduleTask | src/io-scheduler.c:264-274 | Re-arms a task and answers true if and only if REMOVE is not set. |
| IoScheduler.Scheduler.FindTask | src/io-scheduler.c:246-259 | The first scheduled task with the descriptor, or null exactly when there is none. |
| IoScheduler.Scheduler.StopScheduler | src/io-scheduler.c:382-398 | The loop marks exactly the listed tasks and sets the stop flag. |
| IoScheduler.Scheduler.ProcessTask | src/io-scheduler.c:437-506 | Errors, then reads, then writes, or the timer: the same state, descriptor sets and result as the machine. |
| IoScheduler.Scheduler.VisitTask | src/io-scheduler.c:665-668 | Skips tasks with REMOVE and marks completed ones. |
| IoScheduler.Scheduler.DispatchAll | src/io-scheduler.c:663-670 | The pointer walk visits positions 0, 1, ... of the list while it grows. |
| IoScheduler.Scheduler.DestroyTask | src/io-scheduler.c:518-530 | Pushes ID and object onto the pools and blanks the object; its requirement, a free slot, is always met. |
| IoScheduler.Scheduler.RemoveAfter | src/io-scheduler.c:644-649 | Cuts one task out of the list through its predecessor's link and returns it. |
| IoScheduler.Scheduler.SweepFront | src/io-scheduler.c:615-622 | Removing from the front leaves a list whose sweep is that of the original, and a head that stays. |
| IoScheduler.Scheduler.SweepList | src/io-scheduler.c:611-655 | The two nested loops compute the machine's sweep; the sets and `maxfd` are the unions and the maximum over the surviving tasks. |
| IoScheduler.Scheduler.PumpOnce | src/io-scheduler.c:578-672 | One turn over pointers, pools and callbacks ends in exactly the machine's state. |
| IoScheduler.Scheduler.LaunchMonitor | src/child-process-mgr.c:211-229 | Starting a manager over its task pointer, task objects and pools ends in exactly the machine's state; it succeeds if and only if the pointer is set afterwards. |
| IoScheduler.Scheduler.HaltMonitor | src/child-process-mgr.c:231-241 | So does stopping one, which clears the pointer. |
| Stacks.SameOutputsIffFits | src/stack.c:388-592 | The array stack and the linked stack answer a whole run of operations alike if and only if it never pushes onto a full stack. |
| Stacks.FixedStack.Create | src/stack.c:86-109 | An empty stack of the given room, or null for room 0. |
| Stacks.FixedStack.Push | src/stack.c:449-460 | Refuses on a full stack, and only then, and otherwise puts the element on top, in the next lower slot, whose index it returns; slots below stay null. |
| Stacks.FixedStack.PopAndReturn | src/stack.c:435-447 | Returns and nulls the top slot; null on an empty stack. |
| Stacks.FixedStack.Clear | src/stack.c:388-395 | Empties the stack and nulls every slot. |
| Stacks.FixedStack.Top | src/stack.c:470-478 | The top element or null. |
| Stacks.FixedStack.Size | src/stack.c:462-468 | The number of elements. |
| Stacks.FixedStack.IsFull | src/stack.c:415-422 | True exactly when every push would be refused. |
| Stacks.FreeStack.Push | src/stack.c:553-567 | A new node on top. |
| Stacks.FreeStack.PopAndReturn | src/stack.c:536-551 | Takes the top node off; null on an empty stack. |
| Stacks.FreeStack.Clear | src/stack.c:485-497 | The loop takes every node off. |
| Stacks.FreeStack.Size | src/stack.c:569-582 | The loop counts the nodes. |
| SchedulerCalls.LaunchMonitor | src/child-process-mgr.c:211-229 | Starting a manager keeps the invariant and only extends the list. |
| MonitorTimer.HaltClears | src/child-process-mgr.c:231-241 | After a stop no live task of the manager is without REMOVE, and it points at none. |
| MonitorTimer.HaltMarksOne | src/child-process-mgr.c:231-241 | A stop sets REMOVE on the task pointed at and forgets the pointer; no other task, field or pointer changes. |
| MonitorTimer.LaunchRuns | src/child-process-mgr.c:211-229 | After a start at most the new monitor task is live without REMOVE; there is one if and only if, after stopping the old one, an ID and a task object were left, and then it is scheduled with a time-out of 1,000,000,000 nanoseconds. |
| MonitorTimer.LaunchAddsOne | src/child-process-mgr.c:211-229 | A successful start, once the old monitor is stopped, puts one new task at the end of the list and changes no other task and no other pointer. |
| MonitorTimer.AtMostOneMonitor | src/child-process-mgr.c:211-241 | From a new scheduler, over any calls, turns and callbacks, any of which may start and stop the manager, at most one live task of the manager has no REMOVE, and it is the one pointed at. |
| MonitorTimer.RunGuarded | src/child-process-mgr.c:211-241 | Through any run that leaves it alone, a running monitor stays scheduled without REMOVE until one of its callbacks reports completion. |
| MonitorTimer.MonitorRearms | src/io-scheduler.c:489-497 | As long as its callback is the manager's, a started monitor stays scheduled and is due exactly one second after the clock reading it was last armed with, forever. |
| MonitorTimer.MonitorVisited | src/io-scheduler.c:663-670 | Every turn that dispatches and does not stop visits the running monitor. |
| MonitorTimer.MonitorVisit | src/io-scheduler.c:489-502 | A visit runs the monitor's callback if and only if its second has passed, and then arms it again from a later clock reading unless it reports completion. |
| ChildProcessManager.RunApart | src/child-process-mgr.c:114-209 | Over any registrations and reaps, including those exit callbacks make, no process is monitored twice. |
| ChildProcessManager.MonitorPidAnswers | src/child-process-mgr.c:161-209 | True if and only if the number is above 1 and nobody monitors it; then exactly one monitor, owning its record, is added at the end, and otherwise nothing changes. |
| ChildProcessManager.MonitorChildAnswers | src/child-process-mgr.c:114-159 | True if and only if nobody monitors the number or its monitor is of that very record, which is then on the ring; exactly one monitor is added at the end if nobody does, and otherwise nothing changes. |
| ChildProcessManager.ReapExactly | src/child-process-mgr.c:313-326 | A reaped, monitored process leaves the ring, then runs its non-null exit callback once with its status, then has its record freed if and only if the manager owns it; numbers of 1 or below change nothing. |
| ChildProcessManager.ReapUnknown | src/child-process-mgr.c:314-315 | A process nobody monitors changes nothing. |
| ChildProcessManager.ReapAllExactly | src/child-process-mgr.c:307-329 | With quiet exit callbacks, after the loop a monitor is on the ring if and only if it was and its process was not reported, with a number above 1, before the first number of 0 or below. |
| ChildProcessManager.ReapAllInTurn | src/child-process-mgr.c:307-329 | The loop handles what is reported in order, and nothing behind a number of 0 or below. |
| ChildProcessManager.FreedStaysIff | src/child-process-mgr.c:317-325 | After reaping a process whose record the manager owns, and so frees, a monitor of that record is on the ring if and only if the exit callback's first request about the process names that record. |
| ChildProcessManager.FreedStays | src/child-process-mgr.c:317-325 | A concrete case of it. |
| ChildProcessManager.NoFreedOnRing | src/child-process-mgr.c:114-332 | Over any run in which no exit callback does that and no freed record is registered, every monitor refers to a record of its own that is not freed. |
| ChildProcessManager.RunBalanced | src/child-process-mgr.c:114-332 | Over any run, for every record: accepted monitors are still there or were given up; exit callbacks ran once per reap; records were freed once per owned monitor given up. |
| ChildProcessManager.WholeLife | src/child-process-mgr.c:74-91 | From empty to destroyed, every accepted registration is given up exactly once, and the manager frees a record exactly as often as it accepted it as its own. |
| ChildProcessManager.ChildManager.constructor | src/child-process-mgr.c:93-112 | A ring of the head alone. |
| ChildProcessManager.ChildManager.Locate | src/child-process-mgr.c:247-270 | The search loop ends at the first monitor of the process, or back at the head. |
| ChildProcessManager.ChildManager.Ask | src/child-process-mgr.c:114-209 | Appends a monitor unless the process has one; a known record is answered with true, a different one with false, a number of 1 or below refused. |
| ChildProcessManager.ChildManager.OnMonitorTimer | src/child-process-mgr.c:294-332 | The do-while loop reaps as long as `waitpid` reports a child, with the ring relinked in place, and answers incomplete. |
| ChildProcessManager.ChildManager.Destroy | src/child-process-mgr.c:74-91 | Stops the timer; the loop then gives up every monitor, in order, and frees exactly the records owned. |
| ChildProcessManager.ChildManager.Start | src/child-process-mgr.c:211-229 | On the program's scheduler, in any state: stops a running timer, creates and schedules the new one; true if and only if there is one. |
| ChildProcessManager.ChildManager.Stop | src/child-process-mgr.c:231-241 | Unschedules the timer and forgets it. |
| SocketManager.ApplyCounts | src/socket-mgr.c:122-287 | One operation changes the holders of exactly the descriptor concerned by one; the last close, and only it, closes the socket once and notifies each listener once. |
| SocketManager.HoldersAreGetsMinusCloses | src/socket-mgr.c:122-287 | Over any trace with fresh descriptors ports and descriptors stay unique, and a socket's count is its gets minus its closes; it is open if and only if that is positive. |
| SocketManager.NewPortIsOpened | src/socket-mgr.c:149-158 | A get for a port without an entry answers what the operating system answers; if that is valid one entry for the port, with that descriptor and one holder, is added at the end, and otherwise nothing changes. |
| SocketManager.LivePortIsShared | src/socket-mgr.c:129-146 | A get for a live port returns its descriptor, counts one holder more for it and leaves every other entry alone. |
| SocketManager.CloseIs | src/socket-mgr.c:249-288 | A close counts one holder less; the last one removes the entry, closes the socket and calls each listener in order; every other entry is left alone. |
| SocketManager.UnknownIsNotClosed | src/socket-mgr.c:249-288 | Closing a descriptor without an entry does nothing. |
| SocketManager.SocketTable.GetOrCreate | src/socket-mgr.c:122-162 | The list walk shares a live port's entry or appends one for a new port behind the last, which is never null there: table and answer are those of `Get`. |
| SocketManager.SocketTable.CloseSocket | src/socket-mgr.c:249-288 | Head case and loop together give up one holder, unlinking the entry with its last. |
| SocketManager.SocketTable.NotifyListeners | src/socket-mgr.c:303-313 | Each listener is called once, in order. |
| SocketManager.SocketTable.Shutdown | src/socket-mgr.c:218-243 | Closes every socket once, in order, and leaves the list empty. |
| CircularList.RingRotates | src/circ-link-list.c:38-141 | Any node may be taken as the start: a ring is one cycle in both directions. |
| CircularList.InsertAfter | src/circ-link-list.c:53-70 | The ring is the old one with the node right behind the insertion point. |
| CircularList.InsertBefore | src/circ-link-list.c:73-90 | The ring is the old one with the node right before the insertion point. |
| CircularList.Unlink | src/circ-link-list.c:131-141 | The ring loses exactly that node, which becomes a ring of its own; unlinking it again changes nothing. |
| CircularList.InsertAfterThenUnlink | src/circ-link-list.c:53-141 | Unlinking a node just inserted behind another restores both links of every node of the ring. |
| CircularList.InsertBeforeThenUnlink | src/circ-link-list.c:73-141 | So does unlinking a node just inserted before another. |
| CircularList.UnlinkAgain | src/circ-link-list.c:131-141 | Unlinking a node that is in no ring leaves both its links as they were. |
| CircularList.Find | src/circ-link-list.c:38-50 | Terminates with the first match other than the start, or null exactly when there is none. |
| CircularList.RFind | src/circ-link-list.c:116-128 | Terminates with the last match other than the start, or null exactly when there is none. |
| CircularList.InsertInorder | src/circ-link-list.c:93-113 | The node goes before the first strictly greater one behind the start, or to the end. |
| CircularList.InsertAllInorder | src/circ-link-list.c:93-113 | Inserting nodes one by one into an empty ring gives the ring of `InsertAll`, which is the stable sort. |
| CircularList.OrderedInsertion | src/circ-link-list.c:104-107 | A sorted ring stays sorted, and the new node comes behind every equal one. |
| StableSort.InsertAllSorts | src/circ-link-list.c:93-113 | Repeated ordered insertion is a stable sort of what was inserted, and both lists' insertions agree. |
| StableSort.SameInsertion | src/single-link-list.c:137-163 | Comparing with the arguments swapped, as the singly linked list does, inserts at the same place. |
| StableSort.StableSortUnique | src/circ-link-list.c:104-107 | There is only one stable sort, so that result is determined. |
| SingleList.Append | src/single-link-list.c:52-75 | The node becomes the last one and its `next` null. |
| SingleList.Prepend | src/single-link-list.c:178-187 | The node becomes the first one. |
| SingleList.InsertAfter | src/single-link-list.c:112-120 | The node comes right behind the given one. |
| SingleList.InsertOrdered | src/single-link-list.c:137-163 | The node goes before the first greater one; on an empty list the result is a proper list if and only if the node's `next` was null. |
| SingleList.InsertStale | src/single-link-list.c:146-149 | A concrete case: a node that points at another one, put into an empty list, leaves a list of more than itself. |
| SingleList.InsertAllOrdered | src/single-link-list.c:137-163 | Inserting nodes with null `next` one by one into an empty list gives the list of `InsertAll`, which is the same stable sort. |
| SingleList.Find | src/single-link-list.c:89-97 | The first match, or null exactly when there is none. |
| SingleList.Remove | src/single-link-list.c:204-230 | Removes exactly that node and answers true, or answers false and changes nothing when it is not on the list. |
| SingleList.RemoveAfter | src/single-link-list.c:245-252 | Removes the node behind the given one, or answers false when there is none. |
| MemoryPool.NewIsSafeIff | src/mem_pool.c:69-101 | A new pool of at least one block is in order if and only if its blocks are distinct: sizes above 0, or at most one block. |
| MemoryPool.NewBlocks | src/mem_pool.c:69-101 | A new pool has the requested number of blocks, all free, end to end in order, each of the least multiple of 4 that is not below the requested size. |
| MemoryPool.MallocSafe | src/mem_pool.c:45-57 | Allocation fails if and only if the request is too big or every block is live, and otherwise hands out a block nobody holds. |
| MemoryPool.FreedIsNext | src/mem_pool.c:26-57 | Blocks are reused latest first: freeing a live block and allocating again gives that block back, and the pool as before. |
| MemoryPool.FreeSafeIff | src/mem_pool.c:26-35 | Freeing keeps the pool in order if and only if the pointer is null, is a live block, or nothing is live. |
| MemoryPool.FreedTwice | src/mem_pool.c:26-35 | A concrete run: two allocations, then one block freed twice, and the pool is out of order. |
| MemoryPool.LiveBlocksApart | src/mem_pool.c:76-97 | Live blocks do not overlap, lie inside the buffer and start at multiples of 4. |
| MemoryPool.RunSafe | src/mem_pool.c:26-57 | Over any run that frees only live blocks the free slots hold exactly the blocks nobody holds, each once. |
| MemoryPool.MemPool.constructor | src/mem_pool.c:69-101 | The filling loop lays blocks of the rounded size end to end. |
| MemoryPool.MemPool.Allocate | src/mem_pool.c:45-57 | Hands out the next free block with all its bytes zero and touches no other byte. |
| MemoryPool.MemPool.Release | src/mem_pool.c:26-35 | Puts the pointer into the slot before the free ones. |
| CommandTokenizer.Split | src/custom-pipes.c:64-84 | The nested loops terminate, write terminators at the ends of the arguments and nowhere else, set `argv` to their starts in order and null behind the last. |
| CommandTokenizer.SlicesOrdered | src/custom-pipes.c:66-83 | Arguments lie in order, each behind the terminator of the one before: they are disjoint. |
| CommandTokenizer.ArgumentsAreSlices | src/custom-pipes.c:66-83 | After the cut the C string at each argument's start is that slice of the original text. |
| CommandTokenizer.RoundTrip | src/custom-pipes.c:64-84 | Words, each bare (not empty, without white space, NULs or a leading quote) or in quotes (without quotes or NULs), joined by any non-empty runs of white space and followed by any run, come back unchanged, in number and in order. |
| CommandTokenizer.QuotedRoundTrip | src/custom-pipes.c:64-84 | In particular any NUL-free, quote-free arguments, even empty ones, put in quotes and joined by single spaces. |
| CommandTokenizer.SliceAtMeans | src/custom-pipes.c:66-83 | A quoted argument runs up to the next quote or the end of the text, a bare one up to the next of the six white-space characters or the end, and neither contains one; the next argument starts at the first other character behind its terminator. |
| CommandTokenizer.LeadingSpaceIff | src/custom-pipes.c:64-66 | The first argument is empty and at offset 0 if and only if the text starts with white space: skipping it beforehand has no effect. |

## Left out

- Threads, mutexes and every `_r` variant: operations are sequential; several `_r` variants take the mutex by value and lock nothing shared.
- The idle branch of the pump for an empty list in a scheduler thread (`src/io-scheduler.c:586-592`), the run and thread loops, and cancelling the thread in `stop_scheduler`.
- `io_sched_destroy_scheduler` and the reader and writer convenience constructors (`src/io-scheduler.c:44-75, 186-196`), which only pick arguments for `create_task`.
- Null arguments to scheduler calls, and misuse of tasks: scheduling one twice, rescheduling one that went back to the pool, negative time-outs other than -1 (the code asserts), descriptors below -1 for I/O, I/O with a time-out but no time-out callback. `Permitted` excludes them.
- Callbacks that pump the scheduler recursively or destroy it; a callback's own user data.
- The `prev`, `owner` and `time_scheduled` fields of a task, which the code never uses to decide anything; contents of fresh task objects before their first creation are taken as blank.
- Integer widths: counts, sizes, IDs and `connections` are unbounded; the casts of timer IDs to and from pointers and the product `unit_size * max_units` cannot overflow here. `FD_SETSIZE` does not limit descriptors.
- Allocation failure, apart from constructors asked for size 0.
- What `select`, `clock_gettime`, `waitpid`, `socket`, `bind` and `close` do: their answers are arguments, `close` is an event. The operating system answers a request for a socket with an invalid or a not yet open descriptor.
- Stacks.FixedStack.Push: the error code of a full stack, 0xffffffff cast to `ssize_t`, is taken as -1, as with a 32-bit `ssize_t`; with a 64-bit one it is 4294967295, a slot index only in a stack of 2^32 slots or more. Null and wrongly typed stack handles.
- The TCP and UDP tables have the same code on two lists: one class models both. Registering close listeners is a plain append.
- SchedulerSafety.TimersNeverEarly: tasks without a descriptor; those with one are the subject of `SchedulerTimeOuts`.
- MemoryPool.MemPool.constructor: a pool of 0 blocks is excluded; the code then writes the first slot of an array that has none. `NewIsSafeIff` speaks of such a pool only in the specification.
- MonitorTimer.AtMostOneMonitor: other clients do not create tasks with the manager's user data.
- MonitorTimer.MonitorRearms: other clients neither unschedule the monitor, nor start or stop its manager, nor stop the scheduler, and no other manager holds a stale pointer to it.
- ChildProcessManager.ChildManager.Destroy: records are values that do not change while monitored.
- CommandTokenizer.Split: 20 or more arguments and truncated command texts are excluded, as `argv` and the buffer have no room for them.
- CommandTokenizer: `isspace` is that of the C locale; pipes, fork, exec and the rest of `my_popen` and `my_system`.
- CircularList.Unlink: nodes are on proper rings; the guard against half-linked nodes is then always true.
- `src/tcp_service.c`, `src/tcp_socks.c`, `src/udp_socks.c`, `src/unix_socks.c`, `src/logging-svc.c`, `src/process_mgmt.c`, `src/child-process.c`: calls into the operating system, printing and plain constructors.
