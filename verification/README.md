# A verified model of the Mini OS Kernel Simulator

The simulator advances in time steps. In each step arriving processes become READY, a scheduler
(FCFS, Round Robin or Priority) may put one of them on the CPU, the running process executes one
unit, and when it has finished it gives up its page frames and its mutexes. This project models
that kernel, its pager, its semaphores and mutexes, and the text form of its configuration, and
proves what a run of it can and cannot do.

How the files fit together:

- `KernelTypes`, `Scheduling`, `TickModel`, `Paging`: one function on values for each operation.
- `TickSteps`, `TickInvariant`: what one step does to each process, and the invariant of all runs.
- `Workload`, `Termination`, `Waiting`, `Slicing`, `ServiceBound`, `FcfsClosedForm`,
  `RoundRobinRotation`: theorems about whole runs of the tick machine.
- `SchedulerSwitch`: what replacing the scheduler does to the rest of a run.
- `PagingInverse`, `PagingHistory`, `FifoReplacement`, `LruReplacement`: theorems about the pager.
- `SyncPrimitives`, `SyncManagement`: semaphore, mutex and their manager, objects and laws.
- `KernelLifecycle`: tick machine, pager and synchronization together.
- `ProcessManagement`, `MetricsCollection`, `MemoryManagement`, `SimulationControl`,
  `SimulationRun`: the mutable objects, each method proved to make the step of the model. The
  controller's state is spread over three maps in two objects; `SimulationControl` proves that
  they always join into the one table that the theorems speak about.
- `Decimal`, `TextLines`, `Configuration`, `JsonLayout`: the printer and the line parser, down to
  characters, and the written text read strictly.

Words used below. A process is *admitted* at tick max(arrival, tick added + 1). `Slice` is
max(1, quantum). One process *precedes* another when its scheduler key (arrival for FCFS,
priority for Priority) is smaller, or equal with a smaller pid.

Where the simulator's documents and its code differ, the model follows the code:

- Priority scheduling is described as preemptive (README.md:10). In the code a running process is
  never replaced; `ExactSlice` proves that an FCFS or Priority dispatch runs to completion.
  `PassedOverIff` says exactly which steps run a worse process while a better one is READY,
  `OneLaterRunner` that it is the same worse process throughout, and `BetterProcessWaits` reaches
  such a step.
- Round Robin is described as cycling through the processes. The ready list is taken before the
  expired process is put back, so the index moves over a list that is one short. `NextDispatch`
  is the order of service that results, `SecondIsPassedOver` shows the process that it leaves
  out, and `SecondIsServedIff` and `MiddleIsServedAfter` say exactly when it gets a turn.
- Saving and loading is described as giving back the same configuration. `FullRoundTripIff` gives
  the one process list for which it does; `RoundTrip` says what comes back in every case.
- The deadlock detector reports any process that owns a mutex and waits. It misses no cycle
  (`CycleIsDetected`), and it also reports states without one (`AlarmWithoutCycle`);
  `AlarmIsExactIff` gives the states in which its answer is right.

## Model

| member | source | states |
|---|---|---|
| FcfsClosedForm.FcfsRun | src/controllers/SimulationController.cpp:215-346 | For any processes added before the first step and any number of steps, every process of the FCFS run is in exactly the state, with exactly the metrics, that start = max(admission, previous completion + 1) over the (arrival, pid) order predicts |
| FcfsClosedForm.FcfsMetrics | src/kernel/MetricsCollector.cpp:260-279 | Once its completion tick has passed, the k-th process has waiting = start - admission, response = start - arrival, turnaround = completion - arrival |
| FcfsClosedForm.FcfsFinishesExactly | src/controllers/SimulationController.cpp:388-398 | The simulation reports its end exactly from the last completion of the recurrence on |
| FcfsClosedForm.ServiceOrderExists | src/kernel/Scheduler.cpp:12-24 | Every table has an order of service sorted by arrival and pid, so the closed form is never about nothing |
| Workload.PolicyIndependence | src/controllers/SimulationController.cpp:242-346 | On the same calls FCFS and Priority have equal remaining work, CPU time and finish after every call |
| Workload.RoundRobinNeverAhead | src/controllers/SimulationController.cpp:242-346 | On the same calls Round Robin never has less remaining work, more CPU time or an earlier finish |
| Workload.WorkRecurrence | src/controllers/SimulationController.cpp:255-346 | Remaining work after a step is max(work + newly admitted bursts - 1, 0) for FCFS and Priority, and at least that for Round Robin |
| Workload.CpuTimeIsAdmittedMinusWork | src/kernel/MetricsCollector.cpp:77-80 | CPU time counted and work left add up to the admitted bursts |
| Workload.CompletedIffNoWork | src/controllers/SimulationController.cpp:388-398 | The end is reported exactly when there are processes, none is still to come and no work is left |
| Termination.RunTerminates | src/controllers/SimulationController.cpp:194-240 | Every run ends within max(latest arrival, 1) - 1 + total burst steps, plus ceil(burst / slice) - 1 per process under Round Robin |
| Termination.Finishes | src/controllers/SimulationController.cpp:215-240 | The same bound from any reachable state, with processes added at any time |
| Termination.PotentialStep | src/controllers/SimulationController.cpp:255-346 | A step lowers time needed plus expiries to come by exactly one per executed unit and one per expiry |
| Termination.SlicesIsCeiling | src/controllers/SimulationController.cpp:275-301 | The number of slices of a burst is the burst divided by the slice, rounded up |
| Termination.IdleOnlyOnLoneExpiry | src/controllers/SimulationController.cpp:260-304 | A step that executes nothing and leaves a READY process is the expiry of the only ready Round Robin process, and the next step executes |
| Slicing.ExactSlice | src/controllers/SimulationController.cpp:275-345 | Whatever processes are added meanwhile, a dispatched process runs in exactly min(slice, remaining) consecutive steps under Round Robin, and all of its remaining ones otherwise; then it is terminated or its quantum has expired |
| Slicing.ExactDispatches | src/controllers/SimulationController.cpp:275-301 | A completed process was dispatched exactly ceil(burst / slice) times under Round Robin and once otherwise, whatever else was in the system |
| Slicing.ResponseIsFirstDispatch | src/kernel/MetricsCollector.cpp:46-70 | In every run the response time of a process is the time of its first dispatch minus its arrival; later dispatches do not change it |
| SchedulerSwitch.SwitchTakesEffect | src/controllers/SimulationController.cpp:148-158 | After an idle switch the processes, clock and CPU total are as before, and the next step dispatches by the new policy, with a fresh rotation, for the slice of the new quantum |
| ServiceBound.WaitingIsBounded | src/kernel/Scheduler.cpp:107-119 | Under Priority and FCFS the recorded waiting time is at most the longest burst - 1 among the processes it precedes plus the bursts of all that precede it |
| ServiceBound.LaterRunnerWasRunning | src/controllers/SimulationController.cpp:255-305 | A step that leaves a process READY executes one that it precedes exactly when such a one was already running, and then executes that one |
| ServiceBound.PassedOverIff | src/kernel/Scheduler.cpp:121-129 | Priority is not preemptive: a step passes over a READY process exactly when it is READY after the arrivals and precedes the process found running |
| ServiceBound.OneLaterRunner | src/controllers/SimulationController.cpp:255-305 | However long a process stays READY and whatever is added meanwhile, at most one process that it precedes runs: the one that was running at the beginning |
| ServiceBound.BetterProcessWaits | src/kernel/Scheduler.cpp:107-119 | Two processes and one step reach a state in which a worse process runs while a better one is READY |
| RoundRobinRotation.RotationVisitsEachOnce | src/kernel/Scheduler.cpp:52-65 | In as many choices as an unchanging ready list has entries, each entry is chosen exactly once |
| RoundRobinRotation.NextDispatch | src/controllers/SimulationController.cpp:260-304 | With everyone left admitted, an expiry or a completion hands the processor to the place that the index reaches in the list without the process that had it |
| RoundRobinRotation.SecondIsNextIff | src/kernel/Scheduler.cpp:52-65 | Exactly from which places and index values the second of the processes left is served next |
| RoundRobinRotation.SecondIsPassedOver | src/controllers/SimulationController.cpp:260-304 | With three or more processes left and any bursts and quantum, the order is 1, 3, 4, ..., 1, 3, ...: the second is not touched until one of them completes, nor served in the step after that |
| RoundRobinRotation.SomeoneCompletes | src/controllers/SimulationController.cpp:307-346 | That waiting ends: there is a step in which the first of the processes left completes |
| RoundRobinRotation.TurnsBegin | src/controllers/SimulationController.cpp:260-304 | Any three or more processes that are ready together are in that situation after the first step |
| RoundRobinRotation.SecondIsServedIff | src/controllers/SimulationController.cpp:260-304 | Of two or more processes ready together, the second is dispatched no later than the first completion exactly when there are only two and the first does not fit its slice |
| RoundRobinRotation.SecondIsServedFromStart | src/controllers/SimulationController.cpp:160-177 | The same for every list of added processes with arrivals of at most 1: the first added is dispatched first, and the second in time exactly if there are two and the first burst exceeds max(1, quantum) |
| RoundRobinRotation.MiddleIsServedAfter | src/controllers/SimulationController.cpp:260-304 | With three left, the middle one is first dispatched exactly when the dispatch that follows the first completion is over, and that dispatch goes to the other outer process |
| TickInvariant.Reachable | src/controllers/SimulationController.cpp:160-177 | Every state reached by adding processes, stepping and idle scheduler switches satisfies the invariant that links running pid, states, metrics and accounting |
| TickInvariant.CompletedAccounting | src/kernel/MetricsCollector.cpp:20-70 | Every completed process has waiting + burst = completion + 1 - admission and turnaround = waiting + burst + (admission - arrival) - 1, for all schedulers and additions during the run |
| TickInvariant.OneRunning | src/controllers/SimulationController.cpp:255-346 | At most one process is RUNNING and it is the one named; nothing remains exactly when TERMINATED, exactly when it has stored metrics; CPU time is the executed units and at most the clock |
| TickInvariant.SwitchKeepsInvIffIdle | src/controllers/SimulationController.cpp:148-158 | Replacing the scheduler keeps the invariant exactly when no process is running |
| TickInvariant.SwitchWhileRunningBreaks | src/controllers/SimulationController.cpp:155-157 | One added process and one step reach a state in which a switch breaks it |
| TickInvariant.TerminatedIsAbsorbing | src/kernel/ProcessManager.cpp:52-67 | In no continuation of a run does a terminated process or its metrics ever change again |
| TickInvariant.TableOfAccepted | src/kernel/ProcessManager.cpp:12-30 | In every reachable state the table holds exactly the processes added with a priority of 1 to 10, a positive burst and no negative arrival, in order and with those values; a completion time only once terminated |
| TickInvariant.QuantumAlways | src/controllers/SimulationController.cpp:275-345 | The quantum counter is 0 without Round Robin, not positive while no process runs, and below the quantum while one does |
| TickInvariant.StaleRunnerIsForgotten | src/controllers/SimulationController.cpp:266-273 | A running pid without a RUNNING process is dropped, and the step goes on as if no process ran |
| Waiting.WaitingCountedTwice | src/kernel/MetricsCollector.cpp:46-70 | After every prefix of every run, stored and accumulated waiting with the open READY intervals equals the number of READY processes summed over the step ends |
| Waiting.TotalWaitingAtTheEnd | src/kernel/MetricsCollector.cpp:260-263 | When the simulation is over, the stored waiting times alone equal that sum |
| TickSteps.PickedPrecedes | src/kernel/Scheduler.cpp:12-24 | The process dispatched by FCFS or Priority precedes every other process that is READY in that step |
| TickSteps.PickedByArrival | src/kernel/Scheduler.cpp:12-24 | In the machine FCFS dispatches the earliest arrival of all READY processes, then the lowest pid |
| TickSteps.PickedByPriority | src/kernel/Scheduler.cpp:107-119 | In the machine Priority dispatches the lowest priority number of all READY processes, then the lowest pid |
| Scheduling.ChoosesTheFirst | src/kernel/Scheduler.cpp:107-119 | On a list in pid order the minimum scan finds the one process that precedes all others |
| Scheduling.FcfsTakesEarliest | src/kernel/Scheduler.cpp:12-24 | On a list in pid order FCFS picks the process with the earliest arrival, and among equal arrivals the lowest pid |
| Scheduling.PriorityTakesLowest | src/kernel/Scheduler.cpp:107-119 | On a list in pid order Priority picks the lowest priority number, and among equal ones the lowest pid |
| Scheduling.InStateByPid | src/kernel/ProcessManager.cpp:99-117 | The ready list of a table in pid order is in pid order |
| Scheduling.MinElement | src/kernel/Scheduler.cpp:18-21 | The scan returns the first of the least elements |
| Scheduling.Scheduler.SelectNextProcess | src/kernel/Scheduler.cpp:12-65 | The pid and the new index are those of the model's choice; an empty list gives -1 and changes nothing |
| PagingInverse.AlwaysConsistent | src/kernel/MemoryManager.cpp:21-121 | In every reachable state frame f is allocated to (p, v) exactly when p's one entry for v is valid and names f |
| PagingInverse.FaultKeepsConsistentIff | src/kernel/MemoryManager.cpp:87-121 | Handling a fault keeps the two indexes inverse exactly when the page was not resident, no frame was found, or the victim was the page's own frame |
| PagingInverse.RepeatedFaultBreaks | src/kernel/MemoryManager.cpp:87-121 | A second fault on a resident page with a free frame left reaches the failing case |
| PagingInverse.AllocateKeepsConsistentIff | src/kernel/MemoryManager.cpp:21-67 | Allocation keeps them inverse exactly when it is refused or the process has no entry for a page below the count; a process without a table always qualifies |
| PagingInverse.AllocateMapsExactly | src/kernel/MemoryManager.cpp:21-67 | If 0 < n <= free frames exactly pages 0..n-1 become mapped, to frames that were free and are stamped with the clock, and the free frames fall by n; otherwise nothing changes; counters and clock never do |
| PagingInverse.AccessStamps | src/kernel/MemoryManager.cpp:183-198 | An access sets the clock and the access time of the frame that holds the page, and nothing else |
| PagingInverse.SetEntryShape | src/kernel/MemoryManager.cpp:257-282 | An existing entry is reused, valid or not; one is appended exactly for a valid mapping of a page without an entry |
| PagingHistory.CountersCount | src/kernel/MemoryManager.cpp:87-121 | Over every run the fault counter is the number of fault calls, and the replacement counter the number of those that found every frame in use and a victim |
| PagingHistory.FramesBalance | src/kernel/MemoryManager.cpp:69-121 | Over every run faults + pages allocated = replacements + frames in use + frames given back + faults refused |
| PagingHistory.FrameTimes | src/kernel/MemoryManager.cpp:183-198 | Over every allowed run the clock is the time of the last access, and each frame in use keeps the load time and the last use time of its page |
| PagingInverse.RepeatedAllocationBreaks | src/kernel/MemoryManager.cpp:43-64 | A second allocation for the same process reaches the failing case |
| PagingInverse.DeallocateKeepsConsistent | src/kernel/MemoryManager.cpp:69-85 | Freeing a process empties exactly its frames and unmaps exactly its pages |
| PagingInverse.FaultLookup | src/kernel/MemoryManager.cpp:257-282 | A fault maps the new page, unmaps the page that was in the frame, and leaves every other lookup as it was |
| PagingInverse.MappingIsOneToOne | src/kernel/MemoryManager.cpp:204-218 | No frame serves two pages, no page has two frames, and the lookup is exact |
| FifoReplacement.FifoRefinesQueue | src/kernel/MemoryManager.cpp:292-304 | In every run whose loads come in order, the pages in memory are those of an abstract queue, and the victim on full memory is the page at its front |
| FifoReplacement.LoadGoesLastIff | src/kernel/MemoryManager.cpp:93-115 | A loaded page becomes the last in replacement order exactly when every other page is older by allocation time, then frame index |
| FifoReplacement.AdvancingCallsInOrder | src/kernel/MemoryManager.cpp:110-115 | A condition on the list of calls alone is enough for that: between two loads an access moves the clock on, and loads happen below INT_MAX |
| FifoReplacement.BatchOrder | src/kernel/MemoryManager.cpp:43-64 | The pages of one allocation enter the queue in page order although they share one time |
| LruReplacement.LruKeepsMostRecent | src/kernel/MemoryManager.cpp:183-218 | From empty memory, with strictly increasing times, the resident pages are exactly the min(frames, distinct) most recently referenced ones |
| LruReplacement.LruInclusion | src/kernel/MemoryManager.cpp:310-322 | What is resident with fewer frames is resident with more |
| LruReplacement.MoreFramesNeverMoreFaults | src/kernel/MemoryManager.cpp:87-121 | More frames never give a higher page fault count |
| LruReplacement.RecencyDistinct | src/kernel/MemoryManager.cpp:183-198 | The recency list holds every referenced page exactly once |
| KernelLifecycle.FramesBelongToLiveProcesses | src/controllers/SimulationController.cpp:160-177 | In every state reached by steps, added processes, idle scheduler switches, pager calls and semaphore and mutex calls, an allocated frame belongs to an existing process that is not terminated, and all frames are free once the end is reported |
| KernelLifecycle.StepFreesOnlyTheCompleted | src/controllers/SimulationController.cpp:328-345 | A step unmaps exactly the pages of the process that completes in it |
| KernelLifecycle.StepTouchesMemory | src/controllers/SimulationController.cpp:348-353 | After a step that leaves a process running the pager's clock is the new time and page 0 of that process, if resident, was just used; otherwise the clock stays; every other frame but those of the completed process, and every counter, is as it was |
| KernelLifecycle.StepReleasesMutexes | src/controllers/SimulationController.cpp:328-345 | After a step each mutex of the completed process belongs to its first waiter or is free; all others, and the semaphores, are as they were |
| KernelLifecycle.AddedProcessGetsPages | src/controllers/SimulationController.cpp:160-177 | An accepted process with 0 < memory <= free frames gets exactly pages 0..memory-1, in frames that were free; otherwise the pager is unchanged; nothing else is remapped |
| KernelLifecycle.SettingsInForce | src/controllers/SimulationController.cpp:148-158 | In every reachable state the number of frames is that of the start, the clock is the number of steps, and scheduler, quantum and replacement are the last ones set |
| SyncPrimitives.SemaphoreHistory | src/kernel/SyncManager.cpp:9-41 | Over any calls the grants happen in the order of the waits, their number is min(waits, initial + signals), and count - queue length = initial + signals - waits |
| SyncPrimitives.LockKeepsInvIff | src/kernel/SyncManager.cpp:86-101 | A lock keeps "owned when waited for, owner not waiting, no one waiting twice" exactly when the caller is not already waiting |
| SyncPrimitives.MutexHistory | src/kernel/SyncManager.cpp:86-122 | In every run from a free mutex the owners made so far followed by the queue are the callers that did not own it, in call order, and it is owned by the last of them until as many owner unlocks have happened |
| SyncPrimitives.FreeMutexIsAcquired | src/kernel/SyncManager.cpp:86-101 | In every run a lock of a free mutex makes the caller its owner at once |
| SyncPrimitives.MutexAlwaysHandedOff | src/kernel/SyncManager.cpp:86-122 | In every run in which waiting processes do not lock again, a waited-for mutex is owned, and not by a waiting process |
| SyncPrimitives.WaiterServedInTurn | src/kernel/SyncManager.cpp:103-122 | The waiter at position k moves up with every unlock by the owner and owns the mutex after exactly k + 1 of them |
| SyncPrimitives.Semaphore.Wait | src/kernel/SyncManager.cpp:15-26 | The step of the history law; true exactly when granted at once |
| SyncPrimitives.Semaphore.Signal | src/kernel/SyncManager.cpp:28-41 | The step of the history law; returns the longest waiting process, or -1 |
| SyncPrimitives.Mutex.Lock | src/kernel/SyncManager.cpp:86-101 | The step of the mutex runs; true exactly when the caller owns it afterwards |
| SyncPrimitives.Mutex.Unlock | src/kernel/SyncManager.cpp:103-122 | The step of the mutex runs; returns the new owner, or -1 when there is none or the caller did not own it |
| SyncPrimitives.QueueContains | src/kernel/SyncManager.cpp:53-64 | Emptying a copy finds the process exactly when it is queued |
| SyncManagement.CleanupPromotes | src/kernel/SyncManager.cpp:345-358 | Cleanup leaves the process owning nothing, promotes the first waiter of each of its mutexes and leaves all other mutexes alone |
| SyncManagement.CleanupReleasesIff | src/kernel/SyncManager.cpp:345-358 | In any state whatever, it leaves the process owning nothing exactly when it is not first in line for a mutex of its own |
| SyncManagement.CycleIsDetected | src/kernel/SyncManager.cpp:310-343 | A cycle of any length in the wait-for graph of the mutexes makes the detector answer true |
| SyncManagement.AlarmIsExactIff | src/kernel/SyncManager.cpp:310-343 | The detector is true just when there is a cycle, exactly in the states in which no owner waits or pruning the waiting processes leaves some |
| SyncManagement.CycleIffClosed | src/kernel/SyncManager.cpp:310-343 | There is a cycle of waiting processes exactly when some set of processes is closed: each waits for a mutex owned inside the set |
| SyncManagement.PruningFindsClosed | src/kernel/SyncManager.cpp:310-343 | Dropping processes that wait for no one left finds the largest closed set, and nothing exactly when there is none |
| SyncManagement.AlarmWithoutCycle | src/kernel/SyncManager.cpp:335-340 | A state without a cycle in which the detector answers true |
| SyncManagement.AlarmMeans | src/kernel/SyncManager.cpp:310-343 | The alarm is that some owner of a mutex stands in the queue of a semaphore or of a mutex |
| SyncManagement.AlarmAfterWait | src/kernel/SyncManager.cpp:15-26 | A wait raises the alarm exactly when the semaphore is exhausted and the caller owns a mutex |
| SyncManagement.AlarmAfterLock | src/kernel/SyncManager.cpp:86-101 | A lock that blocks raises it exactly when the caller owns a mutex, a lock that succeeds exactly when the caller waits |
| SyncManagement.WaitMakesWaiting | src/kernel/SyncManager.cpp:271-289 | A wait on an exhausted semaphore adds its caller to the waiting processes, and a call of wait adds no one else |
| SyncManagement.LockMakesWaiting | src/kernel/SyncManager.cpp:271-289 | A lock of a mutex owned by another process adds its caller, and a lock adds no one else |
| SyncManagement.SyncManager.DetectDeadlock | src/kernel/SyncManager.cpp:310-343 | The two collected sets meet exactly when some mutex owner waits for a semaphore or a mutex |
| SyncManagement.SyncManager.IsProcessWaiting | src/kernel/SyncManager.cpp:271-289 | True exactly when the process is in some queue |
| SyncManagement.SyncManager.CleanupProcess | src/kernel/SyncManager.cpp:345-358 | In any order of the mutexes, each is unlocked for the process once |
| SyncManagement.SyncManager.CreateMutex | src/kernel/SyncManager.cpp:182-189 | A free mutex under a new id; every other object keeps its state |
| SyncManagement.SyncManager.CreateSemaphore | src/kernel/SyncManager.cpp:173-180 | A semaphore with its start count under a new id; every other object keeps its state |
| MemoryManagement.MemoryManager.AllocatePages | src/kernel/MemoryManager.cpp:21-67 | The whole new state is that of the model; true exactly when enough frames were free |
| MemoryManagement.MemoryManager.HandlePageFault | src/kernel/MemoryManager.cpp:87-121 | The whole new state, counters included, is that of the model; returns the frame used or -1 |
| MemoryManagement.MemoryManager.DeallocatePages | src/kernel/MemoryManager.cpp:69-85 | The in-place loop resets exactly the frames of the process, and its table is gone |
| MemoryManagement.MemoryManager.AccessPage | src/kernel/MemoryManager.cpp:183-198 | The clock is set and only the access time of the page's frame changes |
| MemoryManagement.MemoryManager.UpdatePageTableEntry | src/kernel/MemoryManager.cpp:257-282 | The first entry for the page changes, or one is appended when the mapping is valid |
| MemoryManagement.MemoryManager.SelectVictimFrame | src/kernel/MemoryManager.cpp:292-322 | The first allocated frame of least age below INT_MAX, or -1 |
| MemoryManagement.MemoryManager.GetPhysicalFrame | src/kernel/MemoryManager.cpp:204-218 | The frame of the first valid entry, always an existing one, or -1 |
| MemoryManagement.MemoryManager.FindFreeFrame | src/kernel/MemoryManager.cpp:220-227 | The lowest free frame, or -1 |
| ProcessManagement.ProcessManager.CreateProcess | src/kernel/ProcessManager.cpp:12-30 | The next pid with a NEW control block, or -1 and no change when a parameter is out of range |
| ProcessManagement.ProcessManager.GetProcessesByState | src/kernel/ProcessManager.cpp:99-117 | The processes in that state, in pid order |
| ProcessManagement.ProcessManager.DecreaseRemainingTime | src/kernel/ProcessManager.cpp:166-182 | The remaining time falls by the units but not below zero; true exactly when time is left |
| ProcessManagement.ProcessManager.UpdateProcessState | src/kernel/ProcessManager.cpp:52-67 | Only the state of that process changes; false for an unknown pid |
| MetricsCollection.MetricsCollector.RecordStateChange | src/kernel/MetricsCollector.cpp:46-70 | Leaving READY adds the interval to the waiting time, and only the first run sets the first run time |
| MetricsCollection.MetricsCollector.RecordProcessCompletion | src/kernel/MetricsCollector.cpp:20-44 | The process leaves the tracked ones and its final metrics are stored; an unknown pid changes nothing |
| SimulationControl.SimulationController.ExecuteTimeStep | src/controllers/SimulationController.cpp:215-240 | The table, the metrics, the scheduler, the pager and the mutexes together make exactly the step of the model; the answer is false exactly when all have completed |
| SimulationControl.SimulationController.HandleProcessArrivals | src/controllers/SimulationController.cpp:242-253 | Exactly the NEW processes that are due become READY, in table and metrics alike |
| SimulationControl.SimulationController.HandleCPUScheduling | src/controllers/SimulationController.cpp:255-305 | The scheduling phase of the model, with the ready list taken before a demotion |
| SimulationControl.SimulationController.HandleProcessExecution | src/controllers/SimulationController.cpp:307-346 | The execution phase of the model; on completion, and only then, frames and mutexes are given up |
| SimulationControl.SimulationController.AddProcess | src/controllers/SimulationController.cpp:160-177 | A valid process is appended as NEW and tracked, and its pages are allocated; an invalid one changes nothing and gives -1 |
| SimulationControl.SimulationController.AllProcessesCompleted | src/controllers/SimulationController.cpp:388-398 | True exactly when there are processes and all are terminated |
| SimulationControl.SimulationController.SetSchedulingAlgorithm | src/controllers/SimulationController.cpp:148-158 | A new scheduler, with no running process and no quantum left |
| SimulationRun.SimulationLoop | src/controllers/SimulationController.cpp:194-213 | The loop terminates for every scheduler and every process set, within the finishing bound, at the first step that reports the end; processes, frames and mutexes are then in the state that this many model steps give |
| Configuration.RoundTrip | src/controllers/ConfigurationManager.cpp:115-252 | Reading back a saved configuration succeeds and restores algorithm, quantum, speed, step mode and all memory fields; of the processes it gives the three defaults and the first saved one, if its burst is positive |
| Configuration.FullRoundTripIff | src/controllers/ConfigurationManager.cpp:155-252 | The whole configuration comes back exactly when its processes are the three defaults followed by the first default |
| Configuration.ConfigurationToJson | src/controllers/ConfigurationManager.cpp:115-153 | The text written by the loop is the list of lines that the round trip is about |
| Configuration.ConfigurationFromJson | src/controllers/ConfigurationManager.cpp:155-252 | The line loop computes the parse that the round trip and the failure condition are about |
| Configuration.ParseFailsIff | src/controllers/ConfigurationManager.cpp:193-245 | Reading fails exactly at the first field line that gives an integer field of its section a value that is no int, or gives the page size 0 |
| Configuration.ProcessesRead | src/controllers/ConfigurationManager.cpp:184-231 | Of all the saved process blocks only the first has any effect |
| JsonLayout.WrittenTextIsLaidOut | src/controllers/ConfigurationManager.cpp:115-153 | For every configuration the written text has matching brackets, keys in objects only, and a comma exactly between members |
| JsonLayout.FieldsChangeByTheirKeys | src/controllers/ConfigurationManager.cpp:207-245 | An accepted field line changes only the setting that its key names in the open section; the page size also sets the frame count |
| JsonLayout.MarkersOpenAndClose | src/controllers/ConfigurationManager.cpp:171-195 | Which lines open or close a section, in what order they are looked for, and which lines change nothing |
| JsonLayout.EmptyTextGivesDefaults | src/controllers/ConfigurationManager.cpp:254-275 | A text without lines gives the default configuration, value by value |
| JsonLayout.DefaultProcess | include/SimulationConfig.h:16-16 | A process of which only the memory requirement is saved has priority 5, burst 10 and arrival 0 |
| JsonLayout.NamesAreRead | src/controllers/ConfigurationManager.cpp:277-317 | The saved names, and what any other name is read as |
| Decimal.StoiReadsIntText | src/controllers/ConfigurationManager.cpp:210-239 | Every int is read back from its decimal text |
| Decimal.StoiReads | src/controllers/ConfigurationManager.cpp:210-239 | Blanks, at most one sign and then digits are read; it fails exactly without digits or outside 32 bits |
| Decimal.NatTextDigits | src/controllers/ConfigurationManager.cpp:125-150 | The k-th character printed, from the right, is the k-th decimal digit |
| TextLines.SplitJoin | src/controllers/ConfigurationManager.cpp:171-171 | Reading line by line gives back the lines that were written |
| TextLines.ContainsIff | src/controllers/ConfigurationManager.cpp:178-184 | The search finds exactly the lines in which the pattern occurs |
| TextLines.SkipLeadIs | src/controllers/ConfigurationManager.cpp:172-176 | Exactly the blanks, tabs and quotes at the front are cut |
| TextLines.TrimTailIs | src/controllers/ConfigurationManager.cpp:201-205 | Exactly the blanks, tabs, quotes and commas at the end are cut |
| TextLines.SplitsIntoKeyAndValue | src/controllers/ConfigurationManager.cpp:193-205 | Cutting at the colon and trimming gives back exactly the printed key and value |

## Left out

- Qt windows, file access, CSV, the report text and the input validator's messages: input and output only.
- Threads, locks, sleeping and the start, pause, resume and stop flags: each public call is one atomic step. The detector and the report take a lock they already hold in the source (src/kernel/SyncManager.cpp:311, src/kernel/MetricsCollector.cpp:175); only what they compute is modelled.
- `initialize`: the constructor and `AddProcess` together do what it does; a controller before `initialize` has no scheduler and only admits, and is not modelled.
- Termination of a process from outside and direct edits of process states: the kernel itself never does either.
- Averages and percentages in floating point: the theorems are about the integers they are computed from.
- Machine integer overflow: times, counters and pids are unbounded integers. The replacement scans keep their start value INT_MAX, and the LRU and FIFO theorems ask for times below it.
- The three scheduler classes are one class with a constant that tells them apart, and the two replacement classes are the `Age` function; the quantum kept inside the Round Robin object has no effect in the source and none here.
- Fields that are never read: frame ids, dirty bits, start times, allocated page lists, and the tracked copy of the control block except its arrival time.
- The unordered map is walked in pid order where the source collects and then sorts by pid.
- ConfigurationFromJson: the configuration that a failed read leaves half filled, and a page size of 0, where the source divides by zero and the model fails.
- AddProcess: whether all pages were allocated is not part of the answer, as in the source, which ignores it.
- Resetting the components, and the getters: easy members.
