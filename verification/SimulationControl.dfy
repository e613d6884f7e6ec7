/**
 The simulation controller object. Its state is spread over the process table, the collector's
 two maps and the scheduler; every method is proved to make the step that the tick model and
 the kernel model make on the joined state.
*/
module SimulationControl {
  import opened KernelTypes
  import opened Scheduling
  import opened TickModel
  import opened KernelLifecycle
  import P = Paging
  import opened SyncManagement
  import opened ProcessManagement
  import opened MetricsCollection
  import opened MemoryManagement

  type Processes = map<int, Pcb>
  type Tracked = map<int, TrackingInfo>
  type Completed = map<int, ProcessMetrics>

  /** Pids 1..n, each either tracked or completed, never both. */
  ghost predicate Keyed(ps: Processes, info: Tracked, done: Completed, n: int) {
    && n >= 0
    && (forall pid :: pid in ps <==> 1 <= pid <= n)
    && (forall pid :: pid in ps <==> pid in info || pid in done)
    && (forall pid :: !(pid in info && pid in done))
    && forall pid :: pid in ps ==> ps[pid].pid == pid
  }

  function TrackOf(info: Tracked, done: Completed, pid: int): Tracking
    requires pid in info || pid in done
  {
    if pid in info then Active(info[pid]) else Done(done[pid])
  }

  /** The three maps joined into the table of the tick model. */
  ghost function TasksOf(ps: Processes, info: Tracked, done: Completed, n: int): (t: seq<Task>)
    requires Keyed(ps, info, done, n)
    ensures |t| == n
    ensures forall i :: 0 <= i < n ==> t[i] == Task(ps[i + 1], TrackOf(info, done, i + 1))
  {
    seq(n, i requires 0 <= i < n => Task(ps[i + 1], TrackOf(info, done, i + 1)))
  }

  function InfoChanged(info: Tracked, pid: int, from: ProcessState, to: ProcessState, now: int): Tracked {
    if pid in info then info[pid := RecordedChange(info[pid], from, to, now)] else info
  }

  /** A state change made in the table and recorded in the metrics is one move of its entry. */
  lemma MovedTasks(ps: Processes, info: Tracked, done: Completed, n: int, pid: int, to: ProcessState, now: int)
    requires Keyed(ps, info, done, n) && 1 <= pid <= n
    ensures var ps', info' := ps[pid := ps[pid].(state := to)], InfoChanged(info, pid, ps[pid].state, to, now);
            && Keyed(ps', info', done, n)
            && TasksOf(ps', info', done, n)
               == TasksOf(ps, info, done, n)[pid - 1 := Moved(TasksOf(ps, info, done, n)[pid - 1], to, now)]
  {
    hide RecordedChange;
    var ps', info' := ps[pid := ps[pid].(state := to)], InfoChanged(info, pid, ps[pid].state, to, now);
    var t, u := TasksOf(ps, info, done, n), TasksOf(ps', info', done, n);
    forall i | 0 <= i < n ensures u[i] == t[pid - 1 := Moved(t[pid - 1], to, now)][i] {
    }
  }

  lemma AddedTasks(ps: Processes, info: Tracked, done: Completed, n: int, p: Pcb)
    requires Keyed(ps, info, done, n) && p.pid == n + 1
    ensures p.pid !in info && Keyed(ps[p.pid := p], info[p.pid := NewTracking(p)], done, n + 1)
    ensures TasksOf(ps[p.pid := p], info[p.pid := NewTracking(p)], done, n + 1)
            == TasksOf(ps, info, done, n) + [Task(p, Active(NewTracking(p)))]
  {
    hide NewTracking;
  }

  /** Another control block for a process that keeps its pid. */
  lemma ChangedPcb(ps: Processes, info: Tracked, done: Completed, n: int, pid: int, p: Pcb)
    requires Keyed(ps, info, done, n) && 1 <= pid <= n && p.pid == pid
    ensures Keyed(ps[pid := p], info, done, n)
    ensures TasksOf(ps[pid := p], info, done, n)
            == TasksOf(ps, info, done, n)[pid - 1 := TasksOf(ps, info, done, n)[pid - 1].(pcb := p)]
  {
  }

  /** The maps after a completion: the process is no longer tracked, and its metrics are stored. */
  function InfoCompleted(info: Tracked, pid: int): Tracked {
    if pid in info then info - {pid} else info
  }

  function MetricsCompleted(info: Tracked, done: Completed, pid: int, now: int): Completed {
    if pid in info then done[pid := FinalMetrics(info[pid], now)] else done
  }

  lemma FinishedKeyed(ps: Processes, info: Tracked, done: Completed, n: int, pid: int, p: Pcb, now: int)
    requires Keyed(ps, info, done, n) && 1 <= pid <= n && p.pid == pid
    ensures Keyed(ps[pid := p], InfoCompleted(info, pid), MetricsCompleted(info, done, pid, now), n)
    ensures pid in info ==> |MetricsCompleted(info, done, pid, now)| == |done| + 1
  {
    hide FinalMetrics;
  }

  lemma FinishedTasks(ps: Processes, info: Tracked, done: Completed, n: int, pid: int, now: int)
    requires Keyed(ps, info, done, n) && 1 <= pid <= n
    ensures var p := ps[pid].(state := Terminated, completion := now);
            && Keyed(ps[pid := p], InfoCompleted(info, pid), MetricsCompleted(info, done, pid, now), n)
            && TasksOf(ps[pid := p], InfoCompleted(info, pid), MetricsCompleted(info, done, pid, now), n)
               == TasksOf(ps, info, done, n)[pid - 1 := Finished(TasksOf(ps, info, done, n)[pid - 1], now)]
  {
    hide FinalMetrics;
    var p := ps[pid].(state := Terminated, completion := now);
    var info', done' := InfoCompleted(info, pid), MetricsCompleted(info, done, pid, now);
    FinishedKeyed(ps, info, done, n, pid, p, now);
    var t, u := TasksOf(ps, info, done, n), TasksOf(ps[pid := p], info', done', n);
    assert u[pid - 1] == Finished(t[pid - 1], now);
    hide Keyed, Finished;
    forall i | 0 <= i < n && i != pid - 1 ensures u[i] == t[i] {
    }
  }

  /** The joined tasks hold the control blocks of the table. */
  lemma TablePcbs(ps: Processes, info: Tracked, done: Completed, n: int, table: seq<Pcb>)
    requires Keyed(ps, info, done, n) && |table| == n && forall i :: 0 <= i < n ==> table[i] == ps[i + 1]
    ensures table == Pcbs(TasksOf(ps, info, done, n))
    ensures forall pid :: pid in ps <==> 1 <= pid <= n
    ensures forall pid :: pid in ps ==> TasksOf(ps, info, done, n)[pid - 1].pcb == ps[pid]
    ensures forall p :: p in table ==> p.pid in ps
  {
  }

  /** The execution phase when a process runs: one unit less, or the completion. */
  lemma ExecuteRunning(m: Machine)
    requires HasTask(m, m.running) && m.tasks[m.running - 1].pcb.state.Running?
    ensures var t := m.tasks[m.running - 1];
            var ran := t.(pcb := Decreased(t.pcb));
            var n := m.(cpuTotal := m.cpuTotal + 1);
            if ran.pcb.remaining > 0 then
              && Completing(m) == -1
              && Execute(m) == n.(tasks := m.tasks[m.running - 1 := ran],
                                  quantumLeft := if m.algo.RoundRobin? then m.quantumLeft - 1 else m.quantumLeft)
            else
              && Completing(m) == m.running
              && Execute(m) == n.(tasks := m.tasks[m.running - 1 := Finished(ran, m.now)], running := -1, quantumLeft := 0)
  {
  }

  lemma ExecuteIdle(m: Machine)
    requires m.running == -1 || !HasTask(m, m.running) || !m.tasks[m.running - 1].pcb.state.Running?
    ensures Completing(m) == -1 && Execute(m) == m.(running := -1)
  {
  }

  class SimulationController {
    const processManager: ProcessManager
    const memoryManager: MemoryManager
    const syncManager: SyncManager
    const metricsCollector: MetricsCollector
    var scheduler: Scheduler
    var algorithm: SchedulingAlgorithm
    var timeQuantum: int
    var currentTime: int
    var currentRunningProcess: int
    var timeQuantumRemaining: int

    /** The process table and the collector agree. */
    ghost predicate TasksValid()
      reads processManager, metricsCollector
    {
      && processManager.Valid()
      && metricsCollector.totalProcesses == processManager.nextPid - 1
      && metricsCollector.completedCount == |metricsCollector.completedProcesses|
      && Keyed(processManager.processes, metricsCollector.processInfo, metricsCollector.completedProcesses,
               processManager.nextPid - 1)
    }

    /** The scheduler object is the one the configuration asks for. */
    ghost predicate SchedulerValid()
      reads this, scheduler
    {
      scheduler.Valid() && scheduler.algorithm == algorithm && scheduler.timeQuantum == timeQuantum
    }

    ghost predicate Valid()
      reads this, processManager, memoryManager, syncManager, metricsCollector, scheduler
    {
      && TasksValid() && SchedulerValid() && memoryManager.Valid() && syncManager.Valid()
      && metricsCollector.simulationTime == currentTime
    }

    ghost function Tasks(): (t: seq<Task>)
      requires TasksValid()
      reads processManager, metricsCollector
      ensures |t| == processManager.nextPid - 1
    {
      TasksOf(processManager.processes, metricsCollector.processInfo, metricsCollector.completedProcesses,
              processManager.nextPid - 1)
    }

    ghost function MachineState(): Machine
      requires TasksValid()
      reads this, processManager, metricsCollector, scheduler
    {
      Machine(currentTime, currentRunningProcess, timeQuantumRemaining, algorithm, timeQuantum,
              scheduler.lastScheduledIndex, Tasks(), metricsCollector.cpuExecutionTime)
    }

    ghost function State(): Kernel
      requires Valid()
      reads this, processManager, memoryManager, syncManager, metricsCollector, scheduler, syncManager.Objects()
    {
      Kernel(MachineState(), memoryManager.State(), syncManager.State())
    }

    constructor (algo: SchedulingAlgorithm, quantum: int, numFrames: int, replacement: ReplacementAlgorithm)
      ensures Valid() && State() == KernelStart(algo, quantum, Max(0, numFrames), replacement)
      ensures fresh(processManager) && fresh(memoryManager) && fresh(syncManager) && fresh(metricsCollector)
      ensures fresh(scheduler) && fresh(syncManager.Objects())
    {
      processManager := new ProcessManager();
      memoryManager := new MemoryManager(numFrames, replacement);
      syncManager := new SyncManager();
      metricsCollector := new MetricsCollector();
      scheduler := new Scheduler(algo, quantum);
      algorithm, timeQuantum := algo, quantum;
      currentTime, currentRunningProcess, timeQuantumRemaining := 0, -1, 0;
    }

    /** The entry of a pid holds the control block of the table. */
    lemma TaskFact(pid: int)
      requires TasksValid()
      ensures pid in processManager.processes <==> 1 <= pid <= |Tasks()|
      ensures pid in processManager.processes ==> Tasks()[pid - 1].pcb == processManager.processes[pid]
    {
    }

    lemma TableFacts()
      requires TasksValid()
      ensures processManager.Table() == Pcbs(Tasks())
      ensures forall p :: p in processManager.Table() ==> 1 <= p.pid <= |Tasks()|
    {
      TablePcbs(processManager.processes, metricsCollector.processInfo, metricsCollector.completedProcesses,
                processManager.nextPid - 1, processManager.Table());
    }

    /** Creation of a process in the table and in the metrics. */
    method CreateTask(config: ProcessConfig) returns (pid: int)
      requires TasksValid()
      modifies processManager, metricsCollector
      ensures TasksValid() && metricsCollector.simulationTime == old(metricsCollector.simulationTime)
      ensures metricsCollector.cpuExecutionTime == old(metricsCollector.cpuExecutionTime)
      ensures pid == if AcceptsParameters(config.priority, config.burst, config.arrival) then |old(Tasks())| + 1 else -1
      ensures Tasks() == if pid == -1 then old(Tasks()) else
                           var p := NewPcb(pid, config.priority, config.burst, config.arrival);
                           old(Tasks()) + [Task(p, Active(NewTracking(p)))]
    {
      AddedTasks(processManager.processes, metricsCollector.processInfo, metricsCollector.completedProcesses,
                 processManager.nextPid - 1,
                 NewPcb(processManager.nextPid, config.priority, config.burst, config.arrival));
      hide NewTracking, Keyed, TasksOf;
      pid := processManager.CreateProcess(config.priority, config.burst, config.arrival);
      if pid > 0 {
        metricsCollector.RecordProcessCreation(processManager.processes[pid]);
      }
    }

    method AddProcess(config: ProcessConfig) returns (pid: int)
      requires Valid()
      modifies processManager, metricsCollector, memoryManager
      ensures Valid() && State() == KernelAdd(old(State()), config)
      ensures pid == if AcceptsParameters(config.priority, config.burst, config.arrival) then |old(Tasks())| + 1 else -1
    {
      hide P.Allocate, TasksValid, Tasks, SyncManager.State, SyncManager.Valid, FramesExist, NewPcb, NewTracking;
      pid := CreateTask(config);
      if pid > 0 {
        if config.memory > 0 {
          var enoughFrames := memoryManager.AllocatePages(pid, config.memory);
        }
      }
      SyncStateFrame(syncManager);
    }

    /** A state change in the process table, recorded in the metrics. */
    method ChangeState(pid: int, to: ProcessState)
      requires TasksValid() && pid in processManager.processes
      modifies processManager`processes, metricsCollector`processInfo
      ensures TasksValid() && 1 <= pid <= |Tasks()|
      ensures Tasks() == old(Tasks())[pid - 1 := Moved(old(Tasks())[pid - 1], to, currentTime)]
    {
      var from := processManager.processes[pid].state;
      MovedTasks(processManager.processes, metricsCollector.processInfo, metricsCollector.completedProcesses,
                 processManager.nextPid - 1, pid, to, currentTime);
      hide RecordedChange, Moved, TasksOf, Keyed;
      var updated := processManager.UpdateProcessState(pid, to);
      metricsCollector.RecordStateChange(pid, from, to, currentTime);
    }

    method HandleProcessArrivals()
      requires TasksValid()
      modifies processManager`processes, metricsCollector`processInfo
      ensures TasksValid() && MachineState() == Arrivals(old(MachineState()))
    {
      ghost var before := Tasks();
      for pid := 1 to processManager.nextPid
        invariant TasksValid() && |Tasks()| == |before| == processManager.nextPid - 1
        invariant forall i :: 0 <= i < |before| ==>
                    Tasks()[i] == if i < pid - 1 then Admit(before[i], currentTime) else before[i]
      {
        TaskFact(pid);
        hide Moved;
        var p := processManager.processes[pid];
        if p.state.New? && p.arrival <= currentTime {
          ChangeState(pid, Ready);
        }
      }
      assert Tasks() == Arrivals(old(MachineState())).tasks;
    }

    /** The ready list, read from the process table. */
    method ReadyProcesses() returns (ready: seq<Pcb>)
      requires TasksValid()
      ensures ready == InState(Pcbs(Tasks()), Ready) && forall p :: p in ready ==> 1 <= p.pid <= |Tasks()|
    {
      TableFacts();
      ready := processManager.GetProcessesByState(Ready);
    }

    method HandleCPUScheduling()
      requires TasksValid() && SchedulerValid()
      modifies this`currentRunningProcess, this`timeQuantumRemaining
      modifies processManager`processes, metricsCollector`processInfo, scheduler
      ensures TasksValid() && SchedulerValid() && MachineState() == Schedule(old(MachineState()))
    {
      hide TasksValid, Tasks, InState, Dispatch, Moved;
      var ready := ReadyProcesses();
      TaskFact(currentRunningProcess);
      var needScheduling := false;
      if currentRunningProcess == -1 {
        needScheduling := true;
      } else if currentRunningProcess !in processManager.processes
                || !processManager.processes[currentRunningProcess].state.Running? {
        currentRunningProcess := -1;
        needScheduling := true;
      } else if algorithm.RoundRobin? && timeQuantumRemaining <= 0 {
        ChangeState(currentRunningProcess, Ready);
        currentRunningProcess := -1;
        needScheduling := true;
      }
      if needScheduling {
        DispatchFrom(ready);
      }
    }

    /** The dispatch at the end of the scheduling phase. */
    method DispatchFrom(ready: seq<Pcb>)
      requires TasksValid() && SchedulerValid() && currentRunningProcess == -1
      requires forall p :: p in ready ==> 1 <= p.pid <= |Tasks()|
      modifies this`currentRunningProcess, this`timeQuantumRemaining
      modifies processManager`processes, metricsCollector`processInfo, scheduler
      ensures TasksValid() && SchedulerValid() && MachineState() == Dispatch(old(MachineState()), ready)
    {
      hide TasksValid, Tasks, Choose, Moved;
      if ready != [] {
        var pid := scheduler.SelectNextProcess(ready);
        if pid > 0 {
          TaskFact(pid);
          if pid in processManager.processes {
            ChangeState(pid, Running);
            currentRunningProcess := pid;
            if algorithm.RoundRobin? {
              timeQuantumRemaining := timeQuantum;
            }
          }
        }
      }
    }

    /** One unit of CPU time for a process. */
    method RunTask(pid: int) returns (stillHasTime: bool)
      requires TasksValid() && pid in processManager.processes
      modifies processManager`processes, metricsCollector`cpuExecutionTime
      ensures TasksValid() && 1 <= pid <= |Tasks()| && pid in processManager.processes
      ensures var t := old(Tasks())[pid - 1]; Tasks() == old(Tasks())[pid - 1 := t.(pcb := Decreased(t.pcb))]
      ensures stillHasTime <==> Tasks()[pid - 1].pcb.remaining > 0
      ensures metricsCollector.cpuExecutionTime == old(metricsCollector.cpuExecutionTime) + 1
    {
      ChangedPcb(processManager.processes, metricsCollector.processInfo, metricsCollector.completedProcesses,
                 processManager.nextPid - 1, pid, Decreased(processManager.processes[pid]));
      stillHasTime := processManager.DecreaseRemainingTime(pid, 1);
      metricsCollector.RecordCPUExecution(1);
    }

    method HandleProcessExecution()
      requires Valid()
      modifies this`currentRunningProcess, this`timeQuantumRemaining, processManager`processes, metricsCollector, memoryManager
      modifies syncManager.mutexes.Values
      ensures Valid() && MachineState() == Execute(old(MachineState()))
      ensures var done := Completing(old(MachineState()));
              && memoryManager.State() == (if done != -1 then P.Deallocate(old(memoryManager.State()), done) else old(memoryManager.State()))
              && syncManager.State() == (if done != -1 then CleanedUp(old(syncManager.State()), done) else old(syncManager.State()))
    {
      hide TasksValid, Tasks, SyncManager.State, SyncManager.Valid, FramesExist, P.Deallocate, CleanedUp, Finished, Decreased;
      hide Execute, Completing;
      TaskFact(currentRunningProcess);
      ghost var m := MachineState();
      if currentRunningProcess == -1 {
        ExecuteIdle(m);
        return;
      }
      if currentRunningProcess !in processManager.processes
         || !processManager.processes[currentRunningProcess].state.Running? {
        ExecuteIdle(m);
        currentRunningProcess := -1;
        SyncStateFrame(syncManager);
        return;
      }
      RunCurrent();
    }

    /** The running process executes one unit, and completes when nothing remains. */
    method RunCurrent()
      requires Valid() && currentRunningProcess in processManager.processes
      requires processManager.processes[currentRunningProcess].state.Running?
      modifies this`currentRunningProcess, this`timeQuantumRemaining, processManager`processes, metricsCollector, memoryManager
      modifies syncManager.mutexes.Values
      ensures Valid() && MachineState() == Execute(old(MachineState()))
      ensures var done := Completing(old(MachineState()));
              && memoryManager.State() == (if done != -1 then P.Deallocate(old(memoryManager.State()), done) else old(memoryManager.State()))
              && syncManager.State() == (if done != -1 then CleanedUp(old(syncManager.State()), done) else old(syncManager.State()))
    {
      hide TasksValid, Tasks, SyncManager.State, SyncManager.Valid, FramesExist, P.Deallocate, CleanedUp, Finished, Decreased;
      hide Execute, Completing;
      TaskFact(currentRunningProcess);
      ExecuteRunning(MachineState());
      var pid := currentRunningProcess;
      var stillHasTime := RunTask(pid);
      if algorithm.RoundRobin? {
        timeQuantumRemaining := timeQuantumRemaining - 1;
      }
      SyncStateFrame(syncManager);
      if !stillHasTime {
        FinishProcess(pid);
      }
    }

    /** The completion of a process in the table and in the metrics. */
    method FinishTask(pid: int)
      requires TasksValid() && pid in processManager.processes
      modifies processManager`processes, metricsCollector
      ensures TasksValid() && 1 <= pid <= |Tasks()|
      ensures Tasks() == old(Tasks())[pid - 1 := Finished(old(Tasks())[pid - 1], currentTime)]
      ensures metricsCollector.cpuExecutionTime == old(metricsCollector.cpuExecutionTime)
      ensures metricsCollector.simulationTime == old(metricsCollector.simulationTime)
    {
      ghost var p := processManager.processes[pid].(state := Terminated, completion := currentTime);
      FinishedTasks(processManager.processes, metricsCollector.processInfo, metricsCollector.completedProcesses,
                    processManager.nextPid - 1, pid, currentTime);
      FinishedKeyed(processManager.processes, metricsCollector.processInfo, metricsCollector.completedProcesses,
                    processManager.nextPid - 1, pid, p, currentTime);
      hide Finished, TasksOf, Keyed, FinalMetrics;
      var updated := processManager.UpdateProcessState(pid, Terminated);
      processManager.SetProcessCompletionTime(pid, currentTime);
      assert processManager.processes == old(processManager.processes)[pid := p];
      metricsCollector.RecordProcessCompletion(processManager.processes[pid], currentTime);
    }

    /** The completion of a process, and the frames and mutexes it gives up. */
    method FinishProcess(pid: int)
      requires Valid() && pid in processManager.processes
      modifies this`currentRunningProcess, this`timeQuantumRemaining
      modifies processManager`processes, metricsCollector, memoryManager, syncManager.mutexes.Values
      ensures Valid() && 1 <= pid <= |Tasks()| && currentRunningProcess == -1 && timeQuantumRemaining == 0
      ensures Tasks() == old(Tasks())[pid - 1 := Finished(old(Tasks())[pid - 1], currentTime)]
      ensures metricsCollector.cpuExecutionTime == old(metricsCollector.cpuExecutionTime)
      ensures memoryManager.State() == P.Deallocate(old(memoryManager.State()), pid)
      ensures syncManager.State() == CleanedUp(old(syncManager.State()), pid)
    {
      hide P.Deallocate, CleanedUp, FramesExist, SyncManager.State, SyncManager.Valid, TasksValid, Tasks;
      hide Finished;
      FinishTask(pid);
      memoryManager.DeallocatePages(pid);
      SyncStateFrame(syncManager);
      syncManager.CleanupProcess(pid);
      label Cleaned:
      currentRunningProcess := -1;
      timeQuantumRemaining := 0;
      SyncStateFrame@Cleaned(syncManager);
    }

    method HandleMemoryManagement()
      requires Valid()
      modifies memoryManager
      ensures Valid() && MachineState() == old(MachineState())
      ensures memoryManager.State() == if currentRunningProcess != -1
                                       then P.Access(old(memoryManager.State()), currentRunningProcess, 0, currentTime)
                                       else old(memoryManager.State())
      ensures syncManager.State() == old(syncManager.State())
    {
      if currentRunningProcess != -1 {
        memoryManager.AccessPage(currentRunningProcess, 0, currentTime);
      }
      SyncStateFrame(syncManager);
    }

    method AllProcessesCompleted() returns (completed: bool)
      requires Valid()
      ensures completed <==> AllCompleted(MachineState())
    {
      for pid := 1 to processManager.nextPid
        invariant forall i :: 0 <= i < pid - 1 ==> Tasks()[i].pcb.state.Terminated?
      {
        if !processManager.processes[pid].state.Terminated? {
          assert !Tasks()[pid - 1].pcb.state.Terminated?;
          return false;
        }
      }
      return processManager.nextPid != 1;
    }

    /** The clock moves on, in the controller and in the metrics. */
    method AdvanceClock()
      requires Valid()
      modifies this`currentTime, metricsCollector`simulationTime
      ensures Valid() && MachineState() == old(MachineState()).(now := old(currentTime) + 1)
      ensures syncManager.State() == old(syncManager.State())
    {
      currentTime := currentTime + 1;
      metricsCollector.UpdateSimulationTime(currentTime);
      SyncStateFrame(syncManager);
    }

    /** The deadlock detection of the step; the source prints a warning when it answers true. */
    method HandleSynchronization() returns (deadlock: bool)
      requires Valid()
      ensures Valid() && MachineState() == old(MachineState()) && syncManager.State() == old(syncManager.State())
      ensures deadlock <==> HoldsAndWaits(syncManager.State())
    {
      hide HoldsAndWaits;
      deadlock := syncManager.DetectDeadlock();
      SyncStateFrame(syncManager);
    }

    method UpdateMetrics()
      requires Valid()
      modifies metricsCollector`simulationTime
      ensures Valid() && MachineState() == old(MachineState()) && syncManager.State() == old(syncManager.State())
    {
      metricsCollector.UpdateSimulationTime(currentTime);
      SyncStateFrame(syncManager);
    }

    /** One simulated time step; the answer says whether the simulation goes on. */
    method ExecuteTimeStep() returns (continues: bool)
      requires Valid()
      modifies this`currentTime, this`currentRunningProcess, this`timeQuantumRemaining
      modifies processManager`processes, metricsCollector, memoryManager, scheduler, syncManager.mutexes.Values
      ensures Valid() && State() == KernelTick(old(State()))
      ensures continues <==> !AllCompleted(Tick(old(MachineState())))
    {
      hide Arrivals, Schedule, Execute, AllCompleted, Completing, TasksOf, Keyed;
      hide P.Deallocate, P.Access, CleanedUp, FramesExist, HoldsAndWaits;
      hide SyncManager.State, SyncManager.Valid, MemoryManager.State, MemoryManager.Valid, ProcessManager.Valid;
      AdvanceClock();
      label Advanced:
      HandleProcessArrivals();
      HandleCPUScheduling();
      SyncStateFrame@Advanced(syncManager);
      HandleProcessExecution();
      HandleMemoryManagement();
      var deadlock := HandleSynchronization();
      UpdateMetrics();
      label Updated:
      var completed := AllProcessesCompleted();
      SyncStateFrame@Updated(syncManager);
      return !completed;
    }

    /** A new scheduler object; the running process is forgotten. */
    method SetSchedulingAlgorithm(algo: SchedulingAlgorithm, quantum: int)
      requires Valid()
      modifies this`scheduler, this`algorithm, this`timeQuantum, this`currentRunningProcess, this`timeQuantumRemaining
      ensures Valid() && MachineState() == SwitchScheduler(old(MachineState()), algo, quantum)
      ensures memoryManager.State() == old(memoryManager.State()) && fresh(scheduler)
    {
      algorithm, timeQuantum := algo, quantum;
      scheduler := new Scheduler(algo, quantum);
      currentRunningProcess, timeQuantumRemaining := -1, 0;
    }
  }
}
