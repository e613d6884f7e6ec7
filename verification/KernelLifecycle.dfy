/**
 The kernel as a whole: the tick machine together with the pager and the synchronization
 objects, and the life of the frames a process owns.
*/
module KernelLifecycle {
  import opened KernelTypes
  import opened TickModel
  import opened TickSteps
  import opened TickInvariant
  import opened Paging
  import opened PagingInverse
  import opened SyncManagement

  datatype Kernel = Kernel(machine: Machine, memory: Memory, sync: SyncState)

  /** The machine between the scheduling and the execution phase of the next step. */
  function BeforeExecution(m: Machine): Machine {
    Schedule(Arrivals(m.(now := m.now + 1)))
  }

  /** The pid that completes in the execution phase, or -1. */
  function Completing(s: Machine): int {
    if s.running != -1 && HasTask(s, s.running) && s.tasks[s.running - 1].pcb.state.Running?
       && RunOne(s.tasks[s.running - 1], s.now).pcb.state.Terminated?
    then s.running else -1
  }

  /** One time step: a completed process gives up its frames and mutexes, a running one touches page 0. */
  function KernelTick(k: Kernel): Kernel {
    var s := BeforeExecution(k.machine);
    var n, done := Execute(s), Completing(s);
    var freed := if done != -1 then Deallocate(k.memory, done) else k.memory;
    Kernel(n,
           if n.running != -1 then Access(freed, n.running, 0, n.now) else freed,
           if done != -1 then CleanedUp(k.sync, done) else k.sync)
  }

  /** n time steps. */
  function KernelTicks(k: Kernel, n: nat): Kernel {
    if n == 0 then k else KernelTick(KernelTicks(k, n - 1))
  }

  function KernelAdd(k: Kernel, c: ProcessConfig): Kernel {
    k.(machine := AddTask(k.machine, c),
       memory := if AcceptsParameters(c.priority, c.burst, c.arrival) && c.memory > 0
                 then Allocate(k.memory, |k.machine.tasks| + 1, c.memory) else k.memory)
  }

  function KernelStart(algo: SchedulingAlgorithm, quantum: int, numFrames: nat, replacement: ReplacementAlgorithm): Kernel {
    Kernel(Start(algo, quantum), Empty(numFrames, replacement), SyncState(map[], map[]))
  }

  /** Calls on a running kernel: the controller's, the pager's and those on semaphores and mutexes. */
  datatype KernelCall =
    | TimeStep
    | AddProcess(config: ProcessConfig)
    | SetScheduling(scheduling: SchedulingAlgorithm, quantum: int)
    | PageFault(pid: int, page: int)
    | PageAccess(pid: int, page: int, time: int)
    | SetReplacement(algo: ReplacementAlgorithm)
    | Synchronize(call: SyncCall)

  function KernelApply(k: Kernel, c: KernelCall): Kernel {
    match c
    case TimeStep => KernelTick(k)
    case AddProcess(config) => KernelAdd(k, config)
    case SetScheduling(a, q) => k.(machine := SwitchScheduler(k.machine, a, q))
    case PageFault(p, v) => k.(memory := Fault(k.memory, p, v))
    case PageAccess(p, v, t) => k.(memory := Access(k.memory, p, v, t))
    case SetReplacement(a) => k.(memory := k.memory.(algo := a))
    case Synchronize(s) => k.(sync := SyncApply(k.sync, s))
  }

  /**
   A fault is raised by a process that has not completed, for a page the pager may load, and the
   scheduler is replaced only while no process runs.
  */
  predicate KernelCallAllowed(k: Kernel, c: KernelCall) {
    && (c.PageFault? ==>
         HasTask(k.machine, c.pid) && !k.machine.tasks[c.pid - 1].pcb.state.Terminated? && FaultAllowed(k.memory, c.pid, c.page))
    && (c.SetScheduling? ==> k.machine.running == -1)
  }

  function KernelRun(k: Kernel, cs: seq<KernelCall>): Kernel {
    if cs == [] then k else KernelApply(KernelRun(k, cs[..|cs| - 1]), cs[|cs| - 1])
  }

  predicate KernelRunAllowed(k: Kernel, cs: seq<KernelCall>) {
    cs == [] || (KernelRunAllowed(k, cs[..|cs| - 1]) && KernelCallAllowed(KernelRun(k, cs[..|cs| - 1]), cs[|cs| - 1]))
  }

  /** Page tables exist only for processes that have not completed. */
  ghost predicate TablesAreLive(m: Machine, mem: Memory) {
    forall p :: p in mem.tables ==> HasTask(m, p) && !m.tasks[p - 1].pcb.state.Terminated?
  }

  ghost predicate LifeInv(k: Kernel, added: seq<int>) {
    Inv(Recorded(k.machine, added)) && Consistent(k.memory) && TablesAreLive(k.machine, k.memory)
  }

  /** The completing process is the runner, and it is the only task that becomes TERMINATED. */
  lemma CompletingIsRunner(m: Machine)
    requires Linked(m)
    ensures var s := BeforeExecution(m);
            && (Completing(s) != -1 ==> Completing(s) == Runner(m) && HasTask(m, Runner(m)))
            && |Tick(m).tasks| == |m.tasks|
            && (forall i :: 0 <= i < |m.tasks| && !m.tasks[i].pcb.state.Terminated? ==>
                 (Tick(m).tasks[i].pcb.state.Terminated? <==> Completing(s) == i + 1))
            && (forall i :: 0 <= i < |m.tasks| && m.tasks[i].pcb.state.Terminated? ==> Completing(s) != i + 1)
  {
    TickFollows(m);
    ScheduleFields(m);
    var s := Schedule(Arrived(m));
    assert s == BeforeExecution(m);
    if Runner(m) != -1 { RunnerRuns(m); }
    forall i | 0 <= i < |m.tasks|
      ensures !m.tasks[i].pcb.state.Terminated? ==>
                (Tick(m).tasks[i].pcb.state.Terminated? <==> Completing(s) == i + 1)
      ensures m.tasks[i].pcb.state.Terminated? ==> Completing(s) != i + 1
    {
      SteppedByRole(m, i);
      hide Schedule, Arrived, Picked, Execute;
    }
  }

  lemma DeallocateKeepsTables(m: Memory, p: int)
    ensures Deallocate(m, p).tables == m.tables - {p}
  {
  }

  lemma AccessKeepsTables(m: Memory, p: int, v: int, now: int)
    ensures Access(m, p, v, now).tables == m.tables
  {
  }

  /** The pager after a time step: consistent, without the tables of the process that completed. */
  lemma MemoryAfterTick(k: Kernel)
    requires Consistent(k.memory)
    ensures var done, n := Completing(BeforeExecution(k.machine)), KernelTick(k).memory;
            && Consistent(n)
            && n.tables == (if done != -1 then k.memory.tables - {done} else k.memory.tables)
            && forall p, v :: PhysicalFrame(n, p, v) == if done != -1 && p == done then -1 else PhysicalFrame(k.memory, p, v)
  {
    var done := Completing(BeforeExecution(k.machine));
    var freed := if done != -1 then Deallocate(k.memory, done) else k.memory;
    var n := Execute(BeforeExecution(k.machine));
    hide BeforeExecution, Completing, Execute, Consistent, Deallocate, Access, PhysicalFrame;
    if done != -1 {
      DeallocateKeepsConsistent(k.memory, done);
      DeallocateKeepsTables(k.memory, done);
    }
    AccessKeepsConsistent(freed, n.running, 0, n.now);
    AccessKeepsTables(freed, n.running, 0, n.now);
  }

  lemma TickOfKernel(k: Kernel)
    ensures KernelTick(k).machine == Tick(k.machine)
  {
  }

  lemma LifeInvTick(k: Kernel, added: seq<int>)
    requires LifeInv(k, added)
    ensures LifeInv(KernelTick(k), added)
  {
    hide BeforeExecution, Completing, Tick, KernelTick, Inv, Linked, Follows, Consistent;
    TickOfKernel(k);
    InvStep(Recorded(k.machine, added));
    InvLinked(Recorded(k.machine, added));
    CompletingIsRunner(k.machine);
    MemoryAfterTick(k);
  }

  lemma LoadPagesTables(m: Memory, p: int, n: int)
    ensures Allocate(m, p, n).tables.Keys <= m.tables.Keys + {p}
  {
    if CanAllocate(m, n) {
      LoadPagesShape(m, p, n);
      forall q | q in LoadPages(m, p, n).tables && q != p ensures q in m.tables {
        assert q in LoadPages(m, p, n).tables - {p};
        assert q in m.tables - {p};
      }
    }
  }

  lemma LifeInvAdd(k: Kernel, added: seq<int>, c: ProcessConfig)
    requires LifeInv(k, added)
    ensures LifeInv(KernelAdd(k, c), Apply(Recorded(k.machine, added), Add(c)).added)
  {
    hide Inv, Consistent, Allocate;
    InvAdd(Recorded(k.machine, added), c);
    var pid := |k.machine.tasks| + 1;
    LoadPagesTables(k.memory, pid, c.memory);
    AllocateKeepsConsistentIff(k.memory, pid, c.memory);
    assert pid !in k.memory.tables;
  }

  lemma FaultTablesKeys(m: Memory, p: int, v: int)
    requires Consistent(m)
    ensures Fault(m, p, v).tables.Keys <= m.tables.Keys + {p}
  {
    var f := Target(m);
    if f != -1 && m.frames[f].inUse {
      assert PhysicalFrame(m, m.frames[f].processId, m.frames[f].pageNumber) == f;
    }
  }

  /** The added-at record of a run, with the kernel's calls read as calls on the tick machine. */
  function AddedAt(k: Kernel, cs: seq<KernelCall>): seq<int> {
    if cs == [] then []
    else
      var front := cs[..|cs| - 1];
      match cs[|cs| - 1]
      case AddProcess(c) => Apply(Recorded(KernelRun(k, front).machine, AddedAt(k, front)), Add(c)).added
      case _ => AddedAt(k, front)
  }

  lemma LifeInvFault(k: Kernel, added: seq<int>, p: int, v: int)
    requires LifeInv(k, added) && KernelCallAllowed(k, PageFault(p, v))
    ensures LifeInv(KernelApply(k, PageFault(p, v)), added)
  {
    hide Inv, Consistent, Fault, FaultAllowed;
    FaultKeepsConsistentIff(k.memory, p, v);
    FaultTablesKeys(k.memory, p, v);
  }

  lemma {:induction false} LifeInvAlways(k: Kernel, cs: seq<KernelCall>)
    requires LifeInv(k, []) && KernelRunAllowed(k, cs)
    ensures LifeInv(KernelRun(k, cs), AddedAt(k, cs))
  {
    hide LifeInv, KernelTick;
    if cs != [] {
      var front := cs[..|cs| - 1];
      LifeInvAlways(k, front);
      var before, added := KernelRun(k, front), AddedAt(k, front);
      match cs[|cs| - 1]
      case TimeStep => LifeInvTick(before, added);
      case AddProcess(c) => LifeInvAdd(before, added, c);
      case PageFault(p, v) => LifeInvFault(before, added, p, v);
      case PageAccess(p, v, t) => LifeInvAccess(before, added, p, v, t);
      case SetReplacement(a) => LifeInvReplacement(before, added, a);
      case SetScheduling(a, q) => LifeInvScheduling(before, added, a, q);
      case Synchronize(s) => LifeInvSync(before, added, s);
    }
  }

  lemma LifeInvAccess(k: Kernel, added: seq<int>, p: int, v: int, t: int)
    requires LifeInv(k, added)
    ensures LifeInv(KernelApply(k, PageAccess(p, v, t)), added)
  {
    hide Inv, Consistent, Access;
    AccessKeepsConsistent(k.memory, p, v, t);
    AccessKeepsTables(k.memory, p, v, t);
  }

  lemma LifeInvReplacement(k: Kernel, added: seq<int>, a: ReplacementAlgorithm)
    requires LifeInv(k, added)
    ensures LifeInv(KernelApply(k, SetReplacement(a)), added)
  {
    hide Inv, Consistent;
    CallKeepsConsistentIff(k.memory, CallAlgorithm(a));
  }

  lemma LifeInvScheduling(k: Kernel, added: seq<int>, a: SchedulingAlgorithm, q: int)
    requires LifeInv(k, added) && k.machine.running == -1
    ensures LifeInv(KernelApply(k, SetScheduling(a, q)), added)
  {
    hide Inv, Consistent;
    SwitchKeepsInvIffIdle(Recorded(k.machine, added), a, q);
  }

  lemma LifeInvSync(k: Kernel, added: seq<int>, s: SyncCall)
    requires LifeInv(k, added)
    ensures LifeInv(KernelApply(k, Synchronize(s)), added)
  {
    hide Inv, Consistent, SyncApply;
  }

  lemma StartIsLive(algo: SchedulingAlgorithm, quantum: int, numFrames: nat, replacement: ReplacementAlgorithm)
    ensures LifeInv(KernelStart(algo, quantum, numFrames, replacement), [])
  {
    assert AllUsed([]) == [];
  }

  /**
   Frames through the life of a process: in every reachable state an allocated frame belongs to
   a process that has not completed, and once all have completed every frame is free.
  */
  lemma FramesBelongToLiveProcesses(
    algo: SchedulingAlgorithm, quantum: int, numFrames: nat, replacement: ReplacementAlgorithm, cs: seq<KernelCall>)
    requires KernelRunAllowed(KernelStart(algo, quantum, numFrames, replacement), cs)
    ensures var k := KernelRun(KernelStart(algo, quantum, numFrames, replacement), cs);
            && (forall f :: 0 <= f < |k.memory.frames| && k.memory.frames[f].inUse ==>
                 HasTask(k.machine, k.memory.frames[f].processId)
                 && !k.machine.tasks[k.memory.frames[f].processId - 1].pcb.state.Terminated?)
            && (AllCompleted(k.machine) ==> forall f :: 0 <= f < |k.memory.frames| ==> !k.memory.frames[f].inUse)
  {
    StartIsLive(algo, quantum, numFrames, replacement);
    LifeInvAlways(KernelStart(algo, quantum, numFrames, replacement), cs);
    var k := KernelRun(KernelStart(algo, quantum, numFrames, replacement), cs);
    LiveFrames(k, AddedAt(KernelStart(algo, quantum, numFrames, replacement), cs));
  }

  lemma LiveFrames(k: Kernel, added: seq<int>)
    requires LifeInv(k, added)
    ensures forall f :: 0 <= f < |k.memory.frames| && k.memory.frames[f].inUse ==>
              HasTask(k.machine, k.memory.frames[f].processId)
              && !k.machine.tasks[k.memory.frames[f].processId - 1].pcb.state.Terminated?
  {
    forall f | 0 <= f < |k.memory.frames| && k.memory.frames[f].inUse
      ensures k.memory.frames[f].processId in k.memory.tables
    {
      assert PhysicalFrame(k.memory, k.memory.frames[f].processId, k.memory.frames[f].pageNumber) == f;
    }
  }

  /**
   A time step frees exactly the frames of the process that completes in it, and none when no
   process completes; every other page stays where it was.
  */
  lemma StepFreesOnlyTheCompleted(k: Kernel, added: seq<int>, p: int, v: int)
    requires LifeInv(k, added)
    ensures PhysicalFrame(KernelTick(k).memory, p, v) ==
              if HasTask(k.machine, p) && !k.machine.tasks[p - 1].pcb.state.Terminated?
                 && |Tick(k.machine).tasks| == |k.machine.tasks| && Tick(k.machine).tasks[p - 1].pcb.state.Terminated?
              then -1 else PhysicalFrame(k.memory, p, v)
  {
    hide BeforeExecution, Completing, Tick, KernelTick, Inv, Linked, Consistent, PhysicalFrame;
    InvLinked(Recorded(k.machine, added));
    CompletingIsRunner(k.machine);
    MemoryAfterTick(k);
  }

  // What one step and one added process do to memory and mutexes, field by field.

  /** The process is there, has not completed, and has completed after the next step. */
  predicate CompletesInStep(m: Machine, p: int) {
    && HasTask(m, p) && !m.tasks[p - 1].pcb.state.Terminated?
    && p <= |Tick(m).tasks| && Tick(m).tasks[p - 1].pcb.state.Terminated?
  }

  lemma CompletesIffDone(m: Machine, p: int)
    requires Linked(m)
    ensures CompletesInStep(m, p) <==> Completing(BeforeExecution(m)) != -1 && p == Completing(BeforeExecution(m))
  {
    CompletingIsRunner(m);
    hide Tick, Completing, BeforeExecution, Linked;
  }

  /** The frame after a step: emptied with its process, or stamped as page 0 of the process that runs. */
  ghost predicate FrameStepped(k: Kernel, n: Machine, before: PageFrame, after: PageFrame) {
    if before.inUse && CompletesInStep(k.machine, before.processId) then after == PageFrame(-1, -1, false, 0, 0)
    else
      && after.inUse == before.inUse && after.processId == before.processId && after.pageNumber == before.pageNumber
      && after.allocationTime == before.allocationTime
      && after.lastAccess ==
           if n.running != -1 && before.inUse && before.processId == n.running && before.pageNumber == 0
           then k.machine.now + 1 else before.lastAccess
  }

  lemma MemoryFields(k: Kernel)
    requires Consistent(k.memory)
    ensures var done, n, mem := Completing(BeforeExecution(k.machine)), KernelTick(k).machine, KernelTick(k).memory;
            && |mem.frames| == |k.memory.frames|
            && mem.faults == k.memory.faults && mem.replacements == k.memory.replacements && mem.algo == k.memory.algo
            && mem.clock == (if n.running != -1 then n.now else k.memory.clock)
            && forall f :: 0 <= f < |mem.frames| ==>
                 var b, c := k.memory.frames[f], mem.frames[f];
                 var e := if done != -1 && b.inUse && b.processId == done then PageFrame(-1, -1, false, 0, 0) else b;
                 && c.inUse == e.inUse && c.processId == e.processId && c.pageNumber == e.pageNumber
                 && c.allocationTime == e.allocationTime
                 && c.lastAccess == if n.running != -1 && e.inUse && e.processId == n.running && e.pageNumber == 0
                                    then n.now else e.lastAccess
  {
    var done := Completing(BeforeExecution(k.machine));
    var freed := if done != -1 then Deallocate(k.memory, done) else k.memory;
    var n := Execute(BeforeExecution(k.machine));
    DeallocateKeepsCounters(k.memory, done);
    hide BeforeExecution, Completing, Execute, Consistent, Deallocate, Access;
    if done != -1 { DeallocateKeepsConsistent(k.memory, done); }
    AccessStamps(freed, n.running, 0, n.now);
  }

  lemma DeallocateKeepsCounters(m: Memory, p: int)
    ensures var n := Deallocate(m, p);
            n.faults == m.faults && n.replacements == m.replacements && n.algo == m.algo && n.clock == m.clock
  {
  }

  /**
   The memory touch of a step. If a process runs at the end, the pager's clock is the new time and
   page 0 of that process, if resident, has just been used; otherwise the clock stays. All other
   frames are as they were, except those of the process that completed; no counter moves.
  */
  lemma StepTouchesMemory(k: Kernel, added: seq<int>)
    requires LifeInv(k, added)
    ensures var n := KernelTick(k);
            && n.machine.now == k.machine.now + 1
            && n.memory.clock == (if n.machine.running != -1 then k.machine.now + 1 else k.memory.clock)
            && n.memory.faults == k.memory.faults && n.memory.replacements == k.memory.replacements
            && n.memory.algo == k.memory.algo && |n.memory.frames| == |k.memory.frames|
            && forall f :: 0 <= f < |k.memory.frames| ==>
                 FrameStepped(k, n.machine, k.memory.frames[f], n.memory.frames[f])
  {
    hide BeforeExecution, Completing, Tick, KernelTick, Inv, Linked, Consistent, TablesAreLive;
    TickOfKernel(k);
    InvStep(Recorded(k.machine, added));
    InvLinked(Recorded(k.machine, added));
    MemoryFields(k);
    hide Follows, CompletesInStep;
    var n := KernelTick(k);
    forall f | 0 <= f < |k.memory.frames| ensures FrameStepped(k, n.machine, k.memory.frames[f], n.memory.frames[f]) {
      CompletesIffDone(k.machine, k.memory.frames[f].processId);
      NoTaskBelow(k.machine);
      if n.machine.running != -1 { RunnerDidNotComplete(k.machine, n.machine.running); }
    }
  }

  lemma NoTaskBelow(m: Machine)
    requires Linked(m)
    ensures Completing(BeforeExecution(m)) == -1 || HasTask(m, Completing(BeforeExecution(m)))
  {
    CompletingIsRunner(m);
    hide Completing, BeforeExecution, Linked;
  }

  lemma RunnerDidNotComplete(m: Machine, p: int)
    requires Linked(m) && Linked(Tick(m)) && p == Tick(m).running != -1
    ensures !CompletesInStep(m, p)
  {
    hide Tick;
  }

  /**
   The mutexes after a step: each one owned by the process that completes goes to its first
   waiter or becomes free; every other mutex and every semaphore is as it was.
  */
  lemma StepReleasesMutexes(k: Kernel, added: seq<int>)
    requires Inv(Recorded(k.machine, added))
    ensures var n := KernelTick(k).sync;
            && n.sems == k.sync.sems && n.mtxs.Keys == k.sync.mtxs.Keys
            && forall id :: id in k.sync.mtxs ==>
                 var b, a := k.sync.mtxs[id], n.mtxs[id];
                 if !CompletesInStep(k.machine, b.owner) then a == b
                 else if b.queue == [] then a.owner == -1 && a.queue == []
                 else [a.owner] + a.queue == b.queue
  {
    InvLinked(Recorded(k.machine, added));
    var done := Completing(BeforeExecution(k.machine));
    hide BeforeExecution, Completing, Execute, Inv, Linked, Tick, CompletesInStep;
    forall id | id in k.sync.mtxs
      ensures CompletesInStep(k.machine, k.sync.mtxs[id].owner) <==> done != -1 && k.sync.mtxs[id].owner == done
    {
      CompletesIffDone(k.machine, k.sync.mtxs[id].owner);
    }
  }

  /**
   The pages of an added process. When its parameters are accepted and 0 < memory <= free frames,
   exactly pages 0..memory-1 become resident, in frames that were free, and the free frames fall by
   memory. Otherwise the pager is as it was. Nothing else is remapped, and no counter moves.
  */
  lemma AddedProcessGetsPages(k: Kernel, added: seq<int>, c: ProcessConfig)
    requires LifeInv(k, added)
    ensures var pid, b, n := |k.machine.tasks| + 1, k.memory, KernelAdd(k, c).memory;
            var granted := 1 <= c.priority <= 10 && c.burst > 0 && c.arrival >= 0 && 0 < c.memory <= |FreeFrames(b.frames)|;
            && n.clock == b.clock && n.faults == b.faults && n.replacements == b.replacements && n.algo == b.algo
            && |n.frames| == |b.frames| && KernelAdd(k, c).sync == k.sync
            && (!granted ==> n.frames == b.frames && n.tables == b.tables)
            && (granted ==>
                 && |FreeFrames(n.frames)| == |FreeFrames(b.frames)| - c.memory
                 && (forall v :: PhysicalFrame(n, pid, v) != -1 <==> 0 <= v < c.memory)
                 && (forall q, v :: q != pid ==> PhysicalFrame(n, q, v) == PhysicalFrame(b, q, v))
                 && forall f :: 0 <= f < |b.frames| ==>
                      n.frames[f] == b.frames[f]
                      || (!b.frames[f].inUse && 0 <= n.frames[f].pageNumber < c.memory
                          && LoadedWith(n.frames[f], pid, n.frames[f].pageNumber, b.clock)))
  {
    var pid := |k.machine.tasks| + 1;
    assert pid !in k.memory.tables;
    assert forall v :: PhysicalFrame(k.memory, pid, v) == -1;
    hide Inv, Allocate, FreeFrames, Consistent, PhysicalFrame, LoadedWith;
    AllocateMapsExactly(k.memory, pid, c.memory);
  }

  // What is fixed for a whole run, or by the last call that set it.

  /** The last replacement algorithm that the calls selected, or the one at the start. */
  function LastReplacement(start: ReplacementAlgorithm, cs: seq<KernelCall>): ReplacementAlgorithm {
    if cs == [] then start
    else
      var last := cs[|cs| - 1];
      if last.SetReplacement? then last.algo else LastReplacement(start, cs[..|cs| - 1])
  }

  /** The last scheduler that the calls selected, with its quantum. */
  function LastScheduling(algo: SchedulingAlgorithm, quantum: int, cs: seq<KernelCall>): (SchedulingAlgorithm, int) {
    if cs == [] then (algo, quantum)
    else
      var last := cs[|cs| - 1];
      if last.SetScheduling? then (last.scheduling, last.quantum) else LastScheduling(algo, quantum, cs[..|cs| - 1])
  }

  function StepsOf(cs: seq<KernelCall>): nat {
    if cs == [] then 0 else StepsOf(cs[..|cs| - 1]) + (if cs[|cs| - 1].TimeStep? then 1 else 0)
  }

  lemma TickKeepsSettings(k: Kernel, added: seq<int>)
    requires LifeInv(k, added)
    ensures var n := KernelTick(k);
            && |n.memory.frames| == |k.memory.frames| && n.memory.algo == k.memory.algo
            && n.machine.algo == k.machine.algo && n.machine.quantum == k.machine.quantum && n.machine.now == k.machine.now + 1
  {
    hide KernelTick, Tick, Inv, Linked, FrameStepped;
    StepTouchesMemory(k, added);
    TickOfKernel(k);
    InvStep(Recorded(k.machine, added));
  }

  lemma AddKeepsSettings(k: Kernel, c: ProcessConfig)
    ensures var n := KernelAdd(k, c);
            && |n.memory.frames| == |k.memory.frames| && n.memory.algo == k.memory.algo
            && n.machine.algo == k.machine.algo && n.machine.quantum == k.machine.quantum && n.machine.now == k.machine.now
  {
    if CanAllocate(k.memory, c.memory) { LoadPagesFrames(k.memory, |k.machine.tasks| + 1, c.memory); }
    hide LoadPages;
  }

  /**
   In every reachable kernel state the number of frames is the one at the start, the clock is the
   number of steps, and the algorithms and the quantum are those that were set last.
  */
  lemma {:induction false} SettingsInForce(
    algo: SchedulingAlgorithm, quantum: int, numFrames: nat, replacement: ReplacementAlgorithm, cs: seq<KernelCall>)
    requires KernelRunAllowed(KernelStart(algo, quantum, numFrames, replacement), cs)
    ensures var k := KernelRun(KernelStart(algo, quantum, numFrames, replacement), cs);
            && |k.memory.frames| == numFrames && k.memory.algo == LastReplacement(replacement, cs)
            && (k.machine.algo, k.machine.quantum) == LastScheduling(algo, quantum, cs) && k.machine.now == StepsOf(cs)
  {
    hide KernelTick, KernelAdd, LifeInv, Fault, Access;
    if cs != [] {
      var front, e := cs[..|cs| - 1], KernelStart(algo, quantum, numFrames, replacement);
      SettingsInForce(algo, quantum, numFrames, replacement, front);
      StartIsLive(algo, quantum, numFrames, replacement);
      LifeInvAlways(e, front);
      var k := KernelRun(e, front);
      match cs[|cs| - 1]
      case TimeStep => TickKeepsSettings(k, AddedAt(e, front));
      case AddProcess(c) => AddKeepsSettings(k, c);
      case PageFault(p, v) => FaultKeepsSettings(k.memory, p, v);
      case PageAccess(p, v, t) => AccessKeepsSettings(k.memory, p, v, t);
      case _ =>
    }
  }

  lemma FaultKeepsSettings(m: Memory, p: int, v: int)
    ensures |Fault(m, p, v).frames| == |m.frames| && Fault(m, p, v).algo == m.algo
  {
  }

  lemma AccessKeepsSettings(m: Memory, p: int, v: int, t: int)
    ensures |Access(m, p, v, t).frames| == |m.frames| && Access(m, p, v, t).algo == m.algo
  {
  }
}
