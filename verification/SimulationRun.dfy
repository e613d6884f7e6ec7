/** The simulation loop: time steps until one reports that everything has completed. */
module SimulationRun {
  import opened TickModel
  import opened TickInvariant
  import opened Termination
  import opened KernelLifecycle
  import opened SimulationControl

  lemma NextTicks(m: Machine, n: nat)
    ensures Ticks(m, n + 1) == Tick(Ticks(m, n))
  {
  }

  /** The finishing bound for a run from this state. */
  ghost function StepBound(m: Machine, last: int): int {
    last - 1 - m.now + Potential(m)
  }

  /** Steps taken after the bound would have ended the run. */
  lemma StillBeforeBound(r: Recorded, last: int, n: nat)
    requires Inv(r) && r.m.tasks != [] && AllDueBy(r, last) && r.m.now < last
    ensures StepBound(r.m, last) >= 0
    ensures !AllCompleted(Ticks(r.m, n)) ==> n < StepBound(r.m, last)
  {
    hide Tick, Ticks, AllCompleted, Potential, Inv, AllDueBy;
    Finishes(r, last);
    var bound := last - 1 - r.m.now + Potential(r.m);
    if bound <= n { CompletedForEver(r, bound, n); }
  }

  lemma {:induction false} TicksOfKernel(k: Kernel, n: nat)
    ensures KernelTicks(k, n).machine == Ticks(k.machine, n)
  {
    hide KernelTick, Tick;
    if n > 0 {
      TicksOfKernel(k, n - 1);
      TickOfKernel(KernelTicks(k, n - 1));
    }
  }

  /**
   The loop of the source, without the sleeping and the control flags. It terminates for every
   set of processes and every scheduler, within the finishing bound, and leaves the whole kernel
   in the state of that many steps. The ghost arguments only carry the proof: when each process
   was added, and a tick by which all have been admitted.
  */
  method SimulationLoop(c: SimulationController, ghost added: seq<int>, ghost last: int) returns (ghost steps: nat)
    requires c.Valid() && Inv(Recorded(c.MachineState(), added)) && c.MachineState().tasks != []
    requires AllDueBy(Recorded(c.MachineState(), added), last) && c.currentTime < last
    modifies c`currentTime, c`currentRunningProcess, c`timeQuantumRemaining
    modifies c.processManager`processes, c.metricsCollector, c.memoryManager, c.scheduler
    modifies c.syncManager.mutexes.Values
    ensures c.Valid() && c.State() == KernelTicks(old(c.State()), steps) && AllCompleted(c.MachineState())
    ensures c.MachineState() == Ticks(old(c.MachineState()), steps)
    ensures 1 <= steps && (steps > 1 ==> steps <= StepBound(old(c.MachineState()), last))
    ensures steps > 1 ==> !AllCompleted(Ticks(old(c.MachineState()), steps - 1))
  {
    hide Tick, AllCompleted, Inv, AllDueBy, StepBound, KernelTick;
    ghost var k := c.State();
    ghost var r := Recorded(k.machine, added);
    ghost var bound := StepBound(k.machine, last);
    StillBeforeBound(r, last, 0);
    steps := 0;
    var continues := true;
    while continues
      invariant c.Valid() && c.State() == KernelTicks(k, steps)
      invariant steps > 0 ==> (continues <==> !AllCompleted(Ticks(r.m, steps)))
      invariant steps > 1 ==> !AllCompleted(Ticks(r.m, steps - 1)) && steps <= bound
      invariant steps == 0 ==> continues
      invariant continues && steps > 0 ==> steps < bound
      decreases if continues then bound + 1 - steps else 0, continues
    {
      TicksOfKernel(k, steps);
      TicksOfKernel(k, steps + 1);
      NextTicks(r.m, steps);
      continues := c.ExecuteTimeStep();
      steps := steps + 1;
      StillBeforeBound(r, last, steps);
    }
    TicksOfKernel(k, steps);
  }
}
