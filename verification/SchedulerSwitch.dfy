/**
 Replacing the scheduler while no process runs. Nothing but the policy changes, and the next
 dispatch is already made by the new one: its order, its quantum and a rotation that starts anew.
*/
module SchedulerSwitch {
  import opened KernelTypes
  import opened Scheduling
  import opened TickModel
  import opened TickSteps
  import opened TickInvariant
  import opened Termination
  import opened Slicing
  import opened RoundRobinRotation

  /** A rotation that starts anew serves the lowest READY pid first. */
  lemma FreshRotationTakesLowest(m: Machine, j: int)
    requires Linked(m) && m.running == -1 && m.algo.RoundRobin? && m.lastIndex == -1 && 0 <= j < |m.tasks|
    requires Admit(m.tasks[j], m.now + 1).pcb.state.Ready?
    ensures 1 <= Picked(m) <= j + 1
  {
    ArrivedTask(m, j);
    ReadyListed(m);
    ArrivedPids(m);
    var q := ReadyList(m);
    var p := Arrived(m).tasks[j].pcb;
    assert p in q && p.pid == j + 1;
    PickedWhenReady(m);
    hide ReadyList, Arrived, Choose, Linked;
    ChooseNext(-1, q);
    NextIndex(-1, |q|);
    assert q[0].pid <= p.pid;
  }

  /** The process that a scheduler with a fresh rotation serves first. */
  predicate GoesFirst(algo: SchedulingAlgorithm, p: Pcb, r: Pcb) {
    match algo
    case FCFS => p.arrival < r.arrival || (p.arrival == r.arrival && p.pid < r.pid)
    case Priority => p.priority < r.priority || (p.priority == r.priority && p.pid < r.pid)
    case RoundRobin => p.pid < r.pid
  }

  lemma SomeonePicked(m: Machine, j: int)
    requires Linked(m) && m.running == -1 && 0 <= j < |m.tasks| && Admit(m.tasks[j], m.now + 1).pcb.state.Ready?
    ensures Picked(m) != -1 && HasTask(m, Picked(m))
  {
    ArrivedTask(m, j);
    if Picked(m) == -1 { IdleMeansNoneReady(m); }
    if Picked(m) != -1 { PickedIsReady(m); }
    hide Picked;
  }

  lemma PickOrder(m: Machine, j: int)
    requires Linked(m) && m.running == -1 && m.lastIndex == -1 && 0 <= j < |m.tasks|
    requires Admit(m.tasks[j], m.now + 1).pcb.state.Ready? && Picked(m) != -1 && HasTask(m, Picked(m))
    ensures Picked(m) == j + 1 || GoesFirst(m.algo, m.tasks[Picked(m) - 1].pcb, m.tasks[j].pcb)
  {
    hide Picked, Admit;
    if Picked(m) != j + 1 {
      match m.algo
      case FCFS => PickedByArrival(m, j);
      case Priority => PickedByPriority(m, j);
      case RoundRobin => FreshRotationTakesLowest(m, j);
    }
  }

  /** The dispatch of an idle machine with a fresh scheduler: its order and its length. */
  ghost predicate DispatchedFresh(m: Machine, j: int) {
    && HasTask(m, Picked(m)) && 0 <= j < |m.tasks|
    && (Picked(m) == j + 1 || GoesFirst(m.algo, m.tasks[Picked(m) - 1].pcb, m.tasks[j].pcb))
    && var p := Picked(m) - 1;
    && var left, slice := m.tasks[p].pcb.remaining, if m.quantum > 1 then m.quantum else 1;
    && var length := if m.algo.RoundRobin? && slice < left then slice else left;
    && length >= 1 && (forall i: nat :: i < length ==> Runner(Ticks(m, i)) == p + 1)
    && DispatchOver(Ticks(m, length), p, length == left)
  }

  lemma FreshDispatch(r: Recorded, j: int)
    requires Inv(r) && r.m.running == -1 && r.m.lastIndex == -1 && 0 <= j < |r.m.tasks|
    requires Admit(r.m.tasks[j], r.m.now + 1).pcb.state.Ready?
    ensures DispatchedFresh(r.m, j)
  {
    hide Inv, Linked, Tick, Ticks, Picked, Runner, DispatchOver, Admit;
    InvLinked(r);
    SomeonePicked(r.m, j);
    PickOrder(r.m, j);
    SliceInTicks(r);
  }

  /**
   After an idle switch the processes, the clock and the CPU total are as before, and the next step
   dispatches the process that goes first under the new policy; it runs for min(slice of the new
   quantum, remaining) steps under Round Robin and to completion otherwise.
  */
  lemma SwitchTakesEffect(r: Recorded, algo: SchedulingAlgorithm, quantum: int, j: int)
    requires Inv(r) && r.m.running == -1 && 0 <= j < |r.m.tasks|
    requires Admit(r.m.tasks[j], r.m.now + 1).pcb.state.Ready?
    ensures var n := SwitchScheduler(r.m, algo, quantum);
            && n.tasks == r.m.tasks && n.now == r.m.now && n.cpuTotal == r.m.cpuTotal && n.running == -1
            && n.algo == algo && n.quantum == quantum && DispatchedFresh(n, j)
  {
    SwitchKeepsInvIffIdle(r, algo, quantum);
    hide Inv, DispatchedFresh, Admit;
    FreshDispatch(Recorded(SwitchScheduler(r.m, algo, quantum), r.added), j);
  }
}
