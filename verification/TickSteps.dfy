/**
 One time step seen process by process: which process is demoted, dispatched and executed,
 and what the step does to each task. Every result about runs goes through TickFollows.
*/
module TickSteps {
  import opened KernelTypes
  import opened Scheduling
  import opened TickModel

  /** Pids are positions, and the running process is the only one in state RUNNING. */
  ghost predicate Linked(m: Machine) {
    && (m.running == -1 || HasTask(m, m.running))
    && forall i :: 0 <= i < |m.tasks| ==>
         m.tasks[i].pcb.pid == i + 1 && (m.tasks[i].pcb.state.Running? <==> m.running == i + 1)
  }

  function Arrived(m: Machine): Machine {
    Arrivals(m.(now := m.now + 1))
  }

  function ReadyList(m: Machine): seq<Pcb> {
    InState(Pcbs(Arrived(m).tasks), Ready)
  }

  /** The quantum of the running process is used up. */
  predicate Expires(m: Machine) {
    m.running != -1 && m.algo.RoundRobin? && m.quantumLeft <= 0
  }

  /** The pid dispatched by the next time step, or -1. */
  function Picked(m: Machine): int {
    if (m.running == -1 || Expires(m)) && ReadyList(m) != [] then Choose(m.algo, m.lastIndex, ReadyList(m)).0 else -1
  }

  /** The pid that the next time step executes, or -1. */
  function Runner(m: Machine): int {
    if m.running != -1 && !Expires(m) then m.running else Picked(m)
  }

  function TaskStep(t: Task, now: int, demoted: bool, picked: bool, runs: bool): Task {
    var a := Admit(t, now);
    var b := if demoted then Moved(a, Ready, now) else if picked then Moved(a, Running, now) else a;
    if runs then RunOne(b, now) else b
  }

  function Stepped(m: Machine, i: int): Task
    requires 0 <= i < |m.tasks|
  {
    TaskStep(m.tasks[i], m.now + 1, Expires(m) && m.running == i + 1, Picked(m) == i + 1, Runner(m) == i + 1)
  }

  /** A ready-list entry is the control block of a READY task, and every READY task is listed. */
  lemma ReadyListed(m: Machine)
    requires Linked(m)
    ensures ByPid(ReadyList(m))
    ensures forall p :: p in ReadyList(m) ==>
              1 <= p.pid <= |m.tasks| && p == Arrived(m).tasks[p.pid - 1].pcb && p.state.Ready?
    ensures forall i :: 0 <= i < |m.tasks| && Arrived(m).tasks[i].pcb.state.Ready? ==>
              Arrived(m).tasks[i].pcb in ReadyList(m)
  {
    var a := Arrived(m);
    forall i | 0 <= i < |m.tasks|
      ensures Pcbs(a.tasks)[i] == a.tasks[i].pcb && a.tasks[i].pcb.pid == i + 1
    {
      ArrivedTask(m, i);
      assert m.tasks[i].pcb.pid == i + 1;
    }
    hide Arrived, Admit, InState;
    InStateByPid(Pcbs(a.tasks), Ready);
    forall i | 0 <= i < |m.tasks| && a.tasks[i].pcb.state.Ready?
      ensures a.tasks[i].pcb in ReadyList(m)
    {
      assert Pcbs(a.tasks)[i] in Pcbs(a.tasks);
    }
  }

  ghost predicate Rising(m: Machine, at: seq<int>) {
    && (forall j :: 0 <= j < |at| ==> 0 <= at[j] < |m.tasks|)
    && forall j, k :: 0 <= j < k < |at| ==> at[j] < at[k]
  }

  function PcbsAt(m: Machine, at: seq<int>): (q: seq<Pcb>)
    requires forall j :: 0 <= j < |at| ==> 0 <= at[j] < |m.tasks|
    ensures |q| == |at|
  {
    seq(|at|, j requires 0 <= j < |at| => m.tasks[at[j]].pcb)
  }

  lemma PcbsAtByPid(m: Machine, at: seq<int>)
    requires Rising(m, at) && forall i :: 0 <= i < |m.tasks| ==> m.tasks[i].pcb.pid == i + 1
    ensures ByPid(PcbsAt(m, at)) && forall p :: p in PcbsAt(m, at) <==> p.pid - 1 in at && p == m.tasks[p.pid - 1].pcb
  {
    forall p: Pcb | p.pid - 1 in at && p == m.tasks[p.pid - 1].pcb ensures p in PcbsAt(m, at) {
      var j :| 0 <= j < |at| && at[j] == p.pid - 1;
      assert PcbsAt(m, at)[j] == p;
    }
  }

  /** The ready list, from the positions that are READY once the arrivals are in. */
  lemma ReadyListIs(m: Machine, at: seq<int>)
    requires Linked(m) && Rising(m, at)
    requires forall i :: 0 <= i < |m.tasks| ==> (Arrived(m).tasks[i].pcb.state.Ready? <==> i in at)
    ensures ReadyList(m) == PcbsAt(Arrived(m), at)
  {
    ReadyListed(m);
    ArrivedPids(m);
    hide ReadyList, PcbsAt, Arrived, ByPid, Linked;
    PcbsAtByPid(Arrived(m), at);
    forall i | i in at ensures 0 <= i < |m.tasks| {
    }
    hide Rising;
    ByPidUnique(ReadyList(m), PcbsAt(Arrived(m), at));
  }

  lemma ArrivedPids(m: Machine)
    requires Linked(m)
    ensures |Arrived(m).tasks| == |m.tasks| && forall i :: 0 <= i < |m.tasks| ==> Arrived(m).tasks[i].pcb.pid == i + 1
  {
    forall i | 0 <= i < |m.tasks| ensures Arrived(m).tasks[i].pcb.pid == i + 1 {
      ArrivedTask(m, i);
      assert m.tasks[i].pcb.pid == i + 1;
    }
  }

  /** The dispatched pid comes from the ready list. */
  lemma PickedListed(m: Machine)
    requires Linked(m) && Picked(m) != -1
    ensures exists p :: p in ReadyList(m) && p.pid == Picked(m)
  {
    hide InState, Arrivals, FirstMinimum;
    var pid := Choose(m.algo, m.lastIndex, ReadyList(m)).0;
  }

  /** The dispatched process was READY. */
  lemma PickedIsReady(m: Machine)
    requires Linked(m) && Picked(m) != -1
    ensures HasTask(m, Picked(m)) && Arrived(m).tasks[Picked(m) - 1].pcb.state.Ready?
    ensures m.running != Picked(m)
  {
    PickedListed(m);
    ReadyListed(m);
    hide Picked, ReadyList;
    var p :| p in ReadyList(m) && p.pid == Picked(m);
  }

  lemma PickedWhenReady(m: Machine)
    requires Linked(m)
    ensures (m.running == -1 || Expires(m)) && ReadyList(m) != [] ==> Picked(m) >= 1
  {
    ReadyListed(m);
    hide ReadyList, FirstMinimum;
    if (m.running == -1 || Expires(m)) && ReadyList(m) != [] {
      var pid := Choose(m.algo, m.lastIndex, ReadyList(m)).0;
      var p :| p in ReadyList(m) && p.pid == pid;
    }
  }

  lemma PickedIsFirst(m: Machine)
    requires Linked(m) && Picked(m) != -1 && !m.algo.RoundRobin?
    ensures exists p :: p in ReadyList(m) && p.pid == Picked(m)
                        && forall r :: r in ReadyList(m) && r != p ==> Precedes(m.algo, p, r)
  {
    ReadyListed(m);
    hide ReadyList, Choose, Precedes;
    ChoosesTheFirst(m.algo, m.lastIndex, ReadyList(m));
  }

  /** The order of service looks only at what admission leaves alone. */
  lemma PrecedesByKey(algo: SchedulingAlgorithm, t: Task, u: Task, now: int)
    ensures Precedes(algo, Admit(t, now).pcb, Admit(u, now).pcb) == Precedes(algo, t.pcb, u.pcb)
  {
  }

  /** Under FCFS and Priority the dispatched process precedes every other process that is READY. */
  lemma PickedPrecedes(m: Machine, j: int)
    requires Linked(m) && Picked(m) != -1 && !m.algo.RoundRobin?
    requires 0 <= j < |m.tasks| && j + 1 != Picked(m) && Admit(m.tasks[j], m.now + 1).pcb.state.Ready?
    ensures HasTask(m, Picked(m)) && Precedes(m.algo, m.tasks[Picked(m) - 1].pcb, m.tasks[j].pcb)
  {
    hide ReadyList, Picked, Precedes, Arrived;
    PickedIsFirst(m);
    PickedIsReady(m);
    ReadyListed(m);
    ArrivedTask(m, j);
    ArrivedTask(m, Picked(m) - 1);
    PrecedesByKey(m.algo, m.tasks[Picked(m) - 1], m.tasks[j], m.now + 1);
    assert Admit(m.tasks[j], m.now + 1).pcb.pid == j + 1;
    hide Admit;
    var p :| p in ReadyList(m) && p.pid == Picked(m)
             && forall r :: r in ReadyList(m) && r != p ==> Precedes(m.algo, p, r);
    assert Arrived(m).tasks[j].pcb in ReadyList(m);
  }

  /** In the machine: FCFS dispatches the earliest arrival of all READY processes, then the lowest pid. */
  lemma PickedByArrival(m: Machine, j: int)
    requires Linked(m) && Picked(m) != -1 && m.algo.FCFS?
    requires 0 <= j < |m.tasks| && j + 1 != Picked(m) && Admit(m.tasks[j], m.now + 1).pcb.state.Ready?
    ensures HasTask(m, Picked(m))
    ensures var p, r := m.tasks[Picked(m) - 1].pcb, m.tasks[j].pcb;
            p.arrival < r.arrival || (p.arrival == r.arrival && Picked(m) < j + 1)
  {
    PickedPrecedes(m, j);
    hide Picked;
  }

  /** Priority dispatches the lowest priority number of all READY processes, then the lowest pid. */
  lemma PickedByPriority(m: Machine, j: int)
    requires Linked(m) && Picked(m) != -1 && m.algo.Priority?
    requires 0 <= j < |m.tasks| && j + 1 != Picked(m) && Admit(m.tasks[j], m.now + 1).pcb.state.Ready?
    ensures HasTask(m, Picked(m))
    ensures var p, r := m.tasks[Picked(m) - 1].pcb, m.tasks[j].pcb;
            p.priority < r.priority || (p.priority == r.priority && Picked(m) < j + 1)
  {
    PickedPrecedes(m, j);
    hide Picked;
  }

  /** What the scheduling phase does to one task. */
  function Scheduled(m: Machine, i: int): Task
    requires 0 <= i < |m.tasks|
  {
    TaskStep(m.tasks[i], m.now + 1, Expires(m) && m.running == i + 1, Picked(m) == i + 1, false)
  }

  /** The quantum counter after the scheduling phase. */
  function ScheduledQuantum(m: Machine): int {
    if Picked(m) != -1 && m.algo.RoundRobin? then m.quantum else m.quantumLeft
  }

  /** The three cases of the scheduling phase. */
  lemma ScheduleCases(m: Machine)
    requires Linked(m)
    ensures HasTask(m, m.running) ==> HasTask(Arrived(m), m.running)
    ensures Schedule(Arrived(m)) ==
              if m.running == -1 then Dispatch(Arrived(m), ReadyList(m))
              else if Expires(m) then Dispatch(Demote(Arrived(m)), ReadyList(m))
              else Arrived(m)
  {
    hide InState, Dispatch, Choose;
    if m.running != -1 { assert Arrived(m).tasks[m.running - 1] == Admit(m.tasks[m.running - 1], m.now + 1); }
  }

  /** A dispatch moves the chosen task to RUNNING and resets the quantum. */
  lemma DispatchFields(m: Machine, a: Machine)
    requires Linked(m) && (m.running == -1 || Expires(m))
    requires |a.tasks| == |m.tasks| && a.running == -1 && a.algo == m.algo && a.lastIndex == m.lastIndex
    requires a.quantumLeft == m.quantumLeft && a.quantum == m.quantum
    ensures var d := Dispatch(a, ReadyList(m));
            && d.running == Picked(m) && d.quantumLeft == ScheduledQuantum(m) && d.now == a.now
            && d.cpuTotal == a.cpuTotal && d.algo == a.algo && d.quantum == a.quantum
            && |d.tasks| == |a.tasks|
            && forall i :: 0 <= i < |a.tasks| ==>
                 d.tasks[i] == if Picked(m) == i + 1 then Moved(a.tasks[i], Running, a.now) else a.tasks[i]
  {
    if ReadyList(m) != [] {
      PickedWhenReady(m);
      PickedIsReady(m);
    }
    hide ReadyList, Choose, Moved;
  }

  lemma ScheduleFields(m: Machine)
    requires Linked(m)
    ensures var s := Schedule(Arrived(m));
            && |s.tasks| == |m.tasks| && s.running == Runner(m) && s.now == m.now + 1
            && s.cpuTotal == m.cpuTotal && s.algo == m.algo && s.quantum == m.quantum
            && s.quantumLeft == ScheduledQuantum(m)
            && forall i :: 0 <= i < |m.tasks| ==> s.tasks[i] == Scheduled(m, i)
  {
    hide Schedule, ReadyList, Choose, Dispatch, RunOne, Moved, Admit, Arrivals;
    ScheduleCases(m);
    NoPickWhileRunning(m);
    forall i | 0 <= i < |m.tasks| ensures |Arrived(m).tasks| == |m.tasks| && Arrived(m).tasks[i] == Admit(m.tasks[i], m.now + 1) {
      ArrivedTask(m, i);
    }
    ArrivedFields(m);
    if m.running == -1 {
      DispatchFields(m, Arrived(m));
    } else if Expires(m) {
      DispatchFields(m, Demote(Arrived(m)));
      if Picked(m) != -1 { PickedIsReady(m); }
    }
  }

  lemma ArrivedFields(m: Machine)
    ensures var a := Arrived(m);
            && |a.tasks| == |m.tasks| && a.now == m.now + 1 && a.running == m.running && a.cpuTotal == m.cpuTotal && a.algo == m.algo
            && a.quantum == m.quantum && a.quantumLeft == m.quantumLeft && a.lastIndex == m.lastIndex
  {
  }

  /** The process that executes is in state RUNNING when execution starts. */
  lemma RunnerRuns(m: Machine)
    requires Linked(m) && Runner(m) != -1
    ensures HasTask(m, Runner(m)) && Scheduled(m, Runner(m) - 1).pcb.state.Running?
  {
    if Picked(m) != -1 { PickedIsReady(m); }
  }

  /** The whole effect of one time step, as a relation between the machine before and after. */
  ghost predicate Follows(m: Machine, n: Machine) {
    && n.now == m.now + 1 && n.algo == m.algo && n.quantum == m.quantum
    && |n.tasks| == |m.tasks| && (forall i :: 0 <= i < |m.tasks| ==> n.tasks[i] == Stepped(m, i))
    && n.cpuTotal == m.cpuTotal + (if Runner(m) == -1 then 0 else 1)
    && (Runner(m) != -1 ==> HasTask(m, Runner(m)))
    && n.running == (if Runner(m) == -1 || Stepped(m, Runner(m) - 1).pcb.state.Terminated? then -1 else Runner(m))
    && n.quantumLeft ==
         (if Runner(m) == -1 then ScheduledQuantum(m)
          else if n.running == -1 then 0
          else ScheduledQuantum(m) - (if m.algo.RoundRobin? then 1 else 0))
  }

  lemma FollowsExecute(m: Machine, s: Machine)
    requires Linked(m)
    requires |s.tasks| == |m.tasks| && s.running == Runner(m) && s.now == m.now + 1
    requires s.cpuTotal == m.cpuTotal && s.algo == m.algo && s.quantum == m.quantum
    requires s.quantumLeft == ScheduledQuantum(m)
    requires forall i :: 0 <= i < |m.tasks| ==> s.tasks[i] == Scheduled(m, i)
    requires Runner(m) != -1 ==> HasTask(m, Runner(m)) && Scheduled(m, Runner(m) - 1).pcb.state.Running?
    ensures Follows(m, Execute(s))
  {
    hide Picked, Expires, Runner, ScheduledQuantum, Moved, Admit, Decreased, FinalMetrics;
  }

  lemma TickFollows(m: Machine)
    requires Linked(m)
    ensures Follows(m, Tick(m)) && Linked(Tick(m))
  {
    ScheduleFields(m);
    if Runner(m) != -1 { RunnerRuns(m); }
    FollowsExecute(m, Schedule(Arrived(m)));
    FollowsLinked(m, Tick(m));
  }

  /** The part a task plays in one time step. */
  datatype Role = Bystander | Demoted | Dispatched | Continues

  function RoleOf(m: Machine, i: int): Role {
    if Runner(m) == i + 1 then (if Picked(m) == i + 1 then Dispatched else Continues)
    else if Expires(m) && m.running == i + 1 then Demoted else Bystander
  }

  function StepAs(role: Role, t: Task, now: int): Task {
    match role
    case Bystander => Admit(t, now)
    case Demoted => Moved(t, Ready, now)
    case Dispatched => RunOne(Moved(Admit(t, now), Running, now), now)
    case Continues => RunOne(t, now)
  }

  /** The role decides the step, and the state before the step limits the role. */
  lemma SteppedByRole(m: Machine, i: int)
    requires Linked(m) && 0 <= i < |m.tasks|
    ensures Stepped(m, i) == StepAs(RoleOf(m, i), m.tasks[i], m.now + 1)
    ensures match RoleOf(m, i)
            case Bystander => !m.tasks[i].pcb.state.Running?
            case Demoted => m.tasks[i].pcb.state.Running? && Expires(m) && m.running == i + 1
            case Dispatched => Admit(m.tasks[i], m.now + 1).pcb.state.Ready? && Picked(m) == i + 1
            case Continues => m.tasks[i].pcb.state.Running? && !Expires(m) && m.running == i + 1
  {
    if Picked(m) != -1 { PickedIsReady(m); }
  }

  predicate SameParameters(p: Pcb, q: Pcb) {
    p.pid == q.pid && p.priority == q.priority && p.burst == q.burst && p.arrival == q.arrival
  }

  /** What a process was created with never changes. */
  lemma StepKeepsParameters(m: Machine, i: int)
    requires Linked(m) && 0 <= i < |m.tasks|
    ensures SameParameters(Stepped(m, i).pcb, m.tasks[i].pcb)
  {
    SteppedByRole(m, i);
  }

  /** Pids stay positions, and at most one process is RUNNING after any time step. */
  lemma FollowsLinked(m: Machine, n: Machine)
    requires Linked(m) && Follows(m, n)
    ensures Linked(n)
  {
    hide Stepped, Runner, Picked, Expires;
    forall i | 0 <= i < |m.tasks|
      ensures n.tasks[i].pcb.pid == i + 1
      ensures n.tasks[i].pcb.state.Running? <==> n.running == i + 1
    {
      SteppedLinked(m, i);
    }
  }

  lemma SteppedLinked(m: Machine, i: int)
    requires Linked(m) && 0 <= i < |m.tasks|
    ensures Stepped(m, i).pcb.pid == i + 1
    ensures Stepped(m, i).pcb.state.Running? <==> (Runner(m) == i + 1 && !Stepped(m, i).pcb.state.Terminated?)
  {
    SteppedByRole(m, i);
  }

  lemma ArrivedTask(m: Machine, i: int)
    requires 0 <= i < |m.tasks|
    ensures |Arrived(m).tasks| == |m.tasks| && Arrived(m).tasks[i] == Admit(m.tasks[i], m.now + 1)
  {
  }

  lemma NoPickWhileRunning(m: Machine)
    ensures m.running != -1 && !Expires(m) ==> Picked(m) == -1
    ensures Picked(m) != -1 ==> Runner(m) == Picked(m)
  {
  }

  /** When nothing executes, nothing was READY before a possible demotion. */
  lemma IdleMeansNoneReady(m: Machine)
    requires Linked(m) && Runner(m) == -1
    ensures m.running == -1 || Expires(m)
    ensures forall i :: 0 <= i < |m.tasks| ==> !Arrived(m).tasks[i].pcb.state.Ready?
  {
    PickedWhenReady(m);
    ReadyListed(m);
  }
}
