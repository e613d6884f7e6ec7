/**
 The tick machine as a function on values: one simulated time step is arrivals, then
 scheduling, then execution. A task joins what the source keeps about one pid in the
 process table and in the metrics collector.
*/
module TickModel {
  import opened KernelTypes
  import opened Scheduling

  datatype Tracking = Active(info: TrackingInfo) | Done(metrics: ProcessMetrics)

  datatype Task = Task(pcb: Pcb, track: Tracking)

  /** The entry of pid p stands at position p - 1; `running` is -1 when no process runs. */
  datatype Machine = Machine(now: int, running: int, quantumLeft: int,
                             algo: SchedulingAlgorithm, quantum: int, lastIndex: int,
                             tasks: seq<Task>, cpuTotal: int)

  function Start(algo: SchedulingAlgorithm, quantum: int): Machine {
    Machine(0, -1, 0, algo, quantum, -1, [], 0)
  }

  function Pcbs(tasks: seq<Task>): (pcbs: seq<Pcb>)
    ensures |pcbs| == |tasks|
  {
    seq(|tasks|, i requires 0 <= i < |tasks| => tasks[i].pcb)
  }

  predicate HasTask(m: Machine, pid: int) {
    1 <= pid <= |m.tasks|
  }

  /** A state change made in the process table and recorded in the metrics. */
  function Moved(t: Task, s: ProcessState, now: int): Task {
    Task(t.pcb.(state := s),
         match t.track
         case Active(info) => Active(RecordedChange(info, t.pcb.state, s, now))
         case Done(_) => t.track)
  }

  function Admit(t: Task, now: int): Task {
    if t.pcb.state.New? && t.pcb.arrival <= now then Moved(t, Ready, now) else t
  }

  function Arrivals(m: Machine): Machine {
    m.(tasks := seq(|m.tasks|, i requires 0 <= i < |m.tasks| => Admit(m.tasks[i], m.now)))
  }

  function Dispatch(m: Machine, ready: seq<Pcb>): Machine {
    if ready == [] then m else
      var (pid, index) := Choose(m.algo, m.lastIndex, ready);
      if !HasTask(m, pid) then m.(lastIndex := index)
      else m.(lastIndex := index,
              tasks := m.tasks[pid - 1 := Moved(m.tasks[pid - 1], Running, m.now)],
              running := pid,
              quantumLeft := if m.algo.RoundRobin? then m.quantum else m.quantumLeft)
  }

  /** The running process goes back to READY. */
  function Demote(m: Machine): Machine
    requires HasTask(m, m.running)
  {
    m.(tasks := m.tasks[m.running - 1 := Moved(m.tasks[m.running - 1], Ready, m.now)], running := -1)
  }

  /** The ready list is taken before an expired process is demoted. */
  function Schedule(m: Machine): Machine {
    var ready := InState(Pcbs(m.tasks), Ready);
    if m.running == -1 then Dispatch(m, ready)
    else if !HasTask(m, m.running) || !m.tasks[m.running - 1].pcb.state.Running? then
      Dispatch(m.(running := -1), ready)
    else if m.algo.RoundRobin? && m.quantumLeft <= 0 then Dispatch(Demote(m), ready)
    else m
  }

  function Decreased(p: Pcb): Pcb {
    p.(remaining := if p.remaining - 1 < 0 then 0 else p.remaining - 1)
  }

  /** A process that has nothing left: its metrics are stored and it is no longer tracked. */
  function Finished(t: Task, now: int): Task {
    Task(t.pcb.(state := Terminated, completion := now),
         match t.track
         case Active(info) => Done(FinalMetrics(info, now))
         case Done(_) => t.track)
  }

  /** One time unit of execution, with completion when nothing remains. */
  function RunOne(t: Task, now: int): Task {
    var ran := t.(pcb := Decreased(t.pcb));
    if ran.pcb.remaining > 0 then ran else Finished(ran, now)
  }

  function Execute(m: Machine): Machine {
    if m.running == -1 then m
    else if !HasTask(m, m.running) || !m.tasks[m.running - 1].pcb.state.Running? then m.(running := -1)
    else
      var t := RunOne(m.tasks[m.running - 1], m.now);
      var done := t.pcb.state.Terminated?;
      m.(tasks := m.tasks[m.running - 1 := t],
         cpuTotal := m.cpuTotal + 1,
         running := if done then -1 else m.running,
         quantumLeft := if done then 0 else if m.algo.RoundRobin? then m.quantumLeft - 1 else m.quantumLeft)
  }

  function Tick(m: Machine): Machine {
    Execute(Schedule(Arrivals(m.(now := m.now + 1))))
  }

  function Ticks(m: Machine, n: nat): Machine {
    if n == 0 then m else Tick(Ticks(m, n - 1))
  }

  /** A time step reports that the simulation is over exactly in these states. */
  predicate AllCompleted(m: Machine) {
    m.tasks != [] && forall i :: 0 <= i < |m.tasks| ==> m.tasks[i].pcb.state.Terminated?
  }

  function AddTask(m: Machine, c: ProcessConfig): Machine {
    if AcceptsParameters(c.priority, c.burst, c.arrival) then
      var p := NewPcb(|m.tasks| + 1, c.priority, c.burst, c.arrival);
      m.(tasks := m.tasks + [Task(p, Active(NewTracking(p)))])
    else m
  }

  /** A new scheduler, with the running process forgotten but left in its state. */
  function SwitchScheduler(m: Machine, algo: SchedulingAlgorithm, quantum: int): Machine {
    m.(algo := algo, quantum := quantum, lastIndex := -1, running := -1, quantumLeft := 0)
  }
}
