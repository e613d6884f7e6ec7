/**
 What every reachable state of the tick machine satisfies: the link between the running pid
 and the RUNNING task, the life of each task, and the accounting of its waiting time.
*/
module TickInvariant {
  import opened KernelTypes
  import opened TickModel
  import opened TickSteps
  import opened Sums

  /** A machine with the time at which each of its processes was added. */
  datatype Recorded = Recorded(m: Machine, added: seq<int>)

  /** One call on the controller. */
  datatype Event = Step | Add(config: ProcessConfig) | Switch(algo: SchedulingAlgorithm, quantum: int)

  /** The tick that admits a process added at a given time. */
  function Admission(t: Task, added: int): int {
    Max(t.pcb.arrival, added + 1)
  }

  function Used(t: Task): int {
    t.pcb.burst - t.pcb.remaining
  }

  function AllUsed(tasks: seq<Task>): (u: seq<int>)
    ensures |u| == |tasks|
  {
    seq(|tasks|, i requires 0 <= i < |tasks| => Used(tasks[i]))
  }

  ghost predicate TaskInv(t: Task, added: int, now: int) {
    var p, adm := t.pcb, Admission(t, added);
    && AcceptsParameters(p.priority, p.burst, p.arrival)
    && 0 <= added <= now
    && 0 <= p.remaining <= p.burst
    && (p.remaining == 0 <==> p.state.Terminated?)
    && (p.state.Terminated? <==> t.track.Done?)
    && (t.track.Active? ==> ActiveInv(t, adm, now))
    && (t.track.Done? ==> DoneInv(t, adm, now))
  }

  /** A process not yet completed: where its time since admission went. */
  ghost predicate ActiveInv(t: Task, adm: int, now: int)
    requires t.track.Active?
  {
    var p, info := t.pcb, t.track.info;
    && info.arrival == p.arrival
    && (p.state.New? <==> now < adm)
    && (info.started <==> p.remaining < p.burst)
    && (info.started ==> adm <= info.firstRun <= now)
    && info.totalWait >= 0
    && match p.state
       case New => !info.started && info.totalWait == 0
       case Ready => info.lastChange <= now && adm + info.totalWait + Used(t) == info.lastChange
       case Running => info.started && adm + info.totalWait + Used(t) == now + 1
       case _ => false
  }

  /** A completed process: its stored metrics account for the whole stay. */
  ghost predicate DoneInv(t: Task, adm: int, now: int)
    requires t.track.Done?
  {
    var p, c := t.pcb, t.track.metrics;
    && c.completion == p.completion && adm <= p.completion <= now
    && c.waiting >= 0
    && adm + c.waiting + p.burst == c.completion + 1
    && c.turnaround == c.completion - p.arrival
    && adm - p.arrival <= c.response <= c.turnaround
  }

  ghost predicate Inv(r: Recorded) {
    && Linked(r.m)
    && |r.added| == |r.m.tasks|
    && (forall i :: 0 <= i < |r.added| ==> TaskInv(r.m.tasks[i], r.added[i], r.m.now))
    && r.m.cpuTotal == Sum(AllUsed(r.m.tasks)) && r.m.cpuTotal <= r.m.now
  }

  function Apply(r: Recorded, e: Event): Recorded {
    match e
    case Step => r.(m := Tick(r.m))
    case Add(c) =>
      if AcceptsParameters(c.priority, c.burst, c.arrival) then Recorded(AddTask(r.m, c), r.added + [r.m.now]) else r
    case Switch(algo, quantum) => r.(m := SwitchScheduler(r.m, algo, quantum))
  }

  function Play(r: Recorded, es: seq<Event>): Recorded {
    if es == [] then r else Apply(Play(r, es[..|es| - 1]), es[|es| - 1])
  }

  lemma PlayNext(r: Recorded, es: seq<Event>, e: Event)
    ensures Play(r, es + [e]) == Apply(Play(r, es), e)
    ensures Play(r, []) == r
  {
    hide Apply;
    assert (es + [e])[..|es|] == es;
  }

  function Begin(algo: SchedulingAlgorithm, quantum: int): Recorded {
    Recorded(Start(algo, quantum), [])
  }

  /** The scheduler is replaced only while no process runs. */
  ghost predicate SwitchesWhenIdle(r: Recorded, es: seq<Event>) {
    es != [] ==>
      && SwitchesWhenIdle(r, es[..|es| - 1])
      && (es[|es| - 1].Switch? ==> Play(r, es[..|es| - 1]).m.running == -1)
  }

  /** One time step keeps the life and the accounting of every task. */
  lemma TaskInvStep(r: Recorded, i: int)
    requires Inv(r) && 0 <= i < |r.added|
    ensures TaskInv(Stepped(r.m, i), r.added[i], r.m.now + 1)
  {
    SteppedByRole(r.m, i);
    RoleKeepsTaskInv(RoleOf(r.m, i), r.m.tasks[i], r.added[i], r.m.now + 1);
  }

  /** The same for each role on its own. */
  lemma RoleKeepsTaskInv(role: Role, t: Task, added: int, now: int)
    requires TaskInv(t, added, now - 1)
    requires role.Bystander? ==> !t.pcb.state.Running?
    requires role.Demoted? || role.Continues? ==> t.pcb.state.Running?
    requires role.Dispatched? ==> Admit(t, now).pcb.state.Ready?
    ensures TaskInv(StepAs(role, t, now), added, now)
  {
  }

  /** Only the runner uses time, and exactly one unit. */
  lemma StepUsesOne(r: Recorded, i: int)
    requires Inv(r) && 0 <= i < |r.added|
    ensures Used(Stepped(r.m, i)) == Used(r.m.tasks[i]) + (if Runner(r.m) == i + 1 then 1 else 0)
    ensures Stepped(r.m, i).pcb.burst == r.m.tasks[i].pcb.burst
  {
    assert TaskInv(r.m.tasks[i], r.added[i], r.m.now);
    SteppedByRole(r.m, i);
  }

  lemma StepUsesAt(r: Recorded, n: Machine, i: int)
    requires Inv(r) && Follows(r.m, n) && 0 <= i < |n.tasks|
    ensures AllUsed(n.tasks)[i] == AllUsed(r.m.tasks)[i] + Unit(|n.tasks|, Runner(r.m) - 1)[i]
  {
    StepUsesOne(r, i);
    hide Stepped, Runner, Used;
  }

  lemma StepUses(r: Recorded, n: Machine)
    requires Inv(r) && Follows(r.m, n)
    ensures Sum(AllUsed(n.tasks)) == Sum(AllUsed(r.m.tasks)) + (if Runner(r.m) == -1 then 0 else 1)
  {
    hide Inv, AllUsed, Stepped, Runner, Unit;
    var one := Unit(|n.tasks|, Runner(r.m) - 1);
    forall i | 0 <= i < |n.tasks|
      ensures AllUsed(n.tasks)[i] == AllUsed(r.m.tasks)[i] + one[i]
    {
      StepUsesAt(r, n, i);
    }
    SumAdd(AllUsed(n.tasks), AllUsed(r.m.tasks), one);
    SumUnit(|n.tasks|, Runner(r.m) - 1);
  }

  lemma InvFollows(r: Recorded, n: Machine)
    requires Inv(r) && Follows(r.m, n) && Linked(n)
    ensures Inv(r.(m := n))
  {
    StepUses(r, n);
    forall i | 0 <= i < |r.added| ensures TaskInv(n.tasks[i], r.added[i], n.now) {
      TaskInvStep(r, i);
    }
  }

  lemma InvStep(r: Recorded)
    requires Inv(r)
    ensures Inv(Apply(r, Step)) && Follows(r.m, Tick(r.m))
  {
    TickFollows(r.m);
    InvFollows(r, Tick(r.m));
  }

  lemma InvAdd(r: Recorded, c: ProcessConfig)
    requires Inv(r)
    ensures Inv(Apply(r, Add(c)))
  {
    if AcceptsParameters(c.priority, c.burst, c.arrival) {
      var n := AddTask(r.m, c);
      assert AllUsed(n.tasks) == AllUsed(r.m.tasks) + [0];
      SumAppend(AllUsed(r.m.tasks), 0);
    }
  }

  /**
   Replacing the scheduler keeps the invariant exactly when no process runs; otherwise the
   running process stays RUNNING with no one to run it.
  */
  lemma SwitchKeepsInvIffIdle(r: Recorded, algo: SchedulingAlgorithm, quantum: int)
    requires Inv(r)
    ensures Inv(Apply(r, Switch(algo, quantum))) <==> r.m.running == -1
  {
    var n := SwitchScheduler(r.m, algo, quantum);
    assert n.tasks == r.m.tasks;
    if r.m.running != -1 {
      assert n.tasks[r.m.running - 1].pcb.state.Running?;
    }
  }

  lemma BeginInv(algo: SchedulingAlgorithm, quantum: int)
    ensures Inv(Begin(algo, quantum))
  {
    assert AllUsed([]) == [];
  }

  /** The invariant survives every continuation by adding, stepping and idle switches. */
  lemma {:induction false} InvPlay(r: Recorded, es: seq<Event>)
    requires Inv(r) && SwitchesWhenIdle(r, es)
    ensures Inv(Play(r, es))
  {
    hide Inv, Tick;
    if es != [] {
      var front := es[..|es| - 1];
      InvPlay(r, front);
      var s := Play(r, front);
      match es[|es| - 1]
      case Step => InvStep(s);
      case Add(c) => InvAdd(s, c);
      case Switch(a, q) => SwitchKeepsInvIffIdle(s, a, q);
    }
  }

  /** The running process of such a switch exists: one process added before one step. */
  lemma SwitchWhileRunningBreaks(c: ProcessConfig, algo: SchedulingAlgorithm, quantum: int)
    requires AcceptsParameters(c.priority, c.burst, c.arrival) && c.burst > 1 && c.arrival <= 1
    ensures var r := Play(Begin(FCFS, quantum), [Add(c), Step]);
            Inv(r) && r.m.running == 1 && !Inv(Apply(r, Switch(algo, quantum)))
  {
    hide Tick, Inv;
    var s := Apply(Begin(FCFS, quantum), Add(c));
    PlayNext(Begin(FCFS, quantum), [], Add(c));
    PlayNext(Begin(FCFS, quantum), [Add(c)], Step);
    BeginInv(FCFS, quantum);
    InvAdd(Begin(FCFS, quantum), c);
    InvStep(s);
    LoneProcessRuns(s);
    SwitchKeepsInvIffIdle(Apply(s, Step), algo, quantum);
  }

  lemma LoneProcessRuns(r: Recorded)
    requires Inv(r) && |r.m.tasks| == 1 && r.m.running == -1 && Follows(r.m, Tick(r.m))
    requires r.m.tasks[0].pcb.state.New? && r.m.tasks[0].pcb.arrival <= r.m.now + 1 && r.m.tasks[0].pcb.remaining > 1
    ensures Tick(r.m).running == 1
  {
    ArrivedTask(r.m, 0);
    if Runner(r.m) == -1 { IdleMeansNoneReady(r.m); }
    SteppedByRole(r.m, 0);
    hide Tick, Picked;
  }

  /** Every state reached by adding, stepping and idle switches satisfies the invariant. */
  lemma Reachable(algo: SchedulingAlgorithm, quantum: int, es: seq<Event>)
    requires SwitchesWhenIdle(Begin(algo, quantum), es)
    ensures Inv(Play(Begin(algo, quantum), es))
  {
    BeginInv(algo, quantum);
    InvPlay(Begin(algo, quantum), es);
  }

  predicate IsCompleted(m: Machine, i: int) {
    0 <= i < |m.tasks| && m.tasks[i].pcb.state.Terminated?
  }

  /** Time accounting of every completed process, whatever the schedulers and the arrivals were. */
  lemma CompletedAccounting(algo: SchedulingAlgorithm, quantum: int, es: seq<Event>, i: int)
    requires SwitchesWhenIdle(Begin(algo, quantum), es)
    requires IsCompleted(Play(Begin(algo, quantum), es).m, i)
    ensures var r := Play(Begin(algo, quantum), es);
            |r.added| == |r.m.tasks| && r.m.tasks[i].track.Done? &&
            var p, c, adm := r.m.tasks[i].pcb, r.m.tasks[i].track.metrics, Admission(r.m.tasks[i], r.added[i]);
            && c.completion == p.completion <= r.m.now
            && c.waiting + p.burst == c.completion + 1 - adm
            && c.turnaround == c.waiting + p.burst + (adm - p.arrival) - 1
            && 0 <= c.waiting && adm - p.arrival <= c.response <= c.turnaround
  {
    Reachable(algo, quantum, es);
    var r := Play(Begin(algo, quantum), es);
    assert TaskInv(r.m.tasks[i], r.added[i], r.m.now);
  }

  /** In every reachable state at most one task is RUNNING, and it is the one `running` names. */
  lemma OneRunning(algo: SchedulingAlgorithm, quantum: int, es: seq<Event>)
    requires SwitchesWhenIdle(Begin(algo, quantum), es)
    ensures var m := Play(Begin(algo, quantum), es).m;
            && (m.running == -1 || HasTask(m, m.running))
            && (forall i :: 0 <= i < |m.tasks| ==> (m.tasks[i].pcb.state.Running? <==> m.running == i + 1))
            && (forall i :: 0 <= i < |m.tasks| ==>
                 (m.tasks[i].pcb.remaining == 0 <==> m.tasks[i].pcb.state.Terminated?)
                 && (m.tasks[i].track.Done? <==> m.tasks[i].pcb.state.Terminated?)
                 && !m.tasks[i].pcb.state.Waiting?)
            && m.cpuTotal == Sum(AllUsed(m.tasks)) <= m.now
  {
    Reachable(algo, quantum, es);
    var r := Play(Begin(algo, quantum), es);
    forall i | 0 <= i < |r.m.tasks|
      ensures (r.m.tasks[i].pcb.remaining == 0 <==> r.m.tasks[i].pcb.state.Terminated?)
      ensures (r.m.tasks[i].track.Done? <==> r.m.tasks[i].pcb.state.Terminated?) && !r.m.tasks[i].pcb.state.Waiting?
    {
      assert TaskInv(r.m.tasks[i], r.added[i], r.m.now);
    }
  }

  /** A time step does not touch a TERMINATED entry. */
  lemma TerminatedStep(m: Machine, i: int)
    requires Linked(m) && 0 <= i < |m.tasks| && m.tasks[i].pcb.state.Terminated?
    ensures |Tick(m).tasks| == |m.tasks| && Tick(m).tasks[i] == m.tasks[i]
  {
    TickFollows(m);
    SteppedByRole(m, i);
  }

  /** TERMINATED is final: no continuation of the run ever changes the entry or its metrics. */
  lemma {:induction false} TerminatedIsAbsorbing(r: Recorded, es: seq<Event>, i: int)
    requires Inv(r) && SwitchesWhenIdle(r, es) && 0 <= i < |r.m.tasks| && r.m.tasks[i].pcb.state.Terminated?
    ensures i < |Play(r, es).m.tasks| && Play(r, es).m.tasks[i] == r.m.tasks[i]
  {
    hide Inv, Tick;
    if es != [] {
      var front := es[..|es| - 1];
      TerminatedIsAbsorbing(r, front, i);
      InvPlay(r, front);
      if es[|es| - 1].Step? {
        InvLinked(Play(r, front));
        TerminatedStep(Play(r, front).m, i);
      }
    }
  }

  lemma TaskOfInv(r: Recorded, i: int)
    requires Inv(r) && 0 <= i < |r.added|
    ensures |r.added| == |r.m.tasks| && TaskInv(r.m.tasks[i], r.added[i], r.m.now)
  {
  }

  lemma InvLinked(r: Recorded)
    requires Inv(r)
    ensures Linked(r.m) && |r.added| == |r.m.tasks|
  {
  }

  // Who is in the table, and what the quantum counter can be.

  /** The processes that the calls have added, in order: those with a priority of 1 to 10, a burst and no negative arrival. */
  function Accepted(es: seq<Event>): seq<ProcessConfig> {
    if es == [] then []
    else
      var front, last := es[..|es| - 1], es[|es| - 1];
      Accepted(front)
      + (if last.Add? && 1 <= last.config.priority <= 10 && last.config.burst > 0 && last.config.arrival >= 0
         then [last.config] else [])
  }

  ghost predicate CreatedAs(t: Task, i: int, c: ProcessConfig) {
    && t.pcb.pid == i + 1 && t.pcb.priority == c.priority && t.pcb.burst == c.burst && t.pcb.arrival == c.arrival
    && (!t.pcb.state.Terminated? ==> t.pcb.completion == -1)
  }

  lemma StepKeepsCreated(r: Recorded, n: Machine, cs: seq<ProcessConfig>)
    requires Inv(r) && Follows(r.m, n) && |r.m.tasks| == |cs|
    requires forall i :: 0 <= i < |cs| ==> CreatedAs(r.m.tasks[i], i, cs[i])
    ensures |n.tasks| == |cs| && forall i :: 0 <= i < |cs| ==> CreatedAs(n.tasks[i], i, cs[i])
  {
    hide Stepped;
    forall i | 0 <= i < |cs| ensures CreatedAs(n.tasks[i], i, cs[i]) {
      StepKeepsParameters(r.m, i);
      NoCompletionYet(r.m, i);
    }
  }

  lemma NoCompletionYet(m: Machine, i: int)
    requires Linked(m) && 0 <= i < |m.tasks|
    ensures Stepped(m, i).pcb.state.Terminated? || Stepped(m, i).pcb.completion == m.tasks[i].pcb.completion
    ensures m.tasks[i].pcb.state.Terminated? ==> Stepped(m, i).pcb.state.Terminated?
  {
    SteppedByRole(m, i);
    hide Picked, Stepped;
  }

  /** In every reachable state the table holds exactly the accepted processes, in order, with the values they were added with. */
  lemma {:induction false} TableOfAccepted(algo: SchedulingAlgorithm, quantum: int, es: seq<Event>)
    requires SwitchesWhenIdle(Begin(algo, quantum), es)
    ensures var m := Play(Begin(algo, quantum), es).m;
            && |m.tasks| == |Accepted(es)|
            && forall i :: 0 <= i < |m.tasks| ==> CreatedAs(m.tasks[i], i, Accepted(es)[i])
  {
    hide Inv, Tick, Follows;
    if es != [] {
      var front := es[..|es| - 1];
      TableOfAccepted(algo, quantum, front);
      Reachable(algo, quantum, front);
      var r := Play(Begin(algo, quantum), front);
      if es[|es| - 1].Step? {
        InvStep(r);
        StepKeepsCreated(r, Tick(r.m), Accepted(front));
      }
    }
  }

  /**
   Time left in the quantum: none without Round Robin, none while no process runs, and less than
   the quantum while one does.
  */
  ghost predicate QuantumInv(m: Machine) {
    && (!m.algo.RoundRobin? ==> m.quantumLeft == 0)
    && (m.algo.RoundRobin? && m.running == -1 ==> m.quantumLeft <= 0)
    && (m.algo.RoundRobin? && m.running != -1 ==> m.quantumLeft < m.quantum)
  }

  lemma QuantumStep(m: Machine, n: Machine)
    requires Linked(m) && Follows(m, n) && QuantumInv(m)
    ensures QuantumInv(n)
  {
    NoPickWhileRunning(m);
    hide Picked, Stepped;
  }

  lemma {:induction false} QuantumAlways(algo: SchedulingAlgorithm, quantum: int, es: seq<Event>)
    requires SwitchesWhenIdle(Begin(algo, quantum), es)
    ensures QuantumInv(Play(Begin(algo, quantum), es).m)
  {
    hide Inv, Tick, Follows, Linked;
    if es != [] {
      var front := es[..|es| - 1];
      QuantumAlways(algo, quantum, front);
      Reachable(algo, quantum, front);
      var r := Play(Begin(algo, quantum), front);
      if es[|es| - 1].Step? {
        InvStep(r);
        InvLinked(r);
        QuantumStep(r.m, Tick(r.m));
      }
    }
  }

  /** A running pid without a RUNNING process is forgotten: the step goes on as if no process ran. */
  lemma StaleRunnerIsForgotten(m: Machine)
    requires m.running != -1 && (!HasTask(m, m.running) || !m.tasks[m.running - 1].pcb.state.Running?)
    ensures Schedule(m) == Schedule(m.(running := -1))
    ensures Execute(m).running == -1 && Execute(m).tasks == m.tasks && Execute(m).cpuTotal == m.cpuTotal
  {
    hide Dispatch;
  }
}
