/**
 The work left in the machine. FCFS and Priority never idle while work is admitted, so their
 workload does not depend on the policy; Round Robin can only fall behind them.
*/
module Workload {
  import opened KernelTypes
  import opened TickModel
  import opened TickSteps
  import opened TickInvariant
  import opened Sums

  function WorkOf(t: Task): int {
    if t.pcb.state.New? then 0 else t.pcb.remaining
  }

  function ArrivingOf(t: Task, now: int): int {
    if t.pcb.state.New? && t.pcb.arrival <= now then t.pcb.burst else 0
  }

  function Works(m: Machine): (w: seq<int>)
    ensures |w| == |m.tasks|
  {
    seq(|m.tasks|, i requires 0 <= i < |m.tasks| => WorkOf(m.tasks[i]))
  }

  function Arrivings(m: Machine): (w: seq<int>)
    ensures |w| == |m.tasks|
  {
    seq(|m.tasks|, i requires 0 <= i < |m.tasks| => ArrivingOf(m.tasks[i], m.now + 1))
  }

  /** The CPU time still owed to admitted processes. */
  function Work(m: Machine): int {
    Sum(Works(m))
  }

  /** The burst time that the next time step admits. */
  function Arriving(m: Machine): int {
    Sum(Arrivings(m))
  }

  lemma WorkOfStep(r: Recorded, i: int)
    requires Inv(r) && 0 <= i < |r.added|
    ensures WorkOf(Stepped(r.m, i)) ==
              WorkOf(r.m.tasks[i]) + ArrivingOf(r.m.tasks[i], r.m.now + 1) - (if Runner(r.m) == i + 1 then 1 else 0)
  {
    assert TaskInv(r.m.tasks[i], r.added[i], r.m.now);
    SteppedByRole(r.m, i);
  }

  lemma WorkNonNegative(r: Recorded)
    requires Inv(r)
    ensures forall i :: 0 <= i < |r.added| ==> 0 <= Works(r.m)[i] <= Work(r.m)
    ensures Work(r.m) >= 0
  {
    forall i | 0 <= i < |r.added| ensures Works(r.m)[i] >= 0 {
      assert TaskInv(r.m.tasks[i], r.added[i], r.m.now);
    }
    SumNonNegative(Works(r.m));
  }

  lemma WorkPosition(r: Recorded, n: Machine, i: int)
    requires Inv(r) && Follows(r.m, n) && 0 <= i < |r.added|
    ensures Works(n)[i] + Unit(|n.tasks|, Runner(r.m) - 1)[i] == Works(r.m)[i] + Arrivings(r.m)[i]
  {
    WorkOfStep(r, i);
    hide WorkOf, ArrivingOf, Runner, Stepped;
  }

  /** A step adds the arriving bursts and takes away one unit when something executes. */
  lemma WorkStep(r: Recorded, n: Machine)
    requires Inv(r) && Follows(r.m, n)
    ensures Work(n) == Work(r.m) + Arriving(r.m) - (if Runner(r.m) == -1 then 0 else 1)
  {
    forall i | 0 <= i < |n.tasks|
      ensures Works(n)[i] + Unit(|n.tasks|, Runner(r.m) - 1)[i] == Works(r.m)[i] + Arrivings(r.m)[i]
    {
      WorkPosition(r, n, i);
    }
    hide Works, Arrivings, Unit;
    SumBalance(Works(n), Unit(|n.tasks|, Runner(r.m) - 1), Works(r.m), Arrivings(r.m));
    SumUnit(|n.tasks|, Runner(r.m) - 1);
  }

  /** With work at hand, FCFS and Priority always execute. */
  lemma IdleMeansNoWork(r: Recorded, n: Machine)
    requires Inv(r) && Follows(r.m, n) && Runner(r.m) == -1 && !r.m.algo.RoundRobin?
    ensures Work(n) == 0
  {
    IdleMeansNoneReady(r.m);
    forall i | 0 <= i < |n.tasks| ensures Works(n)[i] == 0 {
      assert TaskInv(r.m.tasks[i], r.added[i], r.m.now);
      SteppedByRole(r.m, i);
      assert Arrived(r.m).tasks[i] == Admit(r.m.tasks[i], r.m.now + 1);
    }
    AllZero(Works(n));
  }

  lemma {:induction false} AllZero(s: seq<int>)
    requires forall i :: 0 <= i < |s| ==> s[i] == 0
    ensures Sum(s) == 0
  {
    if s != [] { AllZero(s[..|s| - 1]); }
  }

  /** The workload recurrence: exact for FCFS and Priority, a lower bound for Round Robin. */
  lemma WorkRecurrence(r: Recorded)
    requires Inv(r)
    ensures Work(Tick(r.m)) >= Max(Work(r.m) + Arriving(r.m) - 1, 0)
    ensures !r.m.algo.RoundRobin? ==> Work(Tick(r.m)) == Max(Work(r.m) + Arriving(r.m) - 1, 0)
  {
    InvStep(r);
    WorkStep(r, Tick(r.m));
    WorkNonNegative(Apply(r, Step));
    if Runner(r.m) == -1 && !r.m.algo.RoundRobin? {
      IdleMeansNoWork(r, Tick(r.m));
    }
  }

  /** The same processes, added at the same times, in two machines. */
  ghost predicate SameLoad(r: Recorded, s: Recorded) {
    && Inv(r) && Inv(s) && r.m.now == s.m.now && r.added == s.added
    && forall i :: 0 <= i < |r.added| ==>
         r.m.tasks[i].pcb.burst == s.m.tasks[i].pcb.burst && r.m.tasks[i].pcb.arrival == s.m.tasks[i].pcb.arrival
  }

  lemma SameArriving(r: Recorded, s: Recorded)
    requires SameLoad(r, s)
    ensures Arriving(r.m) == Arriving(s.m)
    ensures forall i :: 0 <= i < |r.added| ==> (r.m.tasks[i].pcb.state.New? <==> s.m.tasks[i].pcb.state.New?)
  {
    forall i | 0 <= i < |r.added|
      ensures Arrivings(r.m)[i] == Arrivings(s.m)[i]
      ensures r.m.tasks[i].pcb.state.New? <==> s.m.tasks[i].pcb.state.New?
    {
      assert TaskInv(r.m.tasks[i], r.added[i], r.m.now) && TaskInv(s.m.tasks[i], s.added[i], s.m.now);
    }
    assert Arrivings(r.m) == Arrivings(s.m);
  }

  function AdmittedOf(t: Task): int {
    if t.pcb.state.New? then 0 else t.pcb.burst
  }

  function Admitteds(m: Machine): (w: seq<int>)
    ensures |w| == |m.tasks|
  {
    seq(|m.tasks|, i requires 0 <= i < |m.tasks| => AdmittedOf(m.tasks[i]))
  }

  /** CPU time spent and work left make up the bursts admitted so far. */
  lemma CpuTimeIsAdmittedMinusWork(r: Recorded)
    requires Inv(r)
    ensures r.m.cpuTotal + Work(r.m) == Sum(Admitteds(r.m))
  {
    forall i | 0 <= i < |r.added|
      ensures Admitteds(r.m)[i] == AllUsed(r.m.tasks)[i] + Works(r.m)[i]
    {
      assert TaskInv(r.m.tasks[i], r.added[i], r.m.now);
    }
    SumAdd(Admitteds(r.m), AllUsed(r.m.tasks), Works(r.m));
  }

  /** The simulation is over exactly when nothing is still to come and no work is left. */
  lemma CompletedIffNoWork(r: Recorded)
    requires Inv(r)
    ensures AllCompleted(r.m) <==>
              r.m.tasks != [] && Work(r.m) == 0 && forall i :: 0 <= i < |r.added| ==> !r.m.tasks[i].pcb.state.New?
  {
    WorkNonNegative(r);
    forall i | 0 <= i < |r.added|
      ensures r.m.tasks[i].pcb.state.Terminated? <==> (Works(r.m)[i] == 0 && !r.m.tasks[i].pcb.state.New?)
    {
      assert TaskInv(r.m.tasks[i], r.added[i], r.m.now);
    }
    if AllCompleted(r.m) { AllZero(Works(r.m)); }
  }

  predicate NoSwitch(es: seq<Event>) {
    forall e :: e in es ==> !e.Switch?
  }

  /** Without switches the invariant and the policy survive, and a process keeps its parameters. */
  lemma {:induction false} NoSwitchFrom(r: Recorded, es: seq<Event>)
    requires Inv(r) && NoSwitch(es)
    ensures SwitchesWhenIdle(r, es) && Inv(Play(r, es))
    ensures Play(r, es).m.algo == r.m.algo && Play(r, es).m.quantum == r.m.quantum
    ensures |Play(r, es).m.tasks| >= |r.m.tasks| == |r.added|
    ensures forall i :: 0 <= i < |r.m.tasks| ==> SameParameters(Play(r, es).m.tasks[i].pcb, r.m.tasks[i].pcb)
  {
    hide Inv, Tick, Follows, SameParameters;
    InvLinked(r);
    if es == [] {
      SameAsItself(r.m);
    } else {
      var front, last := es[..|es| - 1], es[|es| - 1];
      assert last in es;
      NoSwitchFrom(r, front);
      var s := Play(r, front);
      if last.Step? {
        InvStep(s);
        StepKeepsAll(s, Tick(s.m), r.m);
      } else {
        InvAdd(s, last.config);
      }
    }
  }

  lemma SameAsItself(m: Machine)
    ensures forall i :: 0 <= i < |m.tasks| ==> SameParameters(m.tasks[i].pcb, m.tasks[i].pcb)
  {
  }

  lemma StepKeepsAll(s: Recorded, n: Machine, m: Machine)
    requires Inv(s) && Follows(s.m, n) && |m.tasks| <= |s.m.tasks|
    requires forall i :: 0 <= i < |m.tasks| ==> SameParameters(s.m.tasks[i].pcb, m.tasks[i].pcb)
    ensures n.algo == s.m.algo && n.quantum == s.m.quantum && |n.tasks| == |s.m.tasks|
    ensures forall i :: 0 <= i < |m.tasks| ==> SameParameters(n.tasks[i].pcb, m.tasks[i].pcb)
  {
    forall i | 0 <= i < |m.tasks| ensures SameParameters(n.tasks[i].pcb, s.m.tasks[i].pcb) {
      StepKeepsParameters(s.m, i);
      hide Stepped;
    }
  }

  lemma NoSwitchKeepsPolicy(algo: SchedulingAlgorithm, quantum: int, es: seq<Event>)
    requires NoSwitch(es)
    ensures SwitchesWhenIdle(Begin(algo, quantum), es)
    ensures Inv(Play(Begin(algo, quantum), es))
    ensures Play(Begin(algo, quantum), es).m.algo == algo && Play(Begin(algo, quantum), es).m.quantum == quantum
  {
    BeginInv(algo, quantum);
    NoSwitchFrom(Begin(algo, quantum), es);
  }

  lemma SameLoadStep(r: Recorded, s: Recorded)
    requires SameLoad(r, s)
    ensures SameLoad(Apply(r, Step), Apply(s, Step))
  {
    InvStep(r);
    InvStep(s);
    SameLoadFollows(r, s, Tick(r.m), Tick(s.m));
  }

  lemma SameLoadFollows(r: Recorded, s: Recorded, n: Machine, o: Machine)
    requires SameLoad(r, s) && Follows(r.m, n) && Follows(s.m, o) && Inv(r.(m := n)) && Inv(s.(m := o))
    ensures SameLoad(r.(m := n), s.(m := o))
  {
    forall i | 0 <= i < |r.added|
      ensures n.tasks[i].pcb.burst == o.tasks[i].pcb.burst && n.tasks[i].pcb.arrival == o.tasks[i].pcb.arrival
    {
      StepKeepsParameters(r.m, i);
      StepKeepsParameters(s.m, i);
    }
  }

  lemma AddKeepsWork(r: Recorded, c: ProcessConfig)
    ensures Work(Apply(r, Add(c)).m) == Work(r.m)
  {
    if AcceptsParameters(c.priority, c.burst, c.arrival) {
      assert Works(Apply(r, Add(c)).m) == Works(r.m) + [0];
      SumAppend(Works(r.m), 0);
    }
  }

  /** How two runs on the same calls compare when the first never uses Round Robin. */
  ghost predicate Ahead(r: Recorded, s: Recorded) {
    && SameLoad(r, s)
    && Work(r.m) <= Work(s.m)
    && (!s.m.algo.RoundRobin? ==> Work(r.m) == Work(s.m))
  }

  lemma NothingAhead(r: Recorded, s: Recorded)
    requires Inv(r) && Inv(s) && r.m.tasks == [] && s.m.tasks == [] && r.m.now == s.m.now
    ensures Ahead(r, s)
  {
  }

  lemma AheadStep(r: Recorded, s: Recorded)
    requires Ahead(r, s) && !r.m.algo.RoundRobin?
    ensures Ahead(Apply(r, Step), Apply(s, Step))
  {
    hide Tick, Inv, Work, Arriving;
    InvStep(s);
    SameLoadStep(r, s);
    SameArriving(r, s);
    WorkRecurrence(r);
    WorkRecurrence(s);
    hide SameLoad;
  }

  lemma AheadAdd(r: Recorded, s: Recorded, c: ProcessConfig)
    requires Ahead(r, s)
    ensures Ahead(Apply(r, Add(c)), Apply(s, Add(c)))
  {
    hide Inv, Work;
    InvAdd(r, c);
    InvAdd(s, c);
    AddKeepsWork(r, c);
    AddKeepsWork(s, c);
    InvLinked(r);
    InvLinked(s);
  }

  lemma {:induction false} RunsCompare(a: SchedulingAlgorithm, qa: int, b: SchedulingAlgorithm, qb: int, es: seq<Event>)
    requires NoSwitch(es) && !a.RoundRobin?
    ensures Ahead(Play(Begin(a, qa), es), Play(Begin(b, qb), es))
  {
    hide Tick, Inv;
    NoSwitchKeepsPolicy(a, qa, es);
    NoSwitchKeepsPolicy(b, qb, es);
    if es == [] {
      NothingAhead(Begin(a, qa), Begin(b, qb));
    } else {
      var front, last := es[..|es| - 1], es[|es| - 1];
      assert last in es;
      RunsCompare(a, qa, b, qb, front);
      NoSwitchKeepsPolicy(a, qa, front);
      NoSwitchKeepsPolicy(b, qb, front);
      var r, s := Play(Begin(a, qa), front), Play(Begin(b, qb), front);
      match last
      case Step => AheadStep(r, s);
      case Add(c) => AheadAdd(r, s, c);
      case Switch(_, _) => assert false;
    }
  }

  /**
   Policy independence. On the same calls, FCFS and Priority have the same work left, the same
   CPU time and the same finish after every call.
  */
  lemma PolicyIndependence(a: SchedulingAlgorithm, qa: int, b: SchedulingAlgorithm, qb: int, es: seq<Event>)
    requires NoSwitch(es) && !a.RoundRobin? && !b.RoundRobin?
    ensures var r, s := Play(Begin(a, qa), es).m, Play(Begin(b, qb), es).m;
            Work(r) == Work(s) && r.cpuTotal == s.cpuTotal && (AllCompleted(r) <==> AllCompleted(s))
  {
    RunsCompare(a, qa, b, qb, es);
    NoSwitchKeepsPolicy(b, qb, es);
    CompareConsequences(Play(Begin(a, qa), es), Play(Begin(b, qb), es));
  }

  lemma CompareConsequences(r: Recorded, s: Recorded)
    requires Ahead(r, s)
    ensures r.m.cpuTotal - s.m.cpuTotal == Work(s.m) - Work(r.m)
    ensures AllCompleted(s.m) ==> AllCompleted(r.m)
    ensures Work(r.m) == Work(s.m) ==> (AllCompleted(s.m) <==> AllCompleted(r.m))
  {
    SameArriving(r, s);
    CpuTimeIsAdmittedMinusWork(r);
    CpuTimeIsAdmittedMinusWork(s);
    assert Admitteds(r.m) == Admitteds(s.m);
    CompletedIffNoWork(r);
    CompletedIffNoWork(s);
    WorkNonNegative(r);
  }

  /** Round Robin never has less work left, more CPU time or an earlier finish than FCFS or Priority. */
  lemma RoundRobinNeverAhead(a: SchedulingAlgorithm, qa: int, quantum: int, es: seq<Event>)
    requires NoSwitch(es) && !a.RoundRobin?
    ensures var r, s := Play(Begin(a, qa), es).m, Play(Begin(RoundRobin, quantum), es).m;
            Work(r) <= Work(s) && r.cpuTotal >= s.cpuTotal && (AllCompleted(s) ==> AllCompleted(r))
  {
    RunsCompare(a, qa, RoundRobin, quantum, es);
    CompareConsequences(Play(Begin(a, qa), es), Play(Begin(RoundRobin, quantum), es));
  }
}
