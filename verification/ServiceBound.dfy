/**
 How long a process waits under FCFS and Priority. A process that is READY is held up by at
 most one process it precedes, the one found running, and after that only by processes that
 precede it.
*/
module ServiceBound {
  import opened KernelTypes
  import opened Scheduling
  import opened TickModel
  import opened TickSteps
  import opened TickInvariant
  import opened Termination
  import opened Workload
  import opened Sums

  /** Task j is served before task i when both are READY. */
  predicate Before(m: Machine, j: int, i: int)
    requires 0 <= i < |m.tasks| && 0 <= j < |m.tasks|
  {
    Precedes(m.algo, m.tasks[j].pcb, m.tasks[i].pcb)
  }

  function UsedBefore(m: Machine, i: int): (u: seq<int>)
    requires 0 <= i < |m.tasks|
    ensures |u| == |m.tasks|
  {
    seq(|m.tasks|, j requires 0 <= j < |m.tasks| => if Before(m, j, i) then Used(m.tasks[j]) else 0)
  }

  function BurstsBefore(m: Machine, i: int): (u: seq<int>)
    requires 0 <= i < |m.tasks|
    ensures |u| == |m.tasks|
  {
    seq(|m.tasks|, j requires 0 <= j < |m.tasks| => if Before(m, j, i) then m.tasks[j].pcb.burst else 0)
  }

  /** What one process that i precedes can still run once it has started. */
  function BlocksAfter(m: Machine, i: int): (u: seq<int>)
    requires 0 <= i < |m.tasks|
    ensures |u| == |m.tasks|
  {
    seq(|m.tasks|, j requires 0 <= j < |m.tasks| => if Before(m, i, j) then m.tasks[j].pcb.burst - 1 else 0)
  }

  function Largest(s: seq<int>): (x: int)
    ensures x >= 0 && forall k :: 0 <= k < |s| ==> s[k] <= x
    ensures x == 0 || x in s
  {
    if s == [] then 0 else
      var x := Largest(s[..|s| - 1]);
      assert forall k :: 0 <= k < |s| - 1 ==> s[k] == s[..|s| - 1][k];
      Max(x, s[|s| - 1])
  }

  /** The longest remainder of one later process, plus the bursts of all earlier ones. */
  function WaitBound(m: Machine, i: int): int
    requires 0 <= i < |m.tasks|
  {
    Largest(BlocksAfter(m, i)) + Sum(BurstsBefore(m, i))
  }

  /** A process the waiting one precedes is running. */
  predicate Blocked(m: Machine, i: int)
    requires 0 <= i < |m.tasks|
  {
    HasTask(m, m.running) && Before(m, i, m.running - 1)
  }

  /** The ticks since admission of a READY process, and what bounds them. */
  function Waited(r: Recorded, i: int): int
    requires |r.added| == |r.m.tasks| && 0 <= i < |r.added|
  {
    r.m.now + 1 - Admission(r.m.tasks[i], r.added[i])
  }

  function ReadyAllowance(m: Machine, i: int): int
    requires 0 <= i < |m.tasks|
  {
    Sum(UsedBefore(m, i)) + (if Blocked(m, i) then Used(m.tasks[m.running - 1]) - 1 else Largest(BlocksAfter(m, i)))
  }

  /** The bound in flight, for one task. */
  ghost predicate BoundInv(r: Recorded, i: int)
    requires |r.added| == |r.m.tasks| && 0 <= i < |r.added|
  {
    var m, t := r.m, r.m.tasks[i];
    && (t.pcb.state.Ready? ==>
         Used(t) == 0 && t.track.Active? && t.track.info.totalWait == 0 && Waited(r, i) <= ReadyAllowance(m, i))
    && (t.pcb.state.Running? && t.track.Active? ==> t.track.info.totalWait <= WaitBound(m, i))
    && (t.track.Done? ==> t.track.metrics.waiting <= WaitBound(m, i))
  }

  ghost predicate AllBounded(r: Recorded) {
    Inv(r) && !r.m.algo.RoundRobin? && forall i :: 0 <= i < |r.added| ==> BoundInv(r, i)
  }

  /** The order of service and the bound depend only on parameters that never change. */
  lemma BeforeFollows(r: Recorded, n: Machine)
    requires Inv(r) && Follows(r.m, n)
    ensures forall i, j :: 0 <= i < |r.added| && 0 <= j < |r.added| ==> Before(n, j, i) == Before(r.m, j, i)
    ensures forall i :: 0 <= i < |r.added| ==>
              BurstsBefore(n, i) == BurstsBefore(r.m, i) && BlocksAfter(n, i) == BlocksAfter(r.m, i)
  {
    hide Stepped, Runner;
    forall i | 0 <= i < |r.added| ensures SameParameters(n.tasks[i].pcb, r.m.tasks[i].pcb) {
      StepKeepsParameters(r.m, i);
    }
    hide Inv, Linked, Follows;
  }

  /** Only the runner adds to the time used before i. */
  lemma UsedBeforeFollows(r: Recorded, n: Machine, i: int)
    requires Inv(r) && Follows(r.m, n) && 0 <= i < |r.added|
    ensures Runner(r.m) == -1 || HasTask(r.m, Runner(r.m))
    ensures Sum(UsedBefore(n, i)) ==
              Sum(UsedBefore(r.m, i)) + (if Runner(r.m) != -1 && Before(r.m, Runner(r.m) - 1, i) then 1 else 0)
  {
    BeforeFollows(r, n);
    var k := if Runner(r.m) != -1 && Before(r.m, Runner(r.m) - 1, i) then Runner(r.m) - 1 else -1;
    var one := Unit(|n.tasks|, k);
    forall j | 0 <= j < |n.tasks| ensures UsedBefore(n, i)[j] == UsedBefore(r.m, i)[j] + one[j] {
      StepUsesOne(r, j);
      hide Stepped, Runner;
    }
    SumAdd(UsedBefore(n, i), UsedBefore(r.m, i), one);
    SumUnit(|n.tasks|, k);
  }

  lemma UsedBeforeBound(r: Recorded, i: int)
    requires Inv(r) && 0 <= i < |r.added|
    ensures 0 <= Sum(UsedBefore(r.m, i)) <= Sum(BurstsBefore(r.m, i))
    ensures forall j :: 0 <= j < |r.added| && Before(r.m, j, i) ==> Used(r.m.tasks[j]) <= Sum(UsedBefore(r.m, i))
  {
    var u := UsedBefore(r.m, i);
    forall j | 0 <= j < |r.added|
      ensures 0 <= u[j] <= BurstsBefore(r.m, i)[j]
      ensures Before(r.m, j, i) ==> u[j] == Used(r.m.tasks[j])
    {
      assert TaskInv(r.m.tasks[j], r.added[j], r.m.now);
    }
    SumMonotone(u, BurstsBefore(r.m, i));
    SumNonNegative(u);
    forall j | 0 <= j < |r.added| && Before(r.m, j, i) ensures Used(r.m.tasks[j]) <= Sum(u) {
      assert u[j] <= Sum(u);
    }
  }

  /** A process that stays READY sees another process run. */
  lemma ReadySeesRunner(m: Machine, i: int)
    requires Linked(m) && !m.algo.RoundRobin? && 0 <= i < |m.tasks|
    requires Stepped(m, i).pcb.state.Ready?
    ensures RoleOf(m, i).Bystander? && Admit(m.tasks[i], m.now + 1).pcb.state.Ready?
    ensures HasTask(m, Runner(m)) && Runner(m) != i + 1
    ensures m.running == -1 ==> Runner(m) == Picked(m) && Before(m, Picked(m) - 1, i)
    ensures m.running != -1 ==> Runner(m) == m.running
  {
    SteppedByRole(m, i);
    ArrivedTask(m, i);
    if Runner(m) == -1 { IdleMeansNoneReady(m); }
    if m.running == -1 { PickedPrecedes(m, i); }
    hide Picked;
  }

  /** A running process that i precedes had started earlier, and can only use up its burst. */
  lemma BlockerUses(r: Recorded, n: Machine, i: int)
    requires Inv(r) && Follows(r.m, n) && Linked(n) && !r.m.algo.RoundRobin? && 0 <= i < |r.added|
    requires HasTask(r.m, r.m.running)
    ensures var k := r.m.running - 1;
            && Runner(r.m) == r.m.running
            && Used(n.tasks[k]) == Used(r.m.tasks[k]) + 1 && Used(r.m.tasks[k]) >= 1
            && n.running == (if Used(n.tasks[k]) == r.m.tasks[k].pcb.burst then -1 else r.m.running)
            && (Before(r.m, i, k) ==> r.m.tasks[k].pcb.burst - 1 <= Largest(BlocksAfter(r.m, i)))
  {
    var k := r.m.running - 1;
    assert TaskInv(r.m.tasks[k], r.added[k], r.m.now);
    SteppedByRole(r.m, k);
    NoPickWhileRunning(r.m);
    hide Picked;
    if Before(r.m, i, k) {
      assert BlocksAfter(r.m, i)[k] == r.m.tasks[k].pcb.burst - 1;
    }
  }

  lemma BeforeIsStrict(m: Machine, i: int, j: int)
    requires Linked(m) && 0 <= i < |m.tasks| && 0 <= j < |m.tasks|
    ensures Before(m, i, j) ==> !Before(m, j, i)
    ensures i != j ==> Before(m, i, j) || Before(m, j, i)
  {
  }

  /** A process READY at the end of a step was READY for one tick less before, or has just been admitted. */
  lemma WaitedGrows(r: Recorded, n: Machine, i: int)
    requires AllBounded(r) && Follows(r.m, n) && 0 <= i < |r.added| && n.tasks[i].pcb.state.Ready?
    ensures Waited(r.(m := n), i) == 1
            || (Waited(r.(m := n), i) == Waited(r, i) + 1 && Waited(r, i) <= ReadyAllowance(r.m, i))
  {
    ReadySeesRunner(r.m, i);
    SteppedByRole(r.m, i);
    assert TaskInv(r.m.tasks[i], r.added[i], r.m.now) && BoundInv(r, i);
    hide Picked, Runner, UsedBefore, BlocksAfter, Largest, Before, Stepped, Blocked;
  }

  lemma SumsAfter(r: Recorded, n: Machine, i: int)
    requires Inv(r) && Follows(r.m, n) && 0 <= i < |r.added|
    requires HasTask(r.m, Runner(r.m))
    ensures Sum(UsedBefore(n, i)) == Sum(UsedBefore(r.m, i)) + (if Before(r.m, Runner(r.m) - 1, i) then 1 else 0)
    ensures Largest(BlocksAfter(n, i)) == Largest(BlocksAfter(r.m, i))
    ensures Sum(UsedBefore(r.m, i)) >= 0
  {
    UsedBeforeFollows(r, n, i);
    BeforeFollows(r, n);
    UsedBeforeBound(r, i);
    hide Runner, UsedBefore, BlocksAfter, Before, Stepped;
  }

  lemma BlockedAfter(r: Recorded, n: Machine, i: int)
    requires Inv(r) && Follows(r.m, n) && 0 <= i < |r.added|
    requires HasTask(r.m, Runner(r.m)) && Runner(r.m) != i + 1
    ensures Blocked(n, i) ==> n.running == Runner(r.m) && !Before(r.m, Runner(r.m) - 1, i)
    ensures n.running != -1 && !Before(r.m, Runner(r.m) - 1, i) ==> Blocked(n, i)
  {
    hide Inv, Linked, Runner, Before, Stepped, BurstsBefore, BlocksAfter;
    InvLinked(r);
    BeforeFollows(r, n);
    BeforeIsStrict(r.m, i, Runner(r.m) - 1);
  }

  /** No process was running: the one dispatched precedes i. */
  lemma AllowanceAfterDispatch(r: Recorded, n: Machine, i: int)
    requires AllBounded(r) && Follows(r.m, n) && Linked(n) && 0 <= i < |r.added| && n.tasks[i].pcb.state.Ready?
    requires r.m.running == -1
    ensures ReadyAllowance(n, i) == ReadyAllowance(r.m, i) + 1 && ReadyAllowance(r.m, i) >= 0
  {
    hide Picked, Runner, UsedBefore, BlocksAfter, Before, Largest, Sum;
    ReadySeesRunner(r.m, i);
    SumsAfter(r, n, i);
    BlockedAfter(r, n, i);
    assert !Blocked(r.m, i) && !Blocked(n, i);
  }

  /** A process was running: it goes on, and if i precedes it, it pays from its own burst. */
  lemma AllowanceWhileRunning(r: Recorded, n: Machine, i: int)
    requires AllBounded(r) && Follows(r.m, n) && Linked(n) && 0 <= i < |r.added| && n.tasks[i].pcb.state.Ready?
    requires HasTask(r.m, r.m.running)
    ensures ReadyAllowance(n, i) >= ReadyAllowance(r.m, i) + 1 && ReadyAllowance(r.m, i) >= 0
  {
    hide Picked, Runner, UsedBefore, BlocksAfter, Before, Largest, Sum, Used;
    ReadySeesRunner(r.m, i);
    SumsAfter(r, n, i);
    BlockedAfter(r, n, i);
    BlockerUses(r, n, i);
    BeforeIsStrict(r.m, i, r.m.running - 1);
    assert Blocked(r.m, i) <==> !Before(r.m, r.m.running - 1, i);
  }

  /** The READY part of the bound, for a process that is READY at the end of the step. */
  lemma ReadyBound(r: Recorded, n: Machine, i: int)
    requires AllBounded(r) && Follows(r.m, n) && Linked(n) && 0 <= i < |r.added| && n.tasks[i].pcb.state.Ready?
    ensures Waited(r.(m := n), i) <= ReadyAllowance(n, i)
  {
    WaitedGrows(r, n, i);
    if r.m.running == -1 { AllowanceAfterDispatch(r, n, i); } else { AllowanceWhileRunning(r, n, i); }
    hide Waited, ReadyAllowance;
  }

  /** A step fixes the wait of a dispatched process and leaves that of every other one alone. */
  lemma BoundByRole(role: Role, t: Task, added: int, now: int, allowance: int, bound: int)
    requires TaskInv(t, added, now - 1) && !role.Demoted? && bound >= 0
    requires role.Bystander? ==> !t.pcb.state.Running?
    requires role.Continues? ==> t.pcb.state.Running?
    requires role.Dispatched? ==> Admit(t, now).pcb.state.Ready? && allowance <= bound
    requires t.pcb.state.Ready? ==>
               Used(t) == 0 && t.track.Active? && t.track.info.totalWait == 0 && now - Admission(t, added) <= allowance
    requires t.pcb.state.Running? && t.track.Active? ==> t.track.info.totalWait <= bound
    requires t.track.Done? ==> t.track.metrics.waiting <= bound
    ensures var n := StepAs(role, t, now);
            && (n.pcb.state.Running? && n.track.Active? ==> n.track.info.totalWait <= bound)
            && (n.track.Done? ==> n.track.metrics.waiting <= bound)
            && (n.pcb.state.Ready? ==> Used(n) == 0 && n.track.Active? && n.track.info.totalWait == 0)
  {
  }

  /** With no process running, nothing blocks, and the allowance is within the bound. */
  lemma AllowanceWithinBound(r: Recorded, i: int)
    requires Inv(r) && 0 <= i < |r.added|
    ensures WaitBound(r.m, i) >= 0
    ensures r.m.running == -1 ==> ReadyAllowance(r.m, i) <= WaitBound(r.m, i)
  {
    UsedBeforeBound(r, i);
    hide UsedBefore, BurstsBefore, BlocksAfter, Largest, Before;
  }

  lemma BoundAfter(r: Recorded, n: Machine, i: int)
    requires Inv(r) && Follows(r.m, n) && 0 <= i < |r.added|
    ensures WaitBound(n, i) == WaitBound(r.m, i)
  {
    BeforeFollows(r, n);
    hide BurstsBefore, BlocksAfter, Largest, Before, Stepped;
  }

  lemma RoleWithoutQuantum(m: Machine, i: int)
    requires Linked(m) && !m.algo.RoundRobin? && 0 <= i < |m.tasks|
    ensures !RoleOf(m, i).Demoted? && (RoleOf(m, i).Dispatched? ==> m.running == -1)
  {
    SteppedByRole(m, i);
    NoPickWhileRunning(m);
    hide Picked, Stepped;
  }

  /** A dispatch happens only when the READY wait is within the bound; afterwards the wait is fixed. */
  lemma StartedBound(r: Recorded, n: Machine, i: int)
    requires AllBounded(r) && Follows(r.m, n) && 0 <= i < |r.added|
    ensures n.tasks[i].pcb.state.Running? && n.tasks[i].track.Active? ==> n.tasks[i].track.info.totalWait <= WaitBound(n, i)
    ensures n.tasks[i].track.Done? ==> n.tasks[i].track.metrics.waiting <= WaitBound(n, i)
    ensures n.tasks[i].pcb.state.Ready? ==>
              Used(n.tasks[i]) == 0 && n.tasks[i].track.Active? && n.tasks[i].track.info.totalWait == 0
  {
    hide Inv, Linked, TaskInv, RoleOf, StepAs, Stepped, Picked, Runner, ReadyAllowance, WaitBound, Admission;
    InvLinked(r);
    TaskOfInv(r, i);
    BoundAfter(r, n, i);
    AllowanceWithinBound(r, i);
    RoleWithoutQuantum(r.m, i);
    SteppedByRole(r.m, i);
    assert BoundInv(r, i);
    BoundByRole(RoleOf(r.m, i), r.m.tasks[i], r.added[i], n.now, ReadyAllowance(r.m, i), WaitBound(r.m, i));
  }

  lemma BoundStep(r: Recorded)
    requires AllBounded(r)
    ensures AllBounded(Apply(r, Step))
  {
    InvStep(r);
    hide Tick;
    forall i | 0 <= i < |r.added| ensures BoundInv(Apply(r, Step), i) {
      StartedBound(r, Tick(r.m), i);
      if Tick(r.m).tasks[i].pcb.state.Ready? { ReadyBound(r, Tick(r.m), i); }
    }
  }

  lemma LargestPrefix(s: seq<int>, x: int)
    ensures Largest(s + [x]) >= Largest(s)
  {
    assert (s + [x])[..|s|] == s;
  }

  /** A task appended to the table does not change how the others compare. */
  lemma AppendedTables(m: Machine, n: Machine, i: int)
    requires |n.tasks| == |m.tasks| + 1 && n.algo == m.algo && 0 <= i < |m.tasks|
    requires forall j :: 0 <= j < |m.tasks| ==> n.tasks[j] == m.tasks[j]
    ensures UsedBefore(n, i) == UsedBefore(m, i) + [UsedBefore(n, i)[|m.tasks|]]
    ensures BurstsBefore(n, i) == BurstsBefore(m, i) + [BurstsBefore(n, i)[|m.tasks|]]
    ensures BlocksAfter(n, i) == BlocksAfter(m, i) + [BlocksAfter(n, i)[|m.tasks|]]
  {
    forall j | 0 <= j < |m.tasks| ensures Before(n, j, i) == Before(m, j, i) && Before(n, i, j) == Before(m, i, j) {
    }
    hide Before, Used;
  }

  /** A process added later can only raise the bound of the others. */
  lemma AddRaisesBound(r: Recorded, c: ProcessConfig, i: int)
    requires Inv(r) && 0 <= i < |r.added| && AcceptsParameters(c.priority, c.burst, c.arrival)
    ensures var n := AddTask(r.m, c);
            && Sum(UsedBefore(n, i)) == Sum(UsedBefore(r.m, i))
            && Largest(BlocksAfter(n, i)) >= Largest(BlocksAfter(r.m, i))
            && Blocked(n, i) == Blocked(r.m, i)
            && WaitBound(n, i) >= WaitBound(r.m, i)
  {
    var n, last := AddTask(r.m, c), |r.added|;
    InvLinked(r);
    assert forall j :: 0 <= j < last ==> n.tasks[j] == r.m.tasks[j];
    AddedUnused(n, i, last);
    hide Precedes, Before, Inv, Linked, NewPcb, NewTracking, UsedBefore, BurstsBefore, BlocksAfter, Largest;
    AppendedTables(r.m, n, i);
    SumAppend(UsedBefore(r.m, i), UsedBefore(n, i)[last]);
    SumAppend(BurstsBefore(r.m, i), BurstsBefore(n, i)[last]);
    LargestPrefix(BlocksAfter(r.m, i), BlocksAfter(n, i)[last]);
    BlockedAppended(r.m, n, i);
  }

  lemma AddedUnused(n: Machine, i: int, last: int)
    requires 0 <= i < |n.tasks| && 0 <= last < |n.tasks|
    requires n.tasks[last].pcb.remaining == n.tasks[last].pcb.burst >= 0
    ensures UsedBefore(n, i)[last] == 0 && BurstsBefore(n, i)[last] >= 0
  {
  }

  lemma BlockedAppended(m: Machine, n: Machine, i: int)
    requires |n.tasks| == |m.tasks| + 1 && n.algo == m.algo && n.running == m.running && 0 <= i < |m.tasks|
    requires m.running == -1 || HasTask(m, m.running)
    requires forall j :: 0 <= j < |m.tasks| ==> n.tasks[j] == m.tasks[j]
    ensures Blocked(n, i) == Blocked(m, i)
  {
  }

  lemma BoundAdd(r: Recorded, c: ProcessConfig)
    requires AllBounded(r)
    ensures AllBounded(Apply(r, Add(c)))
  {
    InvAdd(r, c);
    if AcceptsParameters(c.priority, c.burst, c.arrival) {
      forall i | 0 <= i < |r.added| ensures BoundInv(Apply(r, Add(c)), i) {
        AddRaisesBound(r, c, i);
        assert BoundInv(r, i);
        hide UsedBefore, WaitBound, BlocksAfter, Largest, Blocked;
      }
    }
  }

  lemma {:induction false} AlwaysBounded(algo: SchedulingAlgorithm, quantum: int, es: seq<Event>)
    requires NoSwitch(es) && !algo.RoundRobin?
    ensures AllBounded(Play(Begin(algo, quantum), es))
  {
    hide Tick;
    if es != [] {
      hide AllBounded;
      var front, last := es[..|es| - 1], es[|es| - 1];
      assert last in es;
      AlwaysBounded(algo, quantum, front);
      var r := Play(Begin(algo, quantum), front);
      match last
      case Step => BoundStep(r);
      case Add(c) => BoundAdd(r, c);
      case Switch(_, _) => assert false;
    }
  }

  /**
   The waiting bound: the recorded waiting time of every completed process is at most the
   longest b - 1 among the processes it precedes plus the bursts of those that precede it.
  */
  lemma WaitingIsBounded(algo: SchedulingAlgorithm, quantum: int, es: seq<Event>, i: int)
    requires NoSwitch(es) && !algo.RoundRobin?
    requires IsCompleted(Play(Begin(algo, quantum), es).m, i)
    ensures var m := Play(Begin(algo, quantum), es).m;
            m.tasks[i].track.Done? && m.tasks[i].track.metrics.waiting <= WaitBound(m, i)
  {
    AlwaysBounded(algo, quantum, es);
    var r := Play(Begin(algo, quantum), es);
    assert TaskInv(r.m.tasks[i], r.added[i], r.m.now) && BoundInv(r, i);
  }

  // One process out of turn.

  ghost predicate WithoutQuantum(r: Recorded) {
    Inv(r) && !r.m.algo.RoundRobin?
  }

  /** The next step leaves the process READY. */
  predicate StaysReady(m: Machine, i: int)
    requires 0 <= i < |m.tasks|
  {
    Stepped(m, i).pcb.state.Ready?
  }

  /** Of the processes that a READY process precedes, the one that runs is the one found running. */
  lemma LaterRunnerWasRunning(r: Recorded, i: int)
    requires WithoutQuantum(r) && 0 <= i < |r.m.tasks| && StaysReady(r.m, i)
    ensures HasTask(r.m, Runner(r.m))
    ensures Before(r.m, i, Runner(r.m) - 1) <==> Blocked(r.m, i)
    ensures Blocked(r.m, i) ==> Runner(r.m) == r.m.running
  {
    hide Inv, Linked, Picked, Runner, Before, Stepped;
    InvLinked(r);
    ReadySeesRunner(r.m, i);
    BeforeIsStrict(r.m, i, Runner(r.m) - 1);
  }

  /** The step leaves process i READY and executes one that i precedes. */
  predicate PassedOver(m: Machine, i: int)
    requires 0 <= i < |m.tasks|
  {
    HasTask(m, Runner(m)) && StaysReady(m, i) && Before(m, i, Runner(m) - 1)
  }

  /**
   Preemption is missing exactly here: a step passes over a process if and only if it is READY
   once the arrivals are in and it precedes the process found running.
  */
  lemma PassedOverIff(r: Recorded, i: int)
    requires WithoutQuantum(r) && 0 <= i < |r.m.tasks|
    ensures PassedOver(r.m, i) <==> Admit(r.m.tasks[i], r.m.now + 1).pcb.state.Ready? && Blocked(r.m, i)
  {
    InvLinked(r);
    hide Inv, Picked, Before;
    if PassedOver(r.m, i) {
      hide Stepped, Runner;
      LaterRunnerWasRunning(r, i);
      ReadySeesRunner(r.m, i);
    }
    if Blocked(r.m, i) {
      BeforeIsStrict(r.m, i, r.m.running - 1);
      NoPickWhileRunning(r.m);
      SteppedByRole(r.m, i);
    }
  }

  /** The process is READY after every call of the list. */
  ghost predicate ReadyThroughout(r: Recorded, es: seq<Event>, i: int) {
    es != [] ==>
      && ReadyThroughout(r, es[..|es| - 1], i)
      && 0 <= i < |Play(r, es).m.tasks| && Play(r, es).m.tasks[i].pcb.state.Ready?
  }

  /** The calls are steps and additions, and leave the process READY throughout. */
  ghost predicate KeptReady(r: Recorded, es: seq<Event>, i: int)
    requires 0 <= i < |r.m.tasks|
  {
    NoSwitch(es) && ReadyThroughout(r, es, i)
  }

  lemma SameOrder(m: Machine, n: Machine, i: int, j: int)
    requires m.algo == n.algo && |m.tasks| <= |n.tasks| && 0 <= i < |m.tasks| && 0 <= j < |m.tasks|
    requires forall k :: 0 <= k < |m.tasks| ==> SameParameters(n.tasks[k].pcb, m.tasks[k].pcb)
    ensures Before(n, i, j) == Before(m, i, j)
  {
  }

  /** A blocked process was blocked by the same process before the step. */
  lemma BlockedBefore(r: Recorded, n: Machine, i: int)
    requires WithoutQuantum(r) && Follows(r.m, n) && 0 <= i < |r.m.tasks|
    requires n.tasks[i].pcb.state.Ready? && Blocked(n, i)
    ensures Blocked(r.m, i) && n.running == r.m.running
  {
    hide Inv, Linked, Picked, Runner, Before, Stepped;
    InvLinked(r);
    LaterRunnerWasRunning(r, i);
    BeforeFollows(r, n);
  }

  /** However long a process stays READY, the process that blocks it is the one that did so at first. */
  lemma {:induction false} BlockerNeverChanges(r: Recorded, es: seq<Event>, i: int)
    requires WithoutQuantum(r) && 0 <= i < |r.m.tasks| && KeptReady(r, es, i)
    ensures i < |Play(r, es).m.tasks|
    ensures Blocked(Play(r, es).m, i) ==> Blocked(r.m, i) && Play(r, es).m.running == r.m.running
  {
    hide Inv, Tick, Blocked, Follows, SameParameters;
    NoSwitchFrom(r, es);
    if es != [] {
      var front, last := es[..|es| - 1], es[|es| - 1];
      assert last in es;
      BlockerNeverChanges(r, front, i);
      NoSwitchFrom(r, front);
      var s := Play(r, front);
      if Blocked(Play(r, es).m, i) {
        if last.Step? {
          InvStep(s);
          BlockedBefore(s, Tick(s.m), i);
        } else if AcceptsParameters(last.config.priority, last.config.burst, last.config.arrival) {
          InvLinked(s);
          AddRaisesBound(s, last.config, i);
        }
      }
    }
  }

  /**
   At most one process that i precedes runs while i is READY, however many steps that lasts and
   whatever is added meanwhile: a step of that time runs such a process exactly when it is the
   process that blocked i at the beginning.
  */
  lemma OneLaterRunner(r: Recorded, es: seq<Event>, i: int)
    requires WithoutQuantum(r) && 0 <= i < |r.m.tasks| && KeptReady(r, es + [Step], i)
    ensures var m := Play(r, es).m;
            && i < |m.tasks| && HasTask(m, Runner(m))
            && (Before(m, i, Runner(m) - 1) <==> Blocked(r.m, i) && Runner(m) == r.m.running)
  {
    hide Inv, Tick, Before, Runner, Stepped;
    assert (es + [Step])[..|es|] == es;
    assert forall e :: e in es ==> e in es + [Step];
    NoSwitchFrom(r, es);
    BlockerNeverChanges(r, es, i);
    var s := Play(r, es);
    InvStep(s);
    LaterRunnerWasRunning(s, i);
    if Blocked(r.m, i) && Runner(s.m) == r.m.running {
      InvLinked(r);
      SameOrder(r.m, s.m, i, r.m.running - 1);
    }
  }

  // The inversion is reached.

  lemma ThreeCalls(r: Recorded, d: Event, e: Event, f: Event)
    ensures Play(r, [d, e, f]) == Apply(Apply(Apply(r, d), e), f)
  {
    hide Apply;
    PlayNext(r, [], d);
    PlayNext(r, [d], e);
    PlayNext(r, [d, e], f);
    assert [] + [d] == [d] && [d] + [e] == [d, e] && [d, e] + [f] == [d, e, f];
  }

  /** A process, started alone, keeps the processor from one with a better priority that comes later. */
  lemma BetterProcessWaits(worse: ProcessConfig, better: ProcessConfig, quantum: int)
    requires AcceptsParameters(worse.priority, worse.burst, worse.arrival)
    requires AcceptsParameters(better.priority, better.burst, better.arrival)
    requires worse.arrival <= 1 && worse.burst > 1 && better.arrival == 2 && better.priority < worse.priority
    ensures var m := Play(Begin(Priority, quantum), [Add(worse), Add(better), Step]).m;
            && |m.tasks| == 2 && m.running == 1 && Runner(m) == 1
            && Before(m, 1, 0) && StaysReady(m, 1)
  {
    hide Tick, Inv;
    var b := Begin(Priority, quantum);
    var s := Apply(Apply(b, Add(worse)), Add(better));
    ThreeCalls(b, Add(worse), Add(better), Step);
    BeginInv(Priority, quantum);
    InvAdd(b, worse);
    InvAdd(Apply(b, Add(worse)), better);
    InvStep(s);
    WorseStarts(s, Tick(s.m));
  }

  lemma WorseStarts(r: Recorded, n: Machine)
    requires Inv(r) && r.m.algo.Priority? && r.m.running == -1 && |r.m.tasks| == 2 && Follows(r.m, n) && Linked(n)
    requires forall i :: 0 <= i < 2 ==> r.m.tasks[i].pcb.state.New?
    requires r.m.tasks[0].pcb.arrival <= r.m.now + 1 && r.m.tasks[0].pcb.remaining > 1
    requires r.m.tasks[1].pcb.arrival == r.m.now + 2 && r.m.tasks[1].pcb.priority < r.m.tasks[0].pcb.priority
    ensures n.running == 1 && Runner(n) == 1 && Before(n, 1, 0) && StaysReady(n, 1)
  {
    hide Picked, Arrived, Stepped, Inv;
    InvLinked(r);
    ArrivedTask(r.m, 0);
    ArrivedTask(r.m, 1);
    NoPickWhileRunning(r.m);
    if Runner(r.m) == -1 { IdleMeansNoneReady(r.m); }
    if Picked(r.m) != -1 { PickedIsReady(r.m); }
    SteppedByRole(r.m, 0);
    SteppedByRole(r.m, 1);
    StepKeepsParameters(r.m, 0);
    StepKeepsParameters(r.m, 1);
    NoPickWhileRunning(n);
    SteppedByRole(n, 1);
  }
}
