/**
 Dispatches and slices. A Round Robin dispatch runs for exactly one slice or to completion, a
 dispatch under the other policies runs to completion, and a process is dispatched exactly as
 often as its burst needs.
*/
module Slicing {
  import opened KernelTypes
  import opened TickModel
  import opened TickSteps
  import opened TickInvariant
  import opened Termination
  import opened Workload

  /** How many time steps of a run dispatched the process at position i. */
  function Dispatches(r: Recorded, es: seq<Event>, i: int): nat {
    if es == [] then 0
    else
      var front := es[..|es| - 1];
      Dispatches(r, front, i) + (if es[|es| - 1].Step? && Picked(Play(r, front).m) == i + 1 then 1 else 0)
  }

  /** The dispatches a task still needs. */
  function DispatchesLeft(m: Machine, t: Task): int {
    if t.pcb.state.Terminated? then 0
    else Requeues(m, t) + (if t.pcb.state.Running? then 0 else 1)
  }

  /** The dispatches a burst needs in all. */
  function DispatchesNeeded(m: Machine, burst: int): int {
    if m.algo.RoundRobin? then Slices(Slice(m.quantum), burst) else 1
  }

  lemma LeftByRole(m: Machine, n: Machine, role: Role, t: Task, added: int)
    requires TaskInv(t, added, m.now) && n.now == m.now + 1 && QuantumByRole(m, n, role, t)
    requires role.Bystander? ==> !t.pcb.state.Running?
    requires role.Demoted? || role.Continues? ==> t.pcb.state.Running?
    requires role.Dispatched? ==> Admit(t, n.now).pcb.state.Ready?
    ensures DispatchesLeft(n, StepAs(role, t, n.now)) == DispatchesLeft(m, t) - (if role.Dispatched? then 1 else 0)
  {
    DebtByRole(m, n, role, t, added);
    hide Requeues;
    RequeuesAtEnd(m, t);
    RequeuesAtEnd(n, StepAs(role, t, n.now));
  }

  lemma RequeuesAtEnd(m: Machine, t: Task)
    ensures t.pcb.remaining <= 0 ==> Requeues(m, t) == 0
  {
  }

  lemma LeftStep(r: Recorded, n: Machine, i: int)
    requires Inv(r) && Follows(r.m, n) && 0 <= i < |r.added|
    ensures DispatchesLeft(n, n.tasks[i]) + (if Picked(r.m) == i + 1 then 1 else 0) == DispatchesLeft(r.m, r.m.tasks[i])
  {
    SteppedByRole(r.m, i);
    QuantumFollows(r.m, n, i);
    NoPickWhileRunning(r.m);
    LeftByRole(r.m, n, RoleOf(r.m, i), r.m.tasks[i], r.added[i]);
    hide DispatchesLeft, StepAs, Stepped, Picked, QuantumByRole;
  }

  /** Dispatches made and dispatches left add up to what the burst needs, after every call. */
  lemma {:induction false} DispatchesAddUp(algo: SchedulingAlgorithm, quantum: int, es: seq<Event>, i: int)
    requires NoSwitch(es)
    requires 0 <= i < |Play(Begin(algo, quantum), es).m.tasks|
    ensures var m := Play(Begin(algo, quantum), es).m;
            Dispatches(Begin(algo, quantum), es, i) + DispatchesLeft(m, m.tasks[i]) == DispatchesNeeded(m, m.tasks[i].pcb.burst)
  {
    hide Tick, DispatchesLeft;
    var front, last := es[..|es| - 1], es[|es| - 1];
    assert last in es;
    var r := Play(Begin(algo, quantum), front);
    NoSwitchKeepsPolicy(algo, quantum, front);
    NoSwitchKeepsPolicy(algo, quantum, es);
    match last
    case Step =>
      InvStep(r);
      DispatchesAddUp(algo, quantum, front, i);
      LeftStep(r, Tick(r.m), i);
      StepParameters(r, Tick(r.m));
    case Add(c) =>
      if i < |r.m.tasks| {
        DispatchesAddUp(algo, quantum, front, i);
        LeftUnchanged(r.m, AddTask(r.m, c), r.m.tasks[i]);
      } else {
        NeverDispatchedBefore(algo, quantum, front, i);
        LeftInitially(AddTask(r.m, c), c);
      }
    case Switch(_, _) => assert false;
  }

  lemma LeftUnchanged(m: Machine, n: Machine, t: Task)
    requires m.algo == n.algo && m.quantum == n.quantum && m.quantumLeft == n.quantumLeft
    ensures DispatchesLeft(m, t) == DispatchesLeft(n, t)
  {
  }

  lemma LeftInitially(m: Machine, c: ProcessConfig)
    requires AcceptsParameters(c.priority, c.burst, c.arrival)
    ensures forall pid :: var p := NewPcb(pid, c.priority, c.burst, c.arrival);
              DispatchesLeft(m, Task(p, Active(NewTracking(p)))) == DispatchesNeeded(m, c.burst)
  {
  }

  lemma {:induction false} NeverDispatchedBefore(algo: SchedulingAlgorithm, quantum: int, es: seq<Event>, i: int)
    requires NoSwitch(es) && i >= |Play(Begin(algo, quantum), es).m.tasks|
    ensures Dispatches(Begin(algo, quantum), es, i) == 0
  {
    hide Tick, Picked;
    if es != [] {
      var front, last := es[..|es| - 1], es[|es| - 1];
      assert last in es;
      var r := Play(Begin(algo, quantum), front);
      NoSwitchKeepsPolicy(algo, quantum, front);
      if last.Step? { InvStep(r); }
      NeverDispatchedBefore(algo, quantum, front, i);
      if Picked(r.m) != -1 { PickedIsReady(r.m); }
    }
  }

  /** A completed process was dispatched once for every slice of its burst, and once without Round Robin. */
  lemma ExactDispatches(algo: SchedulingAlgorithm, quantum: int, es: seq<Event>, i: int)
    requires NoSwitch(es)
    requires IsCompleted(Play(Begin(algo, quantum), es).m, i)
    ensures var burst, d := Play(Begin(algo, quantum), es).m.tasks[i].pcb.burst, Dispatches(Begin(algo, quantum), es, i);
            if algo.RoundRobin? then burst <= d * Slice(quantum) < burst + Slice(quantum) else d == 1
  {
    DispatchesAddUp(algo, quantum, es, i);
    NoSwitchKeepsPolicy(algo, quantum, es);
    var r := Play(Begin(algo, quantum), es);
    assert TaskInv(r.m.tasks[i], r.added[i], r.m.now);
    hide Play, Dispatches, Inv, TaskInv;
    SlicesIsCeiling(Slice(quantum), r.m.tasks[i].pcb.burst);
  }

  /** The length of a dispatch that finds `remaining` units to run. */
  function DispatchLength(m: Machine, remaining: int): int {
    if m.algo.RoundRobin? && Slice(m.quantum) < remaining then Slice(m.quantum) else remaining
  }

  /** The machine inside a dispatch: the same process after j of its units. */
  ghost predicate InDispatch(m: Machine, n: Machine, i: int, j: int) {
    && 0 <= i < |m.tasks| <= |n.tasks|
    && n.algo == m.algo && n.quantum == m.quantum
    && n.tasks[i].pcb.remaining == m.tasks[i].pcb.remaining - j
    && (if n.tasks[i].pcb.remaining == 0 then n.tasks[i].pcb.state.Terminated? && n.running == -1
        else n.running == i + 1 && n.tasks[i].pcb.state.Running? && (m.algo.RoundRobin? ==> n.quantumLeft == m.quantum - j))
  }

  lemma DispatchBegins(r: Recorded, n: Machine)
    requires Inv(r) && Follows(r.m, n) && Linked(n) && Picked(r.m) != -1
    ensures Runner(r.m) == Picked(r.m) && InDispatch(r.m, n, Picked(r.m) - 1, 1)
  {
    PickedIsReady(r.m);
    NoPickWhileRunning(r.m);
    var i := Picked(r.m) - 1;
    SteppedByRole(r.m, i);
    assert TaskInv(r.m.tasks[i], r.added[i], r.m.now);
    hide Picked;
  }

  lemma DispatchContinues(m: Machine, s: Recorded, n: Machine, i: int, j: int)
    requires Inv(s) && Follows(s.m, n) && Linked(n) && InDispatch(m, s.m, i, j)
    requires 1 <= j < DispatchLength(m, m.tasks[i].pcb.remaining)
    ensures Runner(s.m) == i + 1 && InDispatch(m, n, i, j + 1)
  {
    NoPickWhileRunning(s.m);
    assert !Expires(s.m);
    SteppedByRole(s.m, i);
    assert TaskInv(s.m.tasks[i], s.added[i], s.m.now);
    hide Picked;
  }

  lemma DispatchAdd(m: Machine, n: Machine, i: int, j: int, c: ProcessConfig)
    requires InDispatch(m, n, i, j)
    ensures InDispatch(m, AddTask(n, c), i, j)
  {
  }

  /** The number of time steps in a list of calls. */
  function StepCount(es: seq<Event>): nat {
    if es == [] then 0 else StepCount(es[..|es| - 1]) + (if es[|es| - 1].Step? then 1 else 0)
  }

  /** A dispatch seen from its first step, while processes may be added. */
  ghost predicate FromDispatch(r: Recorded, es: seq<Event>) {
    Inv(r) && Picked(r.m) != -1 && NoSwitch(es) && es != [] && es[0].Step?
  }

  /** The dispatch is not longer than its length so far. */
  predicate WithinDispatch(r: Recorded, es: seq<Event>) {
    HasTask(r.m, Picked(r.m)) && StepCount(es) <= DispatchLength(r.m, r.m.tasks[Picked(r.m) - 1].pcb.remaining)
  }

  lemma {:induction false} DispatchProgress(r: Recorded, es: seq<Event>)
    requires FromDispatch(r, es) && WithinDispatch(r, es)
    ensures StepCount(es) >= 1 && InDispatch(r.m, Play(r, es).m, Picked(r.m) - 1, StepCount(es))
    ensures es[|es| - 1].Step? ==> Runner(Play(r, es[..|es| - 1]).m) == Picked(r.m)
  {
    hide Inv, Linked, Follows, Tick, Picked, Runner, InDispatch;
    var front, last := es[..|es| - 1], es[|es| - 1];
    assert last in es;
    if front == [] {
      InvStep(r);
      DispatchBegins(r, Tick(r.m));
    } else {
      assert front[0] == es[0];
      DispatchProgress(r, front);
      NoSwitchFrom(r, front);
      var s := Play(r, front);
      if last.Step? {
        InvStep(s);
        DispatchContinues(r.m, s, Tick(s.m), Picked(r.m) - 1, StepCount(front));
      } else {
        DispatchAdd(r.m, s.m, Picked(r.m) - 1, StepCount(es), last.config);
      }
    }
  }

  /** After the last unit of a dispatch the process has completed, or its quantum has expired. */
  ghost predicate DispatchOver(n: Machine, i: int, completes: bool) {
    && 0 <= i < |n.tasks|
    && (if completes then n.tasks[i].pcb.state.Terminated? else Expires(n) && RoleOf(n, i) == Demoted)
  }

  lemma DispatchEnds(m: Machine, s: Recorded, i: int)
    requires Inv(s) && 0 <= i < |m.tasks| && m.tasks[i].pcb.remaining > 0
    requires InDispatch(m, s.m, i, DispatchLength(m, m.tasks[i].pcb.remaining))
    ensures DispatchOver(s.m, i, DispatchLength(m, m.tasks[i].pcb.remaining) == m.tasks[i].pcb.remaining)
  {
    SteppedByRole(s.m, i);
    hide Picked;
  }

  lemma PickedNeedsTime(r: Recorded)
    requires Inv(r) && Picked(r.m) != -1
    ensures HasTask(r.m, Picked(r.m)) && r.m.tasks[Picked(r.m) - 1].pcb.remaining > 0
  {
    hide Picked, Arrived;
    PickedIsReady(r.m);
    ArrivedTask(r.m, Picked(r.m) - 1);
    assert TaskInv(r.m.tasks[Picked(r.m) - 1], r.added[Picked(r.m) - 1], r.m.now);
  }

  /**
   Exact slicing. Whatever is added meanwhile, a dispatched process runs in the next DispatchLength
   steps without a break; then it has completed, or its quantum has expired and the following
   step puts it back.
  */
  lemma ExactSlice(r: Recorded, es: seq<Event>)
    requires FromDispatch(r, es)
    ensures HasTask(r.m, Picked(r.m))
    ensures var left := r.m.tasks[Picked(r.m) - 1].pcb.remaining;
            var length := DispatchLength(r.m, left);
            && length >= 1
            && (StepCount(es) <= length && es[|es| - 1].Step? ==> Runner(Play(r, es[..|es| - 1]).m) == Picked(r.m))
            && (StepCount(es) == length ==> DispatchOver(Play(r, es).m, Picked(r.m) - 1, length == left))
  {
    hide Inv, Tick, Picked, Runner, DispatchOver, InDispatch;
    PickedNeedsTime(r);
    var left := r.m.tasks[Picked(r.m) - 1].pcb.remaining;
    if StepCount(es) <= DispatchLength(r.m, left) {
      DispatchProgress(r, es);
      NoSwitchFrom(r, es);
      if StepCount(es) == DispatchLength(r.m, left) { DispatchEnds(r.m, Play(r, es), Picked(r.m) - 1); }
    }
  }

  // The same for steps alone.

  function Steps(n: nat): (es: seq<Event>)
    ensures |es| == n
  {
    seq(n, _ => Step)
  }

  lemma {:induction false} TicksArePlay(r: Recorded, n: nat)
    ensures Play(r, Steps(n)) == After(r, n)
    ensures NoSwitch(Steps(n)) && StepCount(Steps(n)) == n
  {
    hide Tick;
    if n > 0 {
      TicksArePlay(r, n - 1);
      assert Steps(n)[..n - 1] == Steps(n - 1);
    }
  }

  lemma SliceInTicks(r: Recorded)
    requires Inv(r) && Picked(r.m) != -1
    ensures HasTask(r.m, Picked(r.m))
    ensures var left := r.m.tasks[Picked(r.m) - 1].pcb.remaining;
            var length := DispatchLength(r.m, left);
            && length >= 1
            && (forall j: nat :: j < length ==> Runner(Ticks(r.m, j)) == Picked(r.m))
            && DispatchOver(Ticks(r.m, length), Picked(r.m) - 1, length == left)
  {
    hide Inv, Tick, Ticks, Picked, Runner, DispatchOver;
    PickedNeedsTime(r);
    var length := DispatchLength(r.m, r.m.tasks[Picked(r.m) - 1].pcb.remaining);
    forall j: nat | j < length ensures Runner(Ticks(r.m, j)) == Picked(r.m) {
      TicksArePlay(r, j);
      TicksArePlay(r, j + 1);
      assert Steps(j + 1)[..j] == Steps(j);
      ExactSlice(r, Steps(j + 1));
    }
    TicksArePlay(r, length);
    ExactSlice(r, Steps(length));
  }

  // Response times.

  /** The time of the first step of a run that dispatched the process at position i. */
  function FirstDispatch(r: Recorded, es: seq<Event>, i: int): Option<int> {
    if es == [] then None
    else
      var front := es[..|es| - 1];
      var before := FirstDispatch(r, front, i);
      if before.Some? then before
      else if es[|es| - 1].Step? && Picked(Play(r, front).m) == i + 1 then Some(Play(r, front).m.now + 1)
      else None
  }

  /** What the collector knows of a process dispatched first at the given time. */
  ghost predicate RespondedAt(t: Task, first: Option<int>) {
    match t.track
    case Active(info) => (info.started <==> first.Some?) && (first.Some? ==> info.firstRun == first.value)
    case Done(c) => first.Some? && c.response == first.value - t.pcb.arrival
  }

  lemma ResponseByRole(role: Role, t: Task, added: int, now: int, first: Option<int>)
    requires TaskInv(t, added, now - 1) && RespondedAt(t, first)
    requires role.Bystander? ==> !t.pcb.state.Running?
    requires role.Demoted? || role.Continues? ==> t.pcb.state.Running?
    requires role.Dispatched? ==> Admit(t, now).pcb.state.Ready?
    ensures RespondedAt(StepAs(role, t, now), if first.None? && role.Dispatched? then Some(now) else first)
  {
  }

  lemma ResponseStep(r: Recorded, n: Machine, i: int, first: Option<int>)
    requires Inv(r) && Follows(r.m, n) && 0 <= i < |r.added| && RespondedAt(r.m.tasks[i], first)
    ensures RespondedAt(n.tasks[i], if first.None? && Picked(r.m) == i + 1 then Some(r.m.now + 1) else first)
  {
    hide Inv, Linked, TaskInv, RespondedAt, StepAs, Stepped, Picked, Admit;
    InvLinked(r);
    TaskOfInv(r, i);
    SteppedByRole(r.m, i);
    NoPickWhileRunning(r.m);
    ResponseByRole(RoleOf(r.m, i), r.m.tasks[i], r.added[i], r.m.now + 1, first);
  }

  lemma {:induction false} NotYetDispatched(algo: SchedulingAlgorithm, quantum: int, es: seq<Event>, i: int)
    requires SwitchesWhenIdle(Begin(algo, quantum), es) && i >= |Play(Begin(algo, quantum), es).m.tasks|
    ensures FirstDispatch(Begin(algo, quantum), es, i) == None
  {
    hide Tick, Picked, Inv, Linked, Follows;
    if es != [] {
      var front := es[..|es| - 1];
      var r := Play(Begin(algo, quantum), front);
      Reachable(algo, quantum, front);
      InvLinked(r);
      if es[|es| - 1].Step? { StepLength(r); }
      NotYetDispatched(algo, quantum, front, i);
      if Picked(r.m) != -1 { PickedIsReady(r.m); }
    }
  }

  lemma StepLength(r: Recorded)
    requires Inv(r)
    ensures |Tick(r.m).tasks| == |r.m.tasks|
  {
    InvStep(r);
    hide Tick, Inv;
  }

  lemma AddedUndispatched(m: Machine, c: ProcessConfig, i: int)
    requires |m.tasks| <= i < |AddTask(m, c).tasks|
    ensures RespondedAt(AddTask(m, c).tasks[i], None)
  {
  }

  /**
   The response time of every process, under every scheduler and with additions and idle switches
   during the run, is the time of its first dispatch minus its arrival; later dispatches of a
   Round Robin process do not change it.
  */
  lemma {:induction false} ResponseIsFirstDispatch(algo: SchedulingAlgorithm, quantum: int, es: seq<Event>, i: int)
    requires SwitchesWhenIdle(Begin(algo, quantum), es) && 0 <= i < |Play(Begin(algo, quantum), es).m.tasks|
    ensures RespondedAt(Play(Begin(algo, quantum), es).m.tasks[i], FirstDispatch(Begin(algo, quantum), es, i))
  {
    hide Tick, Picked, Inv, Linked, Follows, RespondedAt;
    var front := es[..|es| - 1];
    var r := Play(Begin(algo, quantum), front);
    Reachable(algo, quantum, front);
    InvLinked(r);
    match es[|es| - 1]
    case Step =>
      InvStep(r);
      StepLength(r);
      ResponseIsFirstDispatch(algo, quantum, front, i);
      ResponseStep(r, Tick(r.m), i, FirstDispatch(Begin(algo, quantum), front, i));
    case Add(c) =>
      if i < |r.m.tasks| {
        ResponseIsFirstDispatch(algo, quantum, front, i);
      } else {
        NotYetDispatched(algo, quantum, front, i);
        AddedUndispatched(r.m, c, i);
      }
    case Switch(_, _) => ResponseIsFirstDispatch(algo, quantum, front, i);
  }
}
