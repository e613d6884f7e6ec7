/**
 How long a run lasts. The potential of a state is the time its processes still need plus the
 number of times a process will still be put back after an expired quantum; a time step takes
 away exactly what it executes and what it puts back.
*/
module Termination {
  import opened KernelTypes
  import opened TickModel
  import opened TickSteps
  import opened TickInvariant
  import opened Sums

  /** A quantum of zero or less still gives every dispatch one time unit. */
  function Slice(quantum: int): (q: int)
    ensures q >= 1
  {
    Max(1, quantum)
  }

  /** The number of slices of length q that cover r time units. */
  function Slices(q: int, r: int): (n: nat)
    requires q >= 1
    decreases r
  {
    if r <= 0 then 0 else 1 + Slices(q, r - q)
  }

  /** Slices is division rounded up. */
  lemma {:induction false} SlicesIsCeiling(q: int, r: int)
    requires q >= 1 && r >= 0
    ensures r <= Slices(q, r) * q < r + q
    decreases r
  {
    if 0 < r <= q {
      assert Slices(q, r - q) == 0;
    } else if r > q {
      SlicesIsCeiling(q, r - q);
      assert Slices(q, r) * q == Slices(q, r - q) * q + q;
    }
  }

  /** How often a task will still be put back because its quantum expired. */
  function Requeues(m: Machine, t: Task): int {
    if !m.algo.RoundRobin? || t.pcb.remaining <= 0 then 0
    else if t.pcb.state.Running? then Slices(Slice(m.quantum), t.pcb.remaining - Max(0, m.quantumLeft))
    else Slices(Slice(m.quantum), t.pcb.remaining) - 1
  }

  function Debt(m: Machine, t: Task): int {
    t.pcb.remaining + Requeues(m, t)
  }

  function Debts(m: Machine): (d: seq<int>)
    ensures |d| == |m.tasks|
  {
    seq(|m.tasks|, i requires 0 <= i < |m.tasks| => Debt(m, m.tasks[i]))
  }

  function Potential(m: Machine): int {
    Sum(Debts(m))
  }

  /** What a step takes from the debt of one task. */
  function Paid(m: Machine, i: int): int {
    (if Runner(m) == i + 1 then 1 else 0) + (if Expires(m) && m.running == i + 1 then 1 else 0)
  }

  /** What the quantum counter is before and after the step of a task in a given role. */
  ghost predicate QuantumByRole(m: Machine, n: Machine, role: Role, t: Task) {
    && n.algo == m.algo && n.quantum == m.quantum
    && (role.Demoted? ==> m.algo.RoundRobin? && m.quantumLeft <= 0)
    && (m.algo.RoundRobin? && StepAs(role, t, n.now).pcb.state.Running? ==>
         && (role.Dispatched? ==> n.quantumLeft == m.quantum - 1)
         && (role.Continues? ==> m.quantumLeft > 0 && n.quantumLeft == m.quantumLeft - 1))
    && (m.algo.RoundRobin? && role.Continues? ==> m.quantumLeft > 0)
  }

  lemma QuantumFollows(m: Machine, n: Machine, i: int)
    requires Linked(m) && Follows(m, n) && 0 <= i < |m.tasks|
    ensures QuantumByRole(m, n, RoleOf(m, i), m.tasks[i])
  {
    hide Picked, StepAs, TaskStep, Linked, Admit, Moved, RunOne;
    NoPickWhileRunning(m);
    SteppedByRole(m, i);
  }

  lemma DebtByRole(m: Machine, n: Machine, role: Role, t: Task, added: int)
    requires TaskInv(t, added, m.now) && n.now == m.now + 1 && QuantumByRole(m, n, role, t)
    requires role.Bystander? ==> !t.pcb.state.Running?
    requires role.Demoted? || role.Continues? ==> t.pcb.state.Running?
    requires role.Dispatched? ==> Admit(t, n.now).pcb.state.Ready?
    ensures Debt(n, StepAs(role, t, n.now)) == Debt(m, t) - (if role.Bystander? then 0 else 1)
  {
    var q := Slice(m.quantum);
    assert Slices(q, t.pcb.remaining) == if t.pcb.remaining <= 0 then 0 else 1 + Slices(q, t.pcb.remaining - q);
  }

  lemma DebtStep(r: Recorded, n: Machine, i: int)
    requires Inv(r) && Follows(r.m, n) && 0 <= i < |r.added|
    ensures Debt(n, n.tasks[i]) == Debt(r.m, r.m.tasks[i]) - Paid(r.m, i)
  {
    SteppedByRole(r.m, i);
    QuantumFollows(r.m, n, i);
    DebtByRole(r.m, n, RoleOf(r.m, i), r.m.tasks[i], r.added[i]);
    NoPickWhileRunning(r.m);
    hide Picked, Debt, StepAs, TaskStep, QuantumByRole, TaskInv;
  }

  function Payments(m: Machine): (p: seq<int>)
    ensures |p| == |m.tasks|
  {
    seq(|m.tasks|, i requires 0 <= i < |m.tasks| => Paid(m, i))
  }

  lemma PaymentsSum(m: Machine)
    requires Linked(m) && (Runner(m) != -1 ==> HasTask(m, Runner(m)))
    ensures Sum(Payments(m)) == (if Runner(m) == -1 then 0 else 1) + (if Expires(m) then 1 else 0)
  {
    hide Runner;
    var expired := if Expires(m) then m.running - 1 else -1;
    SumAdd(Payments(m), Unit(|m.tasks|, Runner(m) - 1), Unit(|m.tasks|, expired));
    SumUnit(|m.tasks|, Runner(m) - 1);
    SumUnit(|m.tasks|, expired);
  }

  /** The potential drops by one for an executed unit and by one for an expired quantum. */
  lemma PotentialStep(r: Recorded, n: Machine)
    requires Inv(r) && Follows(r.m, n)
    ensures Potential(n) ==
              Potential(r.m) - (if Runner(r.m) == -1 then 0 else 1) - (if Expires(r.m) then 1 else 0)
  {
    forall i | 0 <= i < |r.m.tasks| ensures Debts(r.m)[i] == Debts(n)[i] + Payments(r.m)[i] {
      DebtStep(r, n, i);
      hide Debt, Paid, Stepped;
    }
    PaymentsSum(r.m);
    hide Debts, Payments;
    SumAdd(Debts(r.m), Debts(n), Payments(r.m));
  }

  lemma PotentialNonNegative(r: Recorded)
    requires Inv(r)
    ensures Potential(r.m) >= 0
    ensures Potential(r.m) == 0 && r.m.tasks != [] ==> AllCompleted(r.m)
  {
    forall i | 0 <= i < |r.m.tasks|
      ensures Debts(r.m)[i] >= 0 && (Debts(r.m)[i] == 0 ==> r.m.tasks[i].pcb.state.Terminated?)
    {
      assert TaskInv(r.m.tasks[i], r.added[i], r.m.now);
    }
    SumNonNegative(Debts(r.m));
  }

  /** Every process is admitted by the next time step at the latest. */
  ghost predicate AllDueBy(r: Recorded, tick: int)
    requires |r.added| == |r.m.tasks|
  {
    forall i :: 0 <= i < |r.added| ==> Admission(r.m.tasks[i], r.added[i]) <= tick
  }

  /** With every process due, a step makes progress until all have completed. */
  lemma Progress(r: Recorded)
    requires Inv(r) && AllDueBy(r, r.m.now + 1) && r.m.tasks != [] && !AllCompleted(r.m)
    ensures Runner(r.m) != -1 || Expires(r.m)
  {
    if Runner(r.m) == -1 && !Expires(r.m) {
      IdleMeansNoneReady(r.m);
      forall i | 0 <= i < |r.m.tasks| ensures r.m.tasks[i].pcb.state.Terminated? {
        assert TaskInv(r.m.tasks[i], r.added[i], r.m.now);
        assert Arrived(r.m).tasks[i] == Admit(r.m.tasks[i], r.m.now + 1);
      }
    }
  }

  function After(r: Recorded, n: nat): Recorded {
    r.(m := Ticks(r.m, n))
  }

  lemma {:induction false} InvTicks(r: Recorded, n: nat)
    requires Inv(r)
    ensures Inv(After(r, n)) && Ticks(r.m, n).now == r.m.now + n
    ensures |Ticks(r.m, n).tasks| == |r.m.tasks|
    ensures forall i :: 0 <= i < |r.added| ==>
              Ticks(r.m, n).tasks[i].pcb.arrival == r.m.tasks[i].pcb.arrival
              && Ticks(r.m, n).tasks[i].pcb.burst == r.m.tasks[i].pcb.burst
              && Ticks(r.m, n).tasks[i].pcb.priority == r.m.tasks[i].pcb.priority
    ensures Ticks(r.m, n).algo == r.m.algo && Ticks(r.m, n).quantum == r.m.quantum
  {
    hide Tick;
    if n > 0 {
      InvTicks(r, n - 1);
      InvStep(After(r, n - 1));
      StepParameters(After(r, n - 1), Ticks(r.m, n));
    }
  }

  lemma StepParameters(r: Recorded, n: Machine)
    requires Inv(r) && Follows(r.m, n)
    ensures forall i :: 0 <= i < |r.added| ==>
              n.tasks[i].pcb.arrival == r.m.tasks[i].pcb.arrival
              && n.tasks[i].pcb.burst == r.m.tasks[i].pcb.burst
              && n.tasks[i].pcb.priority == r.m.tasks[i].pcb.priority
  {
    forall i | 0 <= i < |r.added|
      ensures n.tasks[i].pcb.arrival == r.m.tasks[i].pcb.arrival
              && n.tasks[i].pcb.burst == r.m.tasks[i].pcb.burst
              && n.tasks[i].pcb.priority == r.m.tasks[i].pcb.priority
    {
      StepKeepsParameters(r.m, i);
      hide Stepped;
    }
  }

  lemma AllCompletedStays(r: Recorded)
    requires Inv(r) && AllCompleted(r.m)
    ensures AllCompleted(Tick(r.m))
  {
    InvStep(r);
    forall i | 0 <= i < |r.m.tasks| ensures Tick(r.m).tasks[i].pcb.state.Terminated? {
      TerminatedStep(r.m, i);
    }
  }

  lemma {:induction false} PotentialFalls(r: Recorded, n: nat)
    requires Inv(r)
    ensures Potential(Ticks(r.m, n)) <= Potential(r.m)
    ensures r.m.tasks != [] && AllDueBy(r, r.m.now + 1) ==>
              AllCompleted(Ticks(r.m, n)) || Potential(Ticks(r.m, n)) <= Potential(r.m) - n
  {
    hide Tick;
    if n > 0 {
      var s := After(r, n - 1);
      PotentialFalls(r, n - 1);
      InvTicks(r, n - 1);
      InvStep(s);
      PotentialStep(s, Ticks(r.m, n));
      if r.m.tasks != [] && AllDueBy(r, r.m.now + 1) {
        if AllCompleted(s.m) { AllCompletedStays(s); } else { Progress(s); }
      }
    }
  }

  /** Once every process is due, the rest of the run takes at most the potential. */
  lemma Drains(r: Recorded)
    requires Inv(r) && r.m.tasks != [] && AllDueBy(r, r.m.now + 1)
    ensures Potential(r.m) >= 0 && AllCompleted(Ticks(r.m, Potential(r.m)))
  {
    hide Tick;
    PotentialNonNegative(r);
    PotentialFalls(r, Potential(r.m));
    InvTicks(r, Potential(r.m));
    PotentialNonNegative(After(r, Potential(r.m)));
  }

  lemma {:induction false} TicksAdd(m: Machine, a: nat, b: nat)
    ensures Ticks(m, a + b) == Ticks(Ticks(m, a), b)
  {
    hide Tick;
    if b > 0 { TicksAdd(m, a, b - 1); }
  }

  lemma {:induction false} CompletedForEver(r: Recorded, a: nat, b: nat)
    requires Inv(r) && a <= b && AllCompleted(Ticks(r.m, a))
    ensures AllCompleted(Ticks(r.m, b))
  {
    hide Tick;
    if a < b {
      CompletedForEver(r, a, b - 1);
      InvTicks(r, b - 1);
      AllCompletedStays(After(r, b - 1));
    }
  }

  /**
   The finishing bound. If the last admission is at tick `last`, a time step has reported the
   end after last - 1 - now + Potential further steps at the latest.
  */
  lemma Finishes(r: Recorded, last: int)
    requires Inv(r) && r.m.tasks != [] && AllDueBy(r, last) && r.m.now < last
    ensures Potential(r.m) >= 0 && AllCompleted(Ticks(r.m, last - 1 - r.m.now + Potential(r.m)))
  {
    hide Tick;
    var wait := last - 1 - r.m.now;
    InvTicks(r, wait);
    PotentialFalls(r, wait);
    var s := After(r, wait);
    Drains(s);
    TicksAdd(r.m, wait, Potential(s.m));
    PotentialNonNegative(r);
    CompletedForEver(r, wait + Potential(s.m), wait + Potential(r.m));
  }

  /** No process has been admitted yet, as before the first time step. */
  ghost predicate AllNew(m: Machine) {
    forall i :: 0 <= i < |m.tasks| ==> m.tasks[i].pcb.state.New?
  }

  function Bursts(m: Machine): (b: seq<int>)
    ensures |b| == |m.tasks|
  {
    seq(|m.tasks|, i requires 0 <= i < |m.tasks| => m.tasks[i].pcb.burst)
  }

  function ExtraSlices(m: Machine): (b: seq<int>)
    ensures |b| == |m.tasks|
  {
    seq(|m.tasks|, i requires 0 <= i < |m.tasks| => Slices(Slice(m.quantum), m.tasks[i].pcb.burst) - 1)
  }

  /** Before the first step the potential is the total burst, plus the extra slices under Round Robin. */
  lemma InitialPotential(r: Recorded)
    requires Inv(r) && AllNew(r.m)
    ensures Potential(r.m) == Sum(Bursts(r.m)) + (if r.m.algo.RoundRobin? then Sum(ExtraSlices(r.m)) else 0)
  {
    forall i | 0 <= i < |r.m.tasks|
      ensures Debts(r.m)[i] == Bursts(r.m)[i] + (if r.m.algo.RoundRobin? then ExtraSlices(r.m)[i] else 0)
    {
      assert TaskInv(r.m.tasks[i], r.added[i], r.m.now);
    }
    if r.m.algo.RoundRobin? {
      SumAdd(Debts(r.m), Bursts(r.m), ExtraSlices(r.m));
    } else {
      assert Debts(r.m) == Bursts(r.m);
    }
  }

  /** All processes were added before the first time step. */
  ghost predicate FixedBeforeStart(r: Recorded) {
    Inv(r) && r.m.now == 0 && r.m.tasks != []
  }

  /** Processes added before the first step are all NEW, and due at max(arrival, 1). */
  lemma DueAtArrival(r: Recorded, latest: int)
    requires FixedBeforeStart(r)
    requires forall i :: 0 <= i < |r.m.tasks| ==> r.m.tasks[i].pcb.arrival <= latest
    ensures AllNew(r.m) && AllDueBy(r, Max(latest, 1))
  {
    forall i | 0 <= i < |r.m.tasks|
      ensures r.m.tasks[i].pcb.state.New? && Admission(r.m.tasks[i], r.added[i]) <= Max(latest, 1)
    {
      assert TaskInv(r.m.tasks[i], r.added[i], r.m.now);
    }
  }

  /** Termination of a whole run with the latest arrival A: max(A, 1) - 1 steps plus the total debt. */
  lemma RunTerminates(r: Recorded, latest: int)
    requires FixedBeforeStart(r)
    requires forall i :: 0 <= i < |r.m.tasks| ==> r.m.tasks[i].pcb.arrival <= latest
    ensures var bound := Max(latest, 1) - 1 + Sum(Bursts(r.m))
                         + (if r.m.algo.RoundRobin? then Sum(ExtraSlices(r.m)) else 0);
            bound >= 0 && AllCompleted(Ticks(r.m, bound))
  {
    hide Inv, AllCompleted, Ticks, AllDueBy, AllNew;
    DueAtArrival(r, latest);
    InitialPotential(r);
    Finishes(r, Max(latest, 1));
  }

  /**
   An idle step that leaves a READY process behind is the expiry of a lone Round Robin process;
   nothing else is READY, and the next step executes.
  */
  lemma IdleOnlyOnLoneExpiry(r: Recorded, i: int)
    requires Inv(r) && Runner(r.m) == -1 && 0 <= i < |r.m.tasks|
    requires |Tick(r.m).tasks| == |r.m.tasks| && Tick(r.m).tasks[i].pcb.state.Ready?
    ensures Expires(r.m) && r.m.running == i + 1
    ensures Runner(Tick(r.m)) != -1
  {
    InvStep(r);
    LoneExpiry(r, Tick(r.m), i);
  }

  lemma LoneExpiry(r: Recorded, n: Machine, i: int)
    requires Inv(r) && Follows(r.m, n) && Linked(n) && Runner(r.m) == -1 && 0 <= i < |r.m.tasks|
    requires n.tasks[i].pcb.state.Ready?
    ensures Expires(r.m) && r.m.running == i + 1
    ensures Runner(n) != -1
  {
    IdleMeansNoneReady(r.m);
    SteppedByRole(r.m, i);
    ArrivedTask(r.m, i);
    ArrivedTask(n, i);
    if Runner(n) == -1 {
      IdleMeansNoneReady(n);
      assert false;
    }
  }
}
