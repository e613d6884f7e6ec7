/**
 The tick-by-tick FCFS run in closed form: the processes, sorted by arrival and pid, run one
 after the other, each as soon as it is admitted and the one before it has finished.
*/
module FcfsClosedForm {
  import opened KernelTypes
  import opened Scheduling
  import opened TickModel
  import opened TickSteps
  import opened TickInvariant
  import opened Termination

  /** Positions 0..n-1 of the table in the order of service. */
  ghost predicate IsServiceOrder(m: Machine, order: seq<int>) {
    && |order| == |m.tasks|
    && (forall k :: 0 <= k < |order| ==> 0 <= order[k] < |m.tasks|)
    && (forall i :: 0 <= i < |m.tasks| ==> i in order)
    && forall j, k :: 0 <= j < k < |order| ==>
         var p, r := m.tasks[order[j]].pcb, m.tasks[order[k]].pcb;
         p.arrival < r.arrival || (p.arrival == r.arrival && p.pid < r.pid)
  }

  function Inserted(m: Machine, order: seq<int>, i: int): (r: seq<int>)
    requires 0 <= i < |m.tasks| && forall k :: 0 <= k < |order| ==> 0 <= order[k] < |m.tasks|
    ensures |r| == |order| + 1 && forall k :: 0 <= k < |r| ==> r[k] == i || r[k] in order
    ensures i in r && forall x :: x in order ==> x in r
  {
    if order == [] then [i]
    else
      var front, last := order[..|order| - 1], order[|order| - 1];
      assert order == front + [last];
      if Precedes(FCFS, m.tasks[last].pcb, m.tasks[i].pcb) then order + [i]
      else Inserted(m, front, i) + [last]
  }

  /** The first n positions in the order of service. */
  function ServiceOrder(m: Machine, n: nat): (order: seq<int>)
    requires n <= |m.tasks|
    ensures |order| == n && (forall k :: 0 <= k < n ==> 0 <= order[k] < n) && forall i :: 0 <= i < n ==> i in order
  {
    if n == 0 then [] else Inserted(m, ServiceOrder(m, n - 1), n - 1)
  }

  ghost predicate Sorted(m: Machine, order: seq<int>) {
    && (forall k :: 0 <= k < |order| ==> 0 <= order[k] < |m.tasks|)
    && forall j, k :: 0 <= j < k < |order| ==> Precedes(FCFS, m.tasks[order[j]].pcb, m.tasks[order[k]].pcb)
  }

  lemma SortedSnoc(m: Machine, s: seq<int>, x: int)
    requires Sorted(m, s) && 0 <= x < |m.tasks|
    requires forall k :: 0 <= k < |s| ==> Precedes(FCFS, m.tasks[s[k]].pcb, m.tasks[x].pcb)
    ensures Sorted(m, s + [x])
  {
    hide Precedes;
  }

  lemma PrecedesIsTotal(m: Machine, i: int, j: int)
    requires Linked(m) && 0 <= i < |m.tasks| && 0 <= j < |m.tasks| && i != j
    ensures Precedes(FCFS, m.tasks[i].pcb, m.tasks[j].pcb) || Precedes(FCFS, m.tasks[j].pcb, m.tasks[i].pcb)
  {
  }

  lemma PrecedesIsTransitive(p: Pcb, q: Pcb, r: Pcb)
    requires Precedes(FCFS, p, q) && Precedes(FCFS, q, r)
    ensures Precedes(FCFS, p, r)
  {
  }

  lemma {:induction false} InsertedSorted(m: Machine, order: seq<int>, i: int)
    requires Linked(m) && 0 <= i < |m.tasks| && Sorted(m, order) && i !in order
    ensures Sorted(m, Inserted(m, order, i))
  {
    hide Precedes;
    if order == [] {
    } else if Precedes(FCFS, m.tasks[order[|order| - 1]].pcb, m.tasks[i].pcb) {
      forall k | 0 <= k < |order| ensures Precedes(FCFS, m.tasks[order[k]].pcb, m.tasks[i].pcb) {
        if k < |order| - 1 {
          PrecedesIsTransitive(m.tasks[order[k]].pcb, m.tasks[order[|order| - 1]].pcb, m.tasks[i].pcb);
        }
      }
      SortedSnoc(m, order, i);
    } else {
      var front, last := order[..|order| - 1], order[|order| - 1];
      assert last in order && order == front + [last];
      InsertedSorted(m, front, i);
      PrecedesIsTotal(m, i, last);
      var r := Inserted(m, front, i);
      forall k | 0 <= k < |r| ensures Precedes(FCFS, m.tasks[r[k]].pcb, m.tasks[last].pcb) {
        if r[k] != i {
          var x :| 0 <= x < |front| && front[x] == r[k];
          assert order[x] == r[k];
        }
      }
      SortedSnoc(m, r, last);
    }
  }

  lemma {:induction false} ServiceOrderSorted(m: Machine, n: nat)
    requires Linked(m) && n <= |m.tasks|
    ensures Sorted(m, ServiceOrder(m, n))
  {
    if n > 0 {
      ServiceOrderSorted(m, n - 1);
      hide Inserted, Precedes;
      InsertedSorted(m, ServiceOrder(m, n - 1), n - 1);
    }
  }

  /** Insertion by (arrival, pid) gives the order of service of any table. */
  lemma ServiceOrderExists(m: Machine)
    requires Linked(m)
    ensures IsServiceOrder(m, ServiceOrder(m, |m.tasks|))
  {
    ServiceOrderSorted(m, |m.tasks|);
  }

  /** The admission tick of a process added before the first step. */
  function AdmissionTick(t: Task): int {
    Max(t.pcb.arrival, 1)
  }

  /** Completion tick of the first k processes in the order; zero for none. */
  function Completion(m: Machine, order: seq<int>, k: nat): int
    requires k <= |order| && forall j :: 0 <= j < |order| ==> 0 <= order[j] < |m.tasks|
    decreases k, 0
  {
    if k == 0 then 0 else StartTick(m, order, k - 1) + m.tasks[order[k - 1]].pcb.burst - 1
  }

  /** First tick of the k-th process: its admission, or the tick after its predecessor's completion. */
  function StartTick(m: Machine, order: seq<int>, k: nat): int
    requires k < |order| && forall j :: 0 <= j < |order| ==> 0 <= order[j] < |m.tasks|
    decreases k, 1
  {
    Max(AdmissionTick(m.tasks[order[k]]), Completion(m, order, k) + 1)
  }

  /** A task as the closed form predicts it after the step at `now`. */
  function Predicted(t: Task, start: int, now: int): Task {
    var p, adm, finish := t.pcb, AdmissionTick(t), start + t.pcb.burst - 1;
    if now < adm then t
    else if now < start then Task(p.(state := Ready), Active(TrackingInfo(p.arrival, -1, 0, adm, false)))
    else if now < finish then
      Task(p.(state := Running, remaining := finish - now),
           Active(TrackingInfo(p.arrival, start, start - adm, start, true)))
    else
      Task(p.(state := Terminated, remaining := 0, completion := finish),
           Done(ProcessMetrics(start - adm, finish - p.arrival, start - p.arrival, finish)))
  }

  ghost predicate Matches(m0: Machine, order: seq<int>, m: Machine)
    requires IsServiceOrder(m0, order)
  {
    |m.tasks| == |m0.tasks| &&
    forall k: nat :: k < |order| ==> m.tasks[order[k]] == Predicted(m0.tasks[order[k]], StartTick(m0, order, k), m.now)
  }

  /** A table before the first step: every task as it was added. */
  ghost predicate Fresh(m: Machine) {
    && Linked(m) && m.now == 0 && m.running == -1 && m.algo.FCFS?
    && forall i :: 0 <= i < |m.tasks| ==>
         var p := m.tasks[i].pcb;
         p == NewPcb(i + 1, p.priority, p.burst, p.arrival) && p.burst > 0 && p.arrival >= 0
         && m.tasks[i].track == Active(NewTracking(p))
  }

  lemma {:induction false} CompletionsRise(m: Machine, order: seq<int>, j: nat, k: nat)
    requires Fresh(m) && IsServiceOrder(m, order) && j <= k <= |order|
    ensures Completion(m, order, j) <= Completion(m, order, k)
    ensures Completion(m, order, k) >= k
  {
    if 0 < k {
      if j < k { CompletionsRise(m, order, j, k - 1); } else { CompletionsRise(m, order, k - 1, k - 1); }
      assert m.tasks[order[k - 1]].pcb.burst > 0;
    }
  }

  lemma StartAfterAdmission(m: Machine, order: seq<int>, k: nat)
    requires IsServiceOrder(m, order) && k < |order|
    ensures StartTick(m, order, k) >= AdmissionTick(m.tasks[order[k]]) >= 1
  {
  }

  /** While a process is RUNNING in the closed form, no other one is, and none before it is unfinished. */
  lemma PhasesDisjoint(m: Machine, order: seq<int>, j: nat, k: nat)
    requires Fresh(m) && IsServiceOrder(m, order) && j < k < |order|
    ensures StartTick(m, order, j) + m.tasks[order[j]].pcb.burst - 1 < StartTick(m, order, k)
  {
    CompletionsRise(m, order, j + 1, k);
  }

  lemma PositionOf(m: Machine, order: seq<int>, i: int) returns (k: nat)
    requires IsServiceOrder(m, order) && 0 <= i < |m.tasks|
    ensures k < |order| && order[k] == i
  {
    assert i in order;
    k :| 0 <= k < |order| && order[k] == i;
  }

  /** Some process is in its RUNNING phase exactly when the machine has a running process. */
  lemma RunningPhase(m0: Machine, order: seq<int>, m: Machine, k: nat)
    requires Fresh(m0) && IsServiceOrder(m0, order) && Linked(m) && Matches(m0, order, m) && k < |order|
    ensures var s := StartTick(m0, order, k);
            m.running == order[k] + 1 <==> s <= m.now < s + m0.tasks[order[k]].pcb.burst - 1
  {
    assert m.tasks[order[k]] == Predicted(m0.tasks[order[k]], StartTick(m0, order, k), m.now);
    assert m0.tasks[order[k]].pcb.state.New?;
  }

  /** A process is READY after the arrivals of the next step exactly between admission and start. */
  lemma ReadyPhase(m0: Machine, order: seq<int>, m: Machine, k: nat)
    requires Fresh(m0) && IsServiceOrder(m0, order) && Matches(m0, order, m) && k < |order| && m.now >= 0
    ensures Admit(m.tasks[order[k]], m.now + 1).pcb.state.Ready?
            <==> AdmissionTick(m0.tasks[order[k]]) <= m.now + 1 && m.now < StartTick(m0, order, k)
  {
    assert m.tasks[order[k]] == Predicted(m0.tasks[order[k]], StartTick(m0, order, k), m.now);
    assert m0.tasks[order[k]].pcb.state.New?;
  }

  lemma NothingPicked(m: Machine)
    requires Linked(m) && m.running == -1 && Picked(m) == -1
    ensures forall i :: 0 <= i < |m.tasks| ==> !Arrived(m).tasks[i].pcb.state.Ready?
  {
    IdleMeansNoneReady(m);
  }

  /** At its start tick a process is dispatched. */
  lemma StartsOnTime(m0: Machine, order: seq<int>, m: Machine, k: nat)
    requires Fresh(m0) && IsServiceOrder(m0, order) && Linked(m) && Matches(m0, order, m) && m.algo.FCFS?
    requires k < |order| && m.now >= 0 && StartTick(m0, order, k) == m.now + 1
    requires SameKeys(m0, m)
    ensures Picked(m) == order[k] + 1
  {
    hide Picked, ReadyList, StartTick, Arrived, Admit, Runner;
    NoPickWhileRunning(m);
    ReadyPhase(m0, order, m, k);
    StartAfterAdmission(m0, order, k);
    if m.running != -1 {
      var j := PositionOf(m0, order, m.running - 1);
      RunningPhase(m0, order, m, j);
      if j < k { PhasesDisjoint(m0, order, j, k); }
      if k < j { PhasesDisjoint(m0, order, k, j); }
      assert false;
    }
    ArrivedTask(m, order[k]);
    if Picked(m) == -1 {
      NothingPicked(m);
      assert false;
    }
    PickedIsReady(m);
    ArrivedTask(m, Picked(m) - 1);
    var j := PositionOf(m0, order, Picked(m) - 1);
    ReadyPhase(m0, order, m, j);
    if j < k { PhasesDisjoint(m0, order, j, k); }
    if k < j { PickedPrecedes(m, order[k]); }
  }

  /** Arrival and pid, the FCFS order, never change. */
  ghost predicate SameKeys(m0: Machine, m: Machine) {
    |m.tasks| == |m0.tasks| &&
    forall i :: 0 <= i < |m.tasks| ==>
      m.tasks[i].pcb.arrival == m0.tasks[i].pcb.arrival && m.tasks[i].pcb.pid == m0.tasks[i].pcb.pid
  }

  lemma MatchesGivesKeys(m0: Machine, order: seq<int>, m: Machine)
    requires IsServiceOrder(m0, order) && Matches(m0, order, m)
    ensures SameKeys(m0, m)
  {
    forall i | 0 <= i < |m.tasks|
      ensures m.tasks[i].pcb.arrival == m0.tasks[i].pcb.arrival && m.tasks[i].pcb.pid == m0.tasks[i].pcb.pid
    {
      var k := PositionOf(m0, order, i);
      assert m.tasks[order[k]] == Predicted(m0.tasks[order[k]], StartTick(m0, order, k), m.now);
    }
  }

  /** Before its start tick a process is not dispatched: its predecessor is running or READY. */
  lemma NotPickedEarly(m0: Machine, order: seq<int>, m: Machine, k: nat)
    requires Fresh(m0) && IsServiceOrder(m0, order) && Linked(m) && Matches(m0, order, m) && m.algo.FCFS?
    requires k < |order| && m.now >= 0 && m.now + 1 < StartTick(m0, order, k)
    requires SameKeys(m0, m)
    ensures Picked(m) != order[k] + 1
  {
    hide Picked, ReadyList, Arrived, Admit, Runner, Predicted;
    NoPickWhileRunning(m);
    if Picked(m) == order[k] + 1 {
      PickedIsReady(m);
      ArrivedTask(m, order[k]);
      ReadyPhase(m0, order, m, k);
      assert k > 0;
      ReadyPhase(m0, order, m, k - 1);
      RunningPhase(m0, order, m, k - 1);
      assert Precedes(FCFS, m0.tasks[order[k - 1]].pcb, m0.tasks[order[k]].pcb);
      assert m.running == -1;
      PickedPrecedes(m, order[k - 1]);
      assert false;
    }
  }

  /** One step of the machine is one step of the closed form. */
  lemma PredictionStep(m0: Machine, order: seq<int>, m: Machine, k: nat)
    requires Fresh(m0) && IsServiceOrder(m0, order) && Linked(m) && Matches(m0, order, m) && m.algo.FCFS?
    requires k < |order| && m.now >= 0
    ensures Stepped(m, order[k]) == Predicted(m0.tasks[order[k]], StartTick(m0, order, k), m.now + 1)
  {
    hide Picked, StartTick;
    MatchesGivesKeys(m0, order, m);
    var t, s := m0.tasks[order[k]], StartTick(m0, order, k);
    assert m.tasks[order[k]] == Predicted(t, s, m.now);
    assert t.pcb == NewPcb(t.pcb.pid, t.pcb.priority, t.pcb.burst, t.pcb.arrival) && t.track == Active(NewTracking(t.pcb));
    SteppedByRole(m, order[k]);
    NoPickWhileRunning(m);
    RunningPhase(m0, order, m, k);
    ReadyPhase(m0, order, m, k);
    StartAfterAdmission(m0, order, k);
    if s == m.now + 1 { StartsOnTime(m0, order, m, k); }
    if m.now + 1 < s { NotPickedEarly(m0, order, m, k); }
  }

  lemma MatchesAtStart(m: Machine, order: seq<int>)
    requires Fresh(m) && IsServiceOrder(m, order)
    ensures Matches(m, order, m)
  {
    forall k: nat | k < |order|
      ensures m.tasks[order[k]] == Predicted(m.tasks[order[k]], StartTick(m, order, k), m.now)
    {
      StartAfterAdmission(m, order, k);
    }
  }

  lemma FreshIsFcfs(m: Machine)
    requires Fresh(m)
    ensures m.algo.FCFS? && m.now == 0
  {
  }

  lemma {:induction false} ClosedForm(r: Recorded, order: seq<int>, n: nat)
    requires Inv(r) && Fresh(r.m) && IsServiceOrder(r.m, order)
    ensures Matches(r.m, order, Ticks(r.m, n))
  {
    hide Tick, Matches, Fresh, IsServiceOrder;
    if n == 0 {
      MatchesAtStart(r.m, order);
    } else {
      ClosedForm(r, order, n - 1);
      InvTicks(r, n - 1);
      FreshIsFcfs(r.m);
      ClosedFormStep(r.m, order, After(r, n - 1));
    }
  }

  lemma ClosedFormStep(m0: Machine, order: seq<int>, s: Recorded)
    requires Fresh(m0) && IsServiceOrder(m0, order) && Inv(s) && Matches(m0, order, s.m) && s.m.algo.FCFS?
    ensures Matches(m0, order, Tick(s.m))
  {
    hide Tick, Matches, Fresh;
    InvStep(s);
    MatchesStep(m0, order, s.m, Tick(s.m));
  }

  lemma MatchesStep(m0: Machine, order: seq<int>, m: Machine, n: Machine)
    requires Fresh(m0) && IsServiceOrder(m0, order) && Linked(m) && Matches(m0, order, m) && m.algo.FCFS?
    requires m.now >= 0 && Follows(m, n)
    ensures Matches(m0, order, n)
  {
    forall k: nat | k < |order|
      ensures n.tasks[order[k]] == Predicted(m0.tasks[order[k]], StartTick(m0, order, k), n.now)
    {
      PredictionStep(m0, order, m, k);
    }
  }

  /** Adding processes to a new FCFS machine gives a fresh table. */
  lemma {:induction false} AddsAreFresh(quantum: int, es: seq<Event>)
    requires forall e :: e in es ==> e.Add?
    ensures Fresh(Play(Begin(FCFS, quantum), es).m) && Inv(Play(Begin(FCFS, quantum), es))
  {
    if es != [] {
      var front, last := es[..|es| - 1], es[|es| - 1];
      assert last in es;
      AddsAreFresh(quantum, front);
      InvAdd(Play(Begin(FCFS, quantum), front), last.config);
    }
  }

  /**
   The FCFS run of any set of processes: after n steps every process is where the recurrence
   start = max(admission, previous completion + 1) over the sorted order puts it.
  */
  lemma FcfsRun(quantum: int, adds: seq<Event>, n: nat)
    requires forall e :: e in adds ==> e.Add?
    ensures var m := Play(Begin(FCFS, quantum), adds).m;
            && IsServiceOrder(m, ServiceOrder(m, |m.tasks|))
            && Matches(m, ServiceOrder(m, |m.tasks|), Ticks(m, n))
  {
    AddsAreFresh(quantum, adds);
    var r := Play(Begin(FCFS, quantum), adds);
    ServiceOrderExists(r.m);
    hide Tick, Ticks, Matches, IsServiceOrder, Play;
    ClosedForm(r, ServiceOrder(r.m, |r.m.tasks|), n);
  }

  lemma PredictedAtEnd(t: Task, start: int, now: int)
    requires start >= AdmissionTick(t) && t.pcb.burst > 0 && now >= start + t.pcb.burst - 1
    ensures var p, finish := Predicted(t, start, now), start + t.pcb.burst - 1;
            && p.pcb.state.Terminated? && p.pcb.completion == finish && p.pcb.arrival == t.pcb.arrival
            && p.track == Done(ProcessMetrics(start - AdmissionTick(t), finish - t.pcb.arrival, start - t.pcb.arrival, finish))
  {
  }

  /** The recorded metrics of the k-th process in the order, once its completion tick has passed. */
  lemma FcfsMetrics(r: Recorded, order: seq<int>, k: nat, n: nat)
    requires Inv(r) && Fresh(r.m) && IsServiceOrder(r.m, order) && k < |order| && n >= Completion(r.m, order, k + 1)
    ensures |Ticks(r.m, n).tasks| == |r.m.tasks|
    ensures var t, start, finish := Ticks(r.m, n).tasks[order[k]], StartTick(r.m, order, k), Completion(r.m, order, k + 1);
            && t.pcb.state.Terminated? && t.pcb.completion == finish
            && t.track == Done(ProcessMetrics(start - AdmissionTick(r.m.tasks[order[k]]), finish - t.pcb.arrival,
                                              start - t.pcb.arrival, finish))
  {
    hide Tick, Ticks, Predicted, StartTick;
    ClosedForm(r, order, n);
    InvTicks(r, n);
    StartAfterAdmission(r.m, order, k);
    assert Ticks(r.m, n).tasks[order[k]] == Predicted(r.m.tasks[order[k]], StartTick(r.m, order, k), n);
    PredictedAtEnd(r.m.tasks[order[k]], StartTick(r.m, order, k), n);
  }

  lemma PredictedTerminated(t: Task, start: int, now: int)
    requires start >= AdmissionTick(t) && t.pcb.burst > 0 && t.pcb.state.New?
    ensures Predicted(t, start, now).pcb.state.Terminated? <==> now >= start + t.pcb.burst - 1
  {
  }

  lemma CompletesAt(r: Recorded, order: seq<int>, k: nat, n: nat)
    requires Inv(r) && Fresh(r.m) && IsServiceOrder(r.m, order) && k < |order|
    ensures |Ticks(r.m, n).tasks| == |r.m.tasks| && 0 <= order[k] < |r.m.tasks|
    ensures Ticks(r.m, n).tasks[order[k]].pcb.state.Terminated? <==> n >= Completion(r.m, order, k + 1)
  {
    hide Tick, Ticks, Predicted, StartTick;
    ClosedForm(r, order, n);
    InvTicks(r, n);
    StartAfterAdmission(r.m, order, k);
    PredictedTerminated(r.m.tasks[order[k]], StartTick(r.m, order, k), n);
  }

  lemma CompletesByEnd(r: Recorded, order: seq<int>, n: nat, i: int)
    requires Inv(r) && Fresh(r.m) && IsServiceOrder(r.m, order) && 0 <= i < |r.m.tasks|
    requires n >= Completion(r.m, order, |order|)
    ensures |Ticks(r.m, n).tasks| == |r.m.tasks| && Ticks(r.m, n).tasks[i].pcb.state.Terminated?
  {
    var k := PositionOf(r.m, order, i);
    hide Inv, Fresh, Completion, Ticks;
    CompletionsRise(r.m, order, k + 1, |order|);
    CompletesAt(r, order, k, n);
  }

  /** The simulation reports its end exactly from the last completion of the recurrence on. */
  lemma FcfsFinishesExactly(r: Recorded, order: seq<int>, n: nat)
    requires Inv(r) && Fresh(r.m) && IsServiceOrder(r.m, order) && order != []
    ensures AllCompleted(Ticks(r.m, n)) <==> n >= Completion(r.m, order, |order|)
  {
    assert |order| == |r.m.tasks|;
    hide Inv, Fresh, Completion, Tick, Ticks, IsServiceOrder;
    CompletesAt(r, order, |order| - 1, n);
    if n >= Completion(r.m, order, |order|) {
      forall i | 0 <= i < |r.m.tasks| ensures Ticks(r.m, n).tasks[i].pcb.state.Terminated? {
        CompletesByEnd(r, order, n, i);
      }
    }
  }
}
