/**
 The rotation of Round Robin. Over an unchanging ready list the index visits every process in
 turn. In the machine the list lacks the process that has just had the processor, and the
 rotation passes over the second of three or more processes until one of the others completes.
*/
module RoundRobinRotation {
  import opened KernelTypes
  import opened Scheduling
  import opened TickModel
  import opened TickSteps
  import opened TickInvariant
  import opened Termination
  import opened Slicing
  import opened Workload

  /** The scheduler's index after k choices from the same list. */
  function IndexAfter(lastIndex: int, q: seq<Pcb>, k: nat): int
    requires q != []
  {
    if k == 0 then lastIndex else Choose(RoundRobin, IndexAfter(lastIndex, q, k - 1), q).1
  }

  lemma NextIndex(x: int, n: int)
    requires -1 <= x < n && n > 0
    ensures (x + 1) % n == if x + 1 < n then x + 1 else 0
  {
  }

  lemma ChooseNext(lastIndex: int, q: seq<Pcb>)
    requires q != []
    ensures 0 <= (lastIndex + 1) % |q| < |q|
    ensures Choose(RoundRobin, lastIndex, q) == (q[(lastIndex + 1) % |q|].pid, (lastIndex + 1) % |q|)
  {
  }

  /** The first |q| choices go once around the list, from the position after the last one. */
  lemma {:induction false} RotationOrder(lastIndex: int, q: seq<Pcb>, k: nat)
    requires q != [] && 1 <= k <= |q|
    ensures var first := IndexAfter(lastIndex, q, 1);
            var at := if first + k - 1 < |q| then first + k - 1 else first + k - 1 - |q|;
            && 0 <= first < |q| && IndexAfter(lastIndex, q, k) == at
            && Choose(RoundRobin, IndexAfter(lastIndex, q, k - 1), q).0 == q[at].pid
    ensures -1 <= lastIndex < |q| - 1 ==> IndexAfter(lastIndex, q, 1) == lastIndex + 1
  {
    hide Choose;
    ChooseNext(lastIndex, q);
    assert IndexAfter(lastIndex, q, 1) == Choose(RoundRobin, IndexAfter(lastIndex, q, 0), q).1;
    if -1 <= lastIndex < |q| { NextIndex(lastIndex, |q|); }
    if k > 1 {
      RotationOrder(lastIndex, q, k - 1);
      ChooseNext(IndexAfter(lastIndex, q, k - 1), q);
      NextIndex(IndexAfter(lastIndex, q, k - 1), |q|);
    }
  }

  /** So every process of the list is chosen exactly once in |q| choices. */
  lemma RotationVisitsEachOnce(lastIndex: int, q: seq<Pcb>, j: nat) returns (k: nat)
    requires j < |q|
    ensures 1 <= k <= |q| && IndexAfter(lastIndex, q, k) == j
    ensures forall k' :: 1 <= k' <= |q| && IndexAfter(lastIndex, q, k') == j ==> k' == k
  {
    RotationOrder(lastIndex, q, 1);
    var first := IndexAfter(lastIndex, q, 1);
    k := if first <= j then j - first + 1 else |q| - first + j + 1;
    RotationOrder(lastIndex, q, k);
    forall k' | 1 <= k' <= |q| && IndexAfter(lastIndex, q, k') == j ensures k' == k {
      RotationOrder(lastIndex, q, k');
    }
  }

  /** The index moves exactly when a process is dispatched. */
  lemma TickIndex(m: Machine)
    requires Linked(m)
    ensures Tick(m).lastIndex == if Picked(m) != -1 then Choose(m.algo, m.lastIndex, ReadyList(m)).1 else m.lastIndex
  {
    hide ReadyList, Choose, Schedule, RunOne, Linked, InState, Admit, Moved;
    ScheduleCases(m);
    PickedWhenReady(m);
    if Picked(m) != -1 { PickedIsReady(m); }
    ArrivedFields(m);
    RunningIsRunning(m);
    DispatchIndex(m, Arrived(m));
    if Expires(m) { DispatchIndex(m, Demote(Arrived(m))); }
    ExecuteIndex(Schedule(Arrived(m)));
  }

  lemma ExecuteIndex(m: Machine)
    ensures Execute(m).lastIndex == m.lastIndex
  {
  }

  /** A dispatch takes over the index of the choice, whether or not the chosen pid is in the table. */
  lemma DispatchIndex(m: Machine, a: Machine)
    requires a.algo == m.algo && a.lastIndex == m.lastIndex
    ensures Dispatch(a, ReadyList(m)).lastIndex ==
              if ReadyList(m) == [] then m.lastIndex else Choose(m.algo, m.lastIndex, ReadyList(m)).1
  {
    hide ReadyList, Choose, Moved;
  }

  // The rotation in the machine.

  /** All entries but the one at place x. */
  function Omit(at: seq<int>, x: nat): (rest: seq<int>)
    requires x < |at|
    ensures |rest| == |at| - 1
    ensures forall j :: 0 <= j < |rest| ==> rest[j] == at[if j < x then j else j + 1]
  {
    at[..x] + at[x + 1..]
  }

  lemma OmitRising(m: Machine, at: seq<int>, x: nat)
    requires Rising(m, at) && x < |at|
    ensures Rising(m, Omit(at, x)) && forall i :: i in Omit(at, x) <==> i in at && i != at[x]
  {
    var rest := Omit(at, x);
    forall i | i in at && i != at[x] ensures i in rest {
      var j :| 0 <= j < |at| && at[j] == i;
      assert rest[if j < x then j else j - 1] == i;
    }
  }

  /** The index after a dispatch of place x among n. */
  predicate Turn(n: int, x: int, lastIndex: int) {
    0 <= x < n && ((x == 0 && lastIndex == 0) || (x >= 2 && lastIndex == x - 1))
  }

  /** The order of service 0, 2, 3, ..., n - 1, 0, 2, ...; place 1 is not in it. */
  function NextTurn(n: int, x: int): (y: int)
    requires n >= 3 && 0 <= x < n && x != 1
    ensures 0 <= y < n && y != 1 && y != x
  {
    if x == 0 then 2 else if x + 1 < n then x + 1 else 0
  }

  /**
   The processes at `left` are all that is left, in pid order; place x among them has the
   processor or has just completed, and the others are READY.
  */
  ghost predicate HasTurn(m: Machine, left: seq<int>, x: int) {
    && Linked(m) && m.algo.RoundRobin? && Rising(m, left) && |left| >= 2 && 0 <= x < |left|
    && forall i :: 0 <= i < |m.tasks| ==>
         if i !in left then m.tasks[i].pcb.state.Terminated?
         else if i == left[x] then m.tasks[i].pcb.state.Running? || m.tasks[i].pcb.state.Terminated?
         else m.tasks[i].pcb.state.Ready?
  }

  /** Three or more are left, and the index is the one that a dispatch of place x leaves. */
  ghost predicate AtTurn(m: Machine, left: seq<int>, x: int) {
    HasTurn(m, left, x) && |left| >= 3 && Turn(|left|, x, m.lastIndex)
  }

  /** When nobody is still to come, admission changes nothing. */
  lemma NothingArrives(m: Machine)
    requires forall i :: 0 <= i < |m.tasks| ==> !m.tasks[i].pcb.state.New?
    ensures Arrived(m).tasks == m.tasks
  {
    forall i | 0 <= i < |m.tasks| ensures Arrived(m).tasks[i] == m.tasks[i] {
      ArrivedTask(m, i);
    }
  }

  lemma OthersReady(m: Machine, left: seq<int>, x: int)
    requires HasTurn(m, left, x)
    ensures ReadyList(m) == PcbsAt(m, Omit(left, x))
    ensures forall j :: 0 <= j < |left| ==> m.tasks[left[j]].pcb.pid == left[j] + 1
  {
    NothingArrives(m);
    OmitRising(m, left, x);
    hide ReadyList, Arrived, Omit, PcbsAt;
    ReadyListIs(m, Omit(left, x));
    assert PcbsAt(Arrived(m), Omit(left, x)) == PcbsAt(m, Omit(left, x)) by { SamePcbs(Arrived(m), m, Omit(left, x)); }
  }

  lemma SamePcbs(m: Machine, n: Machine, at: seq<int>)
    requires m.tasks == n.tasks && forall j :: 0 <= j < |at| ==> 0 <= at[j] < |m.tasks|
    ensures PcbsAt(m, at) == PcbsAt(n, at)
  {
  }

  /** The index counts on in the list without place x, so it skips that place. */
  function NextPlace(n: int, x: int, lastIndex: int): (y: int)
    requires n >= 2 && 0 <= x < n
    ensures 0 <= y < n && y != x
  {
    var index := (lastIndex + 1) % (n - 1);
    if index < x then index else index + 1
  }

  lemma ChoiceOfNextPlace(m: Machine, left: seq<int>, x: int)
    requires |left| >= 2 && 0 <= x < |left|
    requires forall j :: 0 <= j < |left| ==> 0 <= left[j] < |m.tasks| && m.tasks[left[j]].pcb.pid == left[j] + 1
    ensures Choose(RoundRobin, m.lastIndex, PcbsAt(m, Omit(left, x)))
            == (left[NextPlace(|left|, x, m.lastIndex)] + 1, (m.lastIndex + 1) % (|left| - 1))
  {
    var q := PcbsAt(m, Omit(left, x));
    ChooseNext(m.lastIndex, q);
    var index := (m.lastIndex + 1) % (|left| - 1);
    assert Omit(left, x)[index] == left[NextPlace(|left|, x, m.lastIndex)];
    assert q[index] == m.tasks[left[NextPlace(|left|, x, m.lastIndex)]].pcb;
    hide Choose, Omit, NextPlace;
  }

  /** Whenever the processor is given away, by expiry or completion, it goes to the next place. */
  lemma NextDispatch(m: Machine, left: seq<int>, x: int)
    requires HasTurn(m, left, x)
    ensures Picked(m) == if m.running == -1 || Expires(m) then left[NextPlace(|left|, x, m.lastIndex)] + 1 else -1
    ensures Picked(m) != -1 ==> Choose(m.algo, m.lastIndex, ReadyList(m)).1 == (m.lastIndex + 1) % (|left| - 1)
  {
    hide ReadyList, Choose, Linked, Omit, NextPlace, PcbsAt;
    OthersReady(m, left, x);
    ChoiceOfNextPlace(m, left, x);
    assert PcbsAt(m, Omit(left, x)) != [];
  }

  lemma PlaceOneIff(n: int, x: int, lastIndex: int)
    requires n >= 2 && 0 <= x < n
    ensures NextPlace(n, x, lastIndex) == 1
            <==> (x == 0 && (lastIndex + 1) % (n - 1) == 0) || (x >= 2 && (lastIndex + 1) % (n - 1) == 1)
  {
  }

  /** Exactly when the second of the processes left is the next one served. */
  lemma SecondIsNextIff(m: Machine, left: seq<int>, x: int)
    requires HasTurn(m, left, x) && (m.running == -1 || Expires(m))
    ensures Picked(m) == left[1] + 1
            <==> (x == 0 && (m.lastIndex + 1) % (|left| - 1) == 0) || (x >= 2 && (m.lastIndex + 1) % (|left| - 1) == 1)
  {
    NextDispatch(m, left, x);
    PlaceOneIff(|left|, x, m.lastIndex);
    hide Picked, NextPlace;
  }

  /** From a turn the next place is the next turn. */
  lemma PlaceOfNextTurn(n: int, x: int, lastIndex: int)
    requires n >= 3 && Turn(n, x, lastIndex)
    ensures NextPlace(n, x, lastIndex) == NextTurn(n, x) && Turn(n, NextTurn(n, x), (lastIndex + 1) % (n - 1))
  {
    NextIndex(lastIndex, n - 1);
  }

  lemma NextInTurn(m: Machine, left: seq<int>, x: int)
    requires AtTurn(m, left, x)
    ensures Picked(m) == if m.running == -1 || Expires(m) then left[NextTurn(|left|, x)] + 1 else -1
    ensures Picked(m) != -1 ==> Turn(|left|, NextTurn(|left|, x), Choose(m.algo, m.lastIndex, ReadyList(m)).1)
    ensures Picked(m) != left[1] + 1
  {
    NextDispatch(m, left, x);
    PlaceOfNextTurn(|left|, x, m.lastIndex);
    assert left[NextTurn(|left|, x)] != left[1];
    hide Picked, ReadyList, Choose, Linked, NextTurn, NextPlace;
  }

  /** What a step makes of an admitted process, by whether it executes it. */
  lemma AdmittedStep(m: Machine, n: Machine, i: int)
    requires Linked(m) && Follows(m, n) && 0 <= i < |m.tasks| && !m.tasks[i].pcb.state.New?
    ensures m.tasks[i].pcb.state.Terminated? ==> n.tasks[i] == m.tasks[i] && Runner(m) != i + 1
    ensures Runner(m) == i + 1 ==> n.tasks[i].pcb.state.Running? || n.tasks[i].pcb.state.Terminated?
    ensures Runner(m) != i + 1 && m.tasks[i].pcb.state.Ready? ==> n.tasks[i] == m.tasks[i]
    ensures Runner(m) != i + 1 && m.tasks[i].pcb.state.Running? ==> n.tasks[i].pcb.state.Ready?
  {
    SteppedByRole(m, i);
    SteppedLinked(m, i);
    hide Runner, Picked, Stepped;
  }

  /** One step: the turn stays until the quantum expires, then the next one has it. */
  lemma TurnFollows(m: Machine, n: Machine, left: seq<int>, x: int)
    requires AtTurn(m, left, x) && m.running == left[x] + 1 && Follows(m, n) && Linked(n)
    requires n.lastIndex == if Picked(m) != -1 then Choose(m.algo, m.lastIndex, ReadyList(m)).1 else m.lastIndex
    ensures AtTurn(n, left, if Expires(m) then NextTurn(|left|, x) else x)
    ensures n.tasks[left[1]] == m.tasks[left[1]]
  {
    NextInTurn(m, left, x);
    NoPickWhileRunning(m);
    hide Picked, ReadyList, Choose, Stepped;
    var y := if Expires(m) then NextTurn(|left|, x) else x;
    assert Runner(m) == left[y] + 1;
    hide Runner, Expires;
    TurnMoves(m, n, left, x, y);
  }

  lemma TurnMoves(m: Machine, n: Machine, left: seq<int>, x: int, y: int)
    requires AtTurn(m, left, x) && m.running == left[x] + 1 && Linked(n) && Follows(m, n)
    requires 0 <= y < |left| && y != 1 && Runner(m) == left[y] + 1 && Turn(|left|, y, n.lastIndex)
    ensures AtTurn(n, left, y) && n.tasks[left[1]] == m.tasks[left[1]]
  {
    hide Runner, Stepped;
    assert left[1] in left && left[y] in left && left[1] != left[y] && left[1] != left[x];
    assert m.tasks[left[x]].pcb.state.Running?;
    forall i | 0 <= i < |m.tasks|
      ensures if i !in left then n.tasks[i].pcb.state.Terminated?
              else if i == left[y] then n.tasks[i].pcb.state.Running? || n.tasks[i].pcb.state.Terminated?
              else n.tasks[i].pcb.state.Ready?
    {
      AdmittedStep(m, n, i);
    }
    AdmittedStep(m, n, left[1]);
  }

  ghost predicate NoneCompleted(m: Machine, left: seq<int>) {
    forall i :: i in left && 0 <= i < |m.tasks| ==> !m.tasks[i].pcb.state.Terminated?
  }

  lemma CompletedLater(r: Recorded, a: nat, b: nat, i: int)
    requires Inv(r) && a <= b && 0 <= i < |r.m.tasks|
    ensures |Ticks(r.m, a).tasks| == |Ticks(r.m, b).tasks| == |r.m.tasks|
    ensures Ticks(r.m, a).tasks[i].pcb.state.Terminated? ==> Ticks(r.m, b).tasks[i] == Ticks(r.m, a).tasks[i]
  {
    hide Inv, Tick, Ticks;
    InvTicks(r, a);
    InvTicks(r, b);
    TicksAdd(r.m, a, b - a);
    var s := After(r, a);
    TicksArePlay(s, b - a);
    NoSwitchFrom(s, Steps(b - a));
    if s.m.tasks[i].pcb.state.Terminated? { TerminatedIsAbsorbing(s, Steps(b - a), i); }
  }

  lemma NoneCompletedBefore(r: Recorded, left: seq<int>, a: nat, b: nat)
    requires Inv(r) && a <= b && NoneCompleted(Ticks(r.m, b), left)
    ensures NoneCompleted(Ticks(r.m, a), left)
  {
    hide Inv, Ticks;
    InvTicks(r, a);
    forall i | i in left && 0 <= i < |r.m.tasks| ensures !Ticks(r.m, a).tasks[i].pcb.state.Terminated? {
      CompletedLater(r, a, b, i);
    }
  }

  lemma TurnRuns(m: Machine, left: seq<int>, x: int)
    requires AtTurn(m, left, x)
    ensures left[x] in left && 0 <= left[x] < |m.tasks| && 0 <= left[1] < |m.tasks| && left[1] in left
    ensures NoneCompleted(m, left) <==> m.running != -1
    ensures m.running != -1 ==> m.running == left[x] + 1
  {
    RunningIsRunning(m);
    if m.tasks[left[x]].pcb.state.Running? { assert m.running == left[x] + 1; }
  }

  lemma NextTurnStep(r: Recorded, left: seq<int>, x: int)
    requires Inv(r) && AtTurn(r.m, left, x) && NoneCompleted(r.m, left)
    ensures exists y :: AtTurn(Tick(r.m), left, y)
    ensures left[1] < |r.m.tasks| == |Tick(r.m).tasks| && Tick(r.m).tasks[left[1]] == r.m.tasks[left[1]]
  {
    hide Tick, Inv, AtTurn, NoneCompleted, Picked, ReadyList, Choose;
    InvLinked(r);
    InvStep(r);
    InvLinked(Apply(r, Step));
    TickIndex(r.m);
    TurnRuns(r.m, left, x);
    TurnFollows(r.m, Tick(r.m), left, x);
  }

  /**
   Round Robin is not fair in the machine. With three or more processes left, the second is not
   touched by any number of steps until one of them completes, and not dispatched in the step
   after that completion either.
  */
  lemma {:induction false} SecondIsPassedOver(r: Recorded, left: seq<int>, x: int, n: nat)
    requires Inv(r) && AtTurn(r.m, left, x)
    requires n > 0 ==> NoneCompleted(Ticks(r.m, n - 1), left)
    ensures exists y :: AtTurn(Ticks(r.m, n), left, y)
    ensures left[1] < |r.m.tasks| == |Ticks(r.m, n).tasks| && Ticks(r.m, n).tasks[left[1]] == r.m.tasks[left[1]]
    ensures Picked(Ticks(r.m, n)) != left[1] + 1
  {
    hide Tick, Inv, AtTurn, NoneCompleted, Picked;
    TurnRuns(r.m, left, x);
    if n > 0 {
      if n > 1 { NoneCompletedBefore(r, left, n - 2, n - 1); }
      SecondIsPassedOver(r, left, x, n - 1);
      InvTicks(r, n - 1);
      var y :| AtTurn(Ticks(r.m, n - 1), left, y);
      NextTurnStep(After(r, n - 1), left, y);
    }
    var y :| AtTurn(Ticks(r.m, n), left, y);
    NextInTurn(Ticks(r.m, n), left, y);
  }

  lemma {:induction false} FirstCompletion(r: Recorded, left: seq<int>, b: nat) returns (n: nat)
    requires b > 0 && NoneCompleted(r.m, left) && !NoneCompleted(Ticks(r.m, b), left)
    ensures n < b && NoneCompleted(Ticks(r.m, n), left) && !NoneCompleted(Ticks(r.m, n + 1), left)
  {
    hide Tick, NoneCompleted;
    assert Ticks(r.m, 0) == r.m;
    if NoneCompleted(Ticks(r.m, b - 1), left) { n := b - 1; } else { n := FirstCompletion(r, left, b - 1); }
  }

  lemma AdmittedAreDue(r: Recorded)
    requires Inv(r) && forall i :: 0 <= i < |r.m.tasks| ==> !r.m.tasks[i].pcb.state.New?
    ensures AllDueBy(r, r.m.now + 1)
  {
    forall i | 0 <= i < |r.added| ensures Admission(r.m.tasks[i], r.added[i]) <= r.m.now + 1 {
      TaskOfInv(r, i);
    }
  }

  /** But one of them does complete, so the waiting of the second ends. */
  lemma SomeoneCompletes(r: Recorded, left: seq<int>, x: int)
    requires Inv(r) && AtTurn(r.m, left, x) && NoneCompleted(r.m, left)
    ensures exists n: nat :: NoneCompleted(Ticks(r.m, n), left) && !NoneCompleted(Ticks(r.m, n + 1), left)
  {
    hide Inv, Tick, Ticks, Potential, AllDueBy;
    AdmittedAreDue(r);
    TurnRuns(r.m, left, x);
    Drains(r);
    var bound := Potential(r.m);
    InvTicks(r, bound);
    assert Ticks(r.m, bound).tasks[left[x]].pcb.state.Terminated?;
    assert !NoneCompleted(Ticks(r.m, bound), left);
    TicksZero(r.m);
    var n := FirstCompletion(r, left, bound);
  }

  lemma TicksZero(m: Machine)
    ensures Ticks(m, 0) == m
  {
  }

  // Three processes left.

  /** Only process i is READY when the processor is given away. */
  lemma PicksTheOnlyOne(m: Machine, i: int)
    requires Linked(m) && m.algo.RoundRobin? && 0 <= i < |m.tasks| && (m.running == -1 || Expires(m))
    requires forall k :: 0 <= k < |m.tasks| ==>
               if k == i then m.tasks[k].pcb.state.Ready? else m.tasks[k].pcb.state.Running? || m.tasks[k].pcb.state.Terminated?
    ensures Picked(m) == i + 1
  {
    NothingArrives(m);
    assert m.tasks[i].pcb.pid == i + 1;
    hide Arrived, ReadyList, Choose, Linked;
    ReadyListIs(m, [i]);
    ChooseNext(m.lastIndex, ReadyList(m));
  }

  lemma {:induction false} UntouchedWhile(r: Recorded, i: int, n: nat)
    requires Inv(r) && 0 <= i < |r.m.tasks| && r.m.tasks[i].pcb.state.Ready?
    requires forall j: nat :: j < n ==> Runner(Ticks(r.m, j)) != i + 1
    ensures |Ticks(r.m, n).tasks| == |r.m.tasks| && Ticks(r.m, n).tasks[i] == r.m.tasks[i]
  {
    hide Inv, Linked, Tick, Runner;
    if n > 0 {
      UntouchedWhile(r, i, n - 1);
      InvTicks(r, n - 1);
      InvStep(After(r, n - 1));
      InvLinked(After(r, n - 1));
      AdmittedStep(Ticks(r.m, n - 1), Ticks(r.m, n), i);
    }
  }

  /** While one process runs, the others of the list are neither picked nor touched. */
  lemma OthersWait(r: Recorded, n: nat, i: int)
    requires Inv(r) && 0 <= i < |r.m.tasks| && r.m.tasks[i].pcb.state.Ready?
    requires forall j: nat :: j < n ==> Runner(Ticks(r.m, j)) != i + 1
    ensures |Ticks(r.m, n).tasks| == |r.m.tasks| && Ticks(r.m, n).tasks[i] == r.m.tasks[i]
    ensures forall j: nat :: j < n ==> Picked(Ticks(r.m, j)) != i + 1
  {
    UntouchedWhile(r, i, n);
    forall j: nat | j < n ensures Picked(Ticks(r.m, j)) != i + 1 {
      NoPickWhileRunning(Ticks(r.m, j));
    }
  }

  lemma MiddleIsLeft(t: Recorded, mid: int, other: int, completes: bool)
    requires Inv(t) && t.m.algo.RoundRobin? && 0 <= mid < |t.m.tasks| && mid != other && DispatchOver(t.m, other, completes)
    requires t.m.tasks[mid].pcb.state.Ready?
    requires forall k :: 0 <= k < |t.m.tasks| && k != mid && k != other ==> t.m.tasks[k].pcb.state.Terminated?
    ensures Picked(t.m) == mid + 1
  {
    InvLinked(t);
    hide Inv, Picked;
    SteppedByRole(t.m, other);
    RunningIsRunning(t.m);
    hide Linked, RoleOf;
    PicksTheOnlyOne(t.m, mid);
  }

  /** Only `mid` is READY besides the process that the next step dispatches. */
  ghost predicate TwoLeft(m: Machine, mid: int, other: int) {
    && m.algo.RoundRobin? && 0 <= mid < |m.tasks| && 0 <= other < |m.tasks| && mid != other
    && Picked(m) == other + 1 && m.tasks[mid].pcb.state.Ready?
    && forall k :: 0 <= k < |m.tasks| && k != mid && k != other ==> m.tasks[k].pcb.state.Terminated?
  }

  /** Three were left and one has just completed: the other outer one is dispatched next. */
  lemma TwoOfThree(m: Machine, left: seq<int>, y: int) returns (other: int)
    requires AtTurn(m, left, y) && |left| == 3 && m.running == -1
    ensures other in left && TwoLeft(m, left[1], other)
  {
    NextInTurn(m, left, y);
    var mid := left[1];
    other := left[NextTurn(3, y)];
    assert other in left && mid in left && mid != other && mid != left[y];
    RunningIsRunning(m);
    hide Picked, Expires;
    assert forall k :: k in left ==> k == mid || k == other || k == left[y];
    assert !m.tasks[left[y]].pcb.state.Running?;
  }

  /** That process runs its dispatch, and then `mid` is served. */
  lemma ServedAfterOther(s: Recorded, mid: int, other: int)
    requires Inv(s) && TwoLeft(s.m, mid, other)
    ensures var length := DispatchLength(s.m, s.m.tasks[other].pcb.remaining);
            length >= 1 && ServedFirstAt(s.m, mid + 1, length)
  {
    hide Inv, Linked, Tick, Picked, Runner, Expires, DispatchOver, DispatchLength;
    assert Ticks(s.m, 0) == s.m;
    hide Ticks;
    SliceInTicks(s);
    var length := DispatchLength(s.m, s.m.tasks[other].pcb.remaining);
    OthersWait(s, length, mid);
    InvTicks(s, length);
    forall k | 0 <= k < |s.m.tasks| && k != mid && k != other ensures Ticks(s.m, length).tasks[k].pcb.state.Terminated? {
      CompletedLater(s, 0, length, k);
    }
    MiddleIsLeft(After(s, length), mid, other, length == s.m.tasks[other].pcb.remaining);
  }

  lemma NotServedBefore(r: Recorded, left: seq<int>, x: int, n: nat, j: nat)
    requires Inv(r) && AtTurn(r.m, left, x) && NoneCompleted(Ticks(r.m, n), left) && j <= n + 1
    ensures Picked(Ticks(r.m, j)) != left[1] + 1
  {
    hide Inv, Tick, Ticks, Picked, AtTurn, NoneCompleted;
    if j > 0 { NoneCompletedBefore(r, left, j - 1, n); }
    SecondIsPassedOver(r, left, x, j);
  }

  /** The state after the first completion among three. */
  lemma FirstOfThreeCompleted(r: Recorded, left: seq<int>, x: int, n: nat) returns (other: int)
    requires Inv(r) && AtTurn(r.m, left, x) && |left| == 3
    requires NoneCompleted(Ticks(r.m, n), left) && !NoneCompleted(Ticks(r.m, n + 1), left)
    ensures other in left && other != left[1] && TwoLeft(Ticks(r.m, n + 1), left[1], other)
  {
    hide Inv, Tick, Ticks, Picked, AtTurn, NoneCompleted;
    SecondIsPassedOver(r, left, x, n + 1);
    InvTicks(r, n + 1);
    var y :| AtTurn(Ticks(r.m, n + 1), left, y);
    TurnRuns(Ticks(r.m, n + 1), left, y);
    other := TwoOfThree(Ticks(r.m, n + 1), left, y);
  }

  lemma LaterTicks(m: Machine, k: nat, j: nat)
    requires k <= j
    ensures Ticks(m, j) == Ticks(Ticks(m, k), j - k)
  {
    hide Tick, Ticks;
    TicksAdd(m, k, j - k);
  }

  /** The waiting process is served at step n, and not before. */
  ghost predicate ServedFirstAt(m: Machine, pid: int, n: int) {
    && n >= 0 && Picked(Ticks(m, n)) == pid
    && forall j: nat :: j < n ==> Picked(Ticks(m, j)) != pid
  }

  lemma ServedLater(m: Machine, k: nat, pid: int, n: nat)
    requires ServedFirstAt(Ticks(m, k), pid, n) && forall j: nat :: j < k ==> Picked(Ticks(m, j)) != pid
    ensures ServedFirstAt(m, pid, k + n)
  {
    hide Tick, Ticks, Picked;
    LaterTicks(m, k, k + n);
    forall j: nat | j < k + n ensures Picked(Ticks(m, j)) != pid {
      if j >= k {
        LaterTicks(m, k, j);
        var i: nat := j - k;
        assert Picked(Ticks(Ticks(m, k), i)) != pid;
      }
    }
  }

  /**
   The exact step at which the middle one of three is served: if the first completion falls in
   step n + 1, the other outer process is dispatched next, and the middle one when that dispatch
   is over, and never before.
  */
  lemma MiddleIsServedAfter(r: Recorded, left: seq<int>, x: int, n: nat)
    requires Inv(r) && AtTurn(r.m, left, x) && |left| == 3
    requires NoneCompleted(Ticks(r.m, n), left) && !NoneCompleted(Ticks(r.m, n + 1), left)
    ensures var s := Ticks(r.m, n + 1);
            var other := Picked(s) - 1;
            && other in left && other != left[1] && 0 <= other < |s.tasks|
            && var length := DispatchLength(s, s.tasks[other].pcb.remaining);
            && length >= 1 && ServedFirstAt(r.m, left[1] + 1, n + 1 + length)
  {
    hide Inv, Tick, Ticks, Picked, AtTurn, NoneCompleted, DispatchLength, ServedFirstAt;
    var other := FirstOfThreeCompleted(r, left, x, n);
    forall j: nat | j < n + 1 ensures Picked(Ticks(r.m, j)) != left[1] + 1 {
      NotServedBefore(r, left, x, n, j);
    }
    InvTicks(r, n + 1);
    var s := After(r, n + 1);
    ServedAfterOther(s, left[1], other);
    ServedLater(r.m, n + 1, left[1] + 1, DispatchLength(s.m, s.m.tasks[other].pcb.remaining));
  }

  // From the start of a run.

  function Everyone(n: nat): (at: seq<int>)
    ensures |at| == n && forall j :: 0 <= j < n ==> at[j] == j
  {
    seq(n, j => j)
  }

  lemma EveryoneIsIn(n: nat)
    ensures forall i :: i in Everyone(n) <==> 0 <= i < n
  {
    forall i | 0 <= i < n ensures i in Everyone(n) {
      assert Everyone(n)[i] == i;
    }
  }

  lemma RunningIsRunning(m: Machine)
    requires Linked(m)
    ensures m.running != -1 ==> HasTask(m, m.running) && m.tasks[m.running - 1].pcb.state.Running?
  {
  }

  /** Two or more processes that are all due at the first step of a Round Robin run. */
  ghost predicate AllReadyAtStart(r: Recorded) {
    && FixedBeforeStart(r) && r.m.algo.RoundRobin? && r.m.lastIndex == -1 && |r.m.tasks| >= 2
    && forall i :: 0 <= i < |r.m.tasks| ==> r.m.tasks[i].pcb.arrival <= 1
  }

  lemma DueAtFirstStep(r: Recorded)
    requires AllReadyAtStart(r)
    ensures Linked(r.m) && r.m.running == -1
    ensures forall i :: 0 <= i < |r.m.tasks| ==>
              r.m.tasks[i].pcb.state.New? && r.m.tasks[i].pcb.remaining == r.m.tasks[i].pcb.burst > 0
              && Arrived(r.m).tasks[i].pcb.state.Ready?
  {
    RunningIsRunning(r.m);
    forall i | 0 <= i < |r.m.tasks|
      ensures r.m.tasks[i].pcb.state.New? && r.m.tasks[i].pcb.remaining == r.m.tasks[i].pcb.burst > 0
      ensures Arrived(r.m).tasks[i].pcb.state.Ready?
    {
      assert TaskInv(r.m.tasks[i], r.added[i], r.m.now);
      ArrivedTask(r.m, i);
    }
  }

  lemma FirstPick(m: Machine)
    requires Linked(m) && m.running == -1 && m.algo.RoundRobin? && m.lastIndex == -1 && m.tasks != []
    requires forall i :: 0 <= i < |m.tasks| ==> Arrived(m).tasks[i].pcb.state.Ready?
    ensures Picked(m) == 1 && Choose(m.algo, m.lastIndex, ReadyList(m)).1 == 0
  {
    ArrivedPids(m);
    hide Arrived, ReadyList, Choose, Linked;
    EveryoneIsIn(|m.tasks|);
    ReadyListIs(m, Everyone(|m.tasks|));
    ChooseNext(-1, ReadyList(m));
    NextIndex(-1, |m.tasks|);
  }

  /** The first dispatch goes to the lowest pid. */
  lemma FirstDispatch(r: Recorded)
    requires AllReadyAtStart(r)
    ensures Picked(r.m) == 1 && Runner(r.m) == 1 && Tick(r.m).lastIndex == 0
  {
    DueAtFirstStep(r);
    hide Inv, Linked, Tick, Choose, ReadyList, Arrived;
    FirstPick(r.m);
    TickIndex(r.m);
    NoPickWhileRunning(r.m);
  }

  /** After the first step the second process is READY, and with three or more the turns have begun. */
  lemma TurnsBegin(r: Recorded)
    requires AllReadyAtStart(r)
    ensures Inv(Apply(r, Step)) && Ticks(r.m, 1) == Tick(r.m)
    ensures |Tick(r.m).tasks| == |r.m.tasks| && Tick(r.m).tasks[1].pcb.state.Ready?
    ensures |r.m.tasks| >= 3 ==> AtTurn(Tick(r.m), Everyone(|r.m.tasks|), 0)
  {
    hide Inv, Linked, Tick, Picked, Runner, Arrived, AtTurn;
    DueAtFirstStep(r);
    FirstDispatch(r);
    InvStep(r);
    InvLinked(Apply(r, Step));
    FirstTurn(r, Tick(r.m));
    assert Ticks(r.m, 0) == r.m;
  }

  lemma FirstTurn(r: Recorded, n: Machine)
    requires Linked(r.m) && Follows(r.m, n) && Linked(n) && |r.m.tasks| >= 2 && r.m.algo.RoundRobin?
    requires n.lastIndex == 0 && Runner(r.m) == 1 && Picked(r.m) == 1 && r.m.running == -1
    requires forall i :: 0 <= i < |r.m.tasks| ==> r.m.tasks[i].pcb.state.New? && Arrived(r.m).tasks[i].pcb.state.Ready?
    ensures |n.tasks| >= 3 ==> AtTurn(n, Everyone(|n.tasks|), 0)
    ensures n.tasks[1].pcb.state.Ready?
  {
    hide Runner, Picked, Linked, Arrived, Stepped;
    forall i | 0 <= i < |r.m.tasks|
      ensures if i == 0 then n.tasks[i].pcb.state.Running? || n.tasks[i].pcb.state.Terminated?
              else n.tasks[i].pcb.state.Ready?
    {
      ArrivedTask(r.m, i);
      FirstStepOf(r.m, i);
    }
    hide Follows;
    EveryoneIsIn(|n.tasks|);
  }

  lemma FirstStepOf(m: Machine, i: int)
    requires Linked(m) && Runner(m) == 1 && Picked(m) == 1 && m.running == -1 && 0 <= i < |m.tasks|
    requires m.tasks[i].pcb.state.New? && |Arrived(m).tasks| == |m.tasks| && Arrived(m).tasks[i].pcb.state.Ready?
    ensures if i == 0 then Stepped(m, i).pcb.state.Running? || Stepped(m, i).pcb.state.Terminated?
            else Stepped(m, i).pcb.state.Ready?
  {
    ArrivedTask(m, i);
    SteppedByRole(m, i);
    SteppedLinked(m, i);
    hide Stepped, Runner, Picked, Arrived;
  }

  ghost predicate SomeCompleted(m: Machine) {
    exists i :: 0 <= i < |m.tasks| && m.tasks[i].pcb.state.Terminated?
  }

  /** Process pid is dispatched by a step before which nobody has completed. */
  ghost predicate ServedBeforeCompletion(m: Machine, pid: int, n: nat) {
    Picked(Ticks(m, n)) == pid && !SomeCompleted(Ticks(m, n))
  }

  lemma NotServedAmongThree(r: Recorded, n: nat)
    requires AllReadyAtStart(r) && |r.m.tasks| >= 3
    ensures !ServedBeforeCompletion(r.m, 2, n)
  {
    hide Tick, Picked, Runner, AtTurn, Inv, AllReadyAtStart;
    FirstDispatch(r);
    TurnsBegin(r);
    assert Ticks(r.m, 0) == r.m;
    hide Ticks;
    if n > 0 && !SomeCompleted(Ticks(r.m, n)) {
      var s, left := Apply(r, Step), Everyone(|r.m.tasks|);
      TicksAdd(r.m, 1, n - 1);
      InvTicks(s, n - 1);
      if n > 1 { NoneCompletedBefore(s, left, n - 2, n - 1); }
      SecondIsPassedOver(s, left, 0, n - 1);
    }
  }

  /** Of two processes, the second is served when the first outlasts its slice. */
  lemma ServedOfTwo(r: Recorded)
    requires AllReadyAtStart(r) && |r.m.tasks| == 2 && r.m.tasks[0].pcb.burst > Slice(r.m.quantum)
    ensures ServedBeforeCompletion(r.m, 2, Slice(r.m.quantum))
  {
    hide Tick, Ticks, Picked, Inv, Runner;
    DueAtFirstStep(r);
    FirstDispatch(r);
    var n := Slice(r.m.quantum);
    SliceInTicks(r);
    assert DispatchLength(r.m, r.m.tasks[0].pcb.remaining) == n;
    InvTicks(r, n);
    SecondReadyAfter(r, n);
    ExpiredAmongTwo(After(r, n));
  }

  lemma ExpiredAmongTwo(s: Recorded)
    requires Inv(s) && |s.m.tasks| == 2 && DispatchOver(s.m, 0, false) && s.m.tasks[1].pcb.state.Ready?
    ensures Picked(s.m) == 2 && !SomeCompleted(s.m)
  {
    SteppedByRole(s.m, 0);
    PicksTheOnlyOne(s.m, 1);
    hide Picked;
  }

  lemma SecondReadyAfter(r: Recorded, n: nat)
    requires AllReadyAtStart(r) && n >= 1
    requires forall j: nat :: j < n ==> Runner(Ticks(r.m, j)) == 1
    ensures |Ticks(r.m, n).tasks| == |r.m.tasks| && Ticks(r.m, n).tasks[1].pcb.state.Ready?
  {
    assert |r.m.tasks| >= 2;
    hide Tick, Ticks, Picked, Inv, Runner, AllReadyAtStart;
    TurnsBegin(r);
    var s := Apply(r, Step);
    forall j: nat | j < n - 1 ensures Runner(Ticks(s.m, j)) != 2 {
      TicksAdd(r.m, 1, j);
      assert Runner(Ticks(r.m, j + 1)) == 1;
    }
    UntouchedWhile(s, 1, n - 1);
    TicksAdd(r.m, 1, n - 1);
  }

  /** A first process that fits its slice completes before the second is dispatched. */
  lemma NotServedAfterShortFirst(r: Recorded, n: nat)
    requires AllReadyAtStart(r) && r.m.tasks[0].pcb.burst <= Slice(r.m.quantum)
    ensures !ServedBeforeCompletion(r.m, 2, n)
  {
    hide Tick, Ticks, Picked, Inv, Runner;
    DueAtFirstStep(r);
    FirstDispatch(r);
    SliceInTicks(r);
    var burst := r.m.tasks[0].pcb.burst;
    assert DispatchLength(r.m, r.m.tasks[0].pcb.remaining) == burst;
    if n < burst {
      assert Runner(Ticks(r.m, n)) == 1;
      NoPickWhileRunning(Ticks(r.m, n));
    } else {
      assert Ticks(r.m, burst).tasks[0].pcb.state.Terminated?;
      CompletedLater(r, burst, n, 0);
    }
  }

  /**
   When the second process gets a turn. Of two or more processes that are ready together, pid 2
   is dispatched no later than the first completion exactly when there are only two of them and
   the first does not fit its first slice.
  */
  lemma SecondIsServedIff(r: Recorded)
    requires AllReadyAtStart(r)
    ensures (exists n: nat :: ServedBeforeCompletion(r.m, 2, n))
            <==> |r.m.tasks| == 2 && r.m.tasks[0].pcb.burst > Slice(r.m.quantum)
  {
    hide ServedBeforeCompletion;
    if |r.m.tasks| >= 3 {
      forall n: nat ensures !ServedBeforeCompletion(r.m, 2, n) { NotServedAmongThree(r, n); }
    } else if r.m.tasks[0].pcb.burst > Slice(r.m.quantum) {
      ServedOfTwo(r);
    } else {
      forall n: nat ensures !ServedBeforeCompletion(r.m, 2, n) { NotServedAfterShortFirst(r, n); }
    }
  }

  lemma {:induction false} AddsOnly(algo: SchedulingAlgorithm, quantum: int, adds: seq<Event>)
    requires forall e :: e in adds ==> e.Add?
    ensures var m := Play(Begin(algo, quantum), adds).m;
            m.now == 0 && m.running == -1 && m.lastIndex == -1 && m.algo == algo && m.quantum == quantum
    ensures SwitchesWhenIdle(Begin(algo, quantum), adds)
  {
    if adds != [] {
      assert adds[|adds| - 1] in adds;
      AddsOnly(algo, quantum, adds[..|adds| - 1]);
    }
  }

  /**
   The same from the calls alone: two or more processes with arrivals of at most 1 are added to a
   new Round Robin simulation. The first step dispatches the one added first, and the second is
   dispatched no later than the first completion exactly when there are only two and the burst of
   the first is more than max(1, quantum).
  */
  lemma SecondIsServedFromStart(quantum: int, adds: seq<Event>)
    requires (forall e :: e in adds ==> e.Add?) && |Accepted(adds)| >= 2
    requires forall i :: 0 <= i < |Accepted(adds)| ==> Accepted(adds)[i].arrival <= 1
    ensures var m := Play(Begin(RoundRobin, quantum), adds).m;
            && Picked(m) == 1
            && ((exists n: nat :: ServedBeforeCompletion(m, 2, n))
                <==> |Accepted(adds)| == 2 && Accepted(adds)[0].burst > (if quantum > 1 then quantum else 1))
  {
    var r := Play(Begin(RoundRobin, quantum), adds);
    AddsOnly(RoundRobin, quantum, adds);
    Reachable(RoundRobin, quantum, adds);
    TableOfAccepted(RoundRobin, quantum, adds);
    hide Inv, Linked, ServedBeforeCompletion, Picked, Play, Accepted;
    FirstDispatch(r);
    SecondIsServedIff(r);
  }
}
