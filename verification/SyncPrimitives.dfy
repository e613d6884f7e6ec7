/** The counting semaphore and the hand-off mutex: the objects, their runs, and the laws of the runs. */
module SyncPrimitives {
  import opened KernelTypes

  datatype SemState = SemState(count: int, queue: seq<int>)

  datatype SemOp = Wait(pid: int) | Signal

  function SemStart(initial: int): SemState {
    SemState(Max(initial, 0), [])
  }

  function SemStep(s: SemState, op: SemOp): SemState {
    match op
    case Wait(p) => if s.count > 0 then s.(count := s.count - 1) else s.(queue := s.queue + [p])
    case Signal => if s.queue != [] then s.(queue := s.queue[1..]) else s.(count := s.count + 1)
  }

  /** The process that an operation lets through: the caller at once, or the one woken. */
  function Granted(s: SemState, op: SemOp): seq<int> {
    match op
    case Wait(p) => if s.count > 0 then [p] else []
    case Signal => if s.queue != [] then [s.queue[0]] else []
  }

  function SemRun(initial: int, ops: seq<SemOp>): SemState {
    if ops == [] then SemStart(initial) else SemStep(SemRun(initial, ops[..|ops| - 1]), ops[|ops| - 1])
  }

  /** All grants of a run, in the order in which they happen. */
  function Grants(initial: int, ops: seq<SemOp>): seq<int> {
    if ops == [] then []
    else Grants(initial, ops[..|ops| - 1]) + Granted(SemRun(initial, ops[..|ops| - 1]), ops[|ops| - 1])
  }

  function Asking(op: SemOp): seq<int> {
    if op.Wait? then [op.pid] else []
  }

  /** The callers of wait, in order. */
  function Waiters(ops: seq<SemOp>): seq<int> {
    if ops == [] then []
    else Waiters(ops[..|ops| - 1]) + Asking(ops[|ops| - 1])
  }

  function Signals(ops: seq<SemOp>): nat {
    if ops == [] then 0 else Signals(ops[..|ops| - 1]) + (if ops[|ops| - 1].Signal? then 1 else 0)
  }

  /** One operation: who was queued or asks now is let through or stays queued, in that order. */
  lemma SemStepBalance(s: SemState, op: SemOp)
    requires s.count >= 0 && (s.queue != [] ==> s.count == 0)
    ensures var n := SemStep(s, op);
            && s.queue + Asking(op) == Granted(s, op) + n.queue
            && n.count - |n.queue| == s.count - |s.queue| + (if op.Signal? then 1 else -1)
            && n.count >= 0 && (n.queue != [] ==> n.count == 0)
  {
    if s.queue != [] { assert s.queue == [s.queue[0]] + s.queue[1..]; }
  }

  lemma Regroup(g: seq<int>, q: seq<int>, w: seq<int>, a: seq<int>, n: seq<int>)
    requires q + w == a + n
    ensures (g + q) + w == (g + a) + n
  {
    assert (g + q) + w == g + (q + w);
    assert (g + a) + n == g + (a + n);
  }

  lemma {:induction false} SemHistoryInvariant(initial: int, ops: seq<SemOp>)
    ensures var s := SemRun(initial, ops);
            && Waiters(ops) == Grants(initial, ops) + s.queue
            && s.count - |s.queue| == Max(initial, 0) + Signals(ops) - |Waiters(ops)|
            && s.count >= 0 && (s.queue != [] ==> s.count == 0)
  {
    if ops != [] {
      var front, op := ops[..|ops| - 1], ops[|ops| - 1];
      SemHistoryInvariant(initial, front);
      var s := SemRun(initial, front);
      SemStepBalance(s, op);
      Regroup(Grants(initial, front), s.queue, Asking(op), Granted(s, op), SemStep(s, op).queue);
      assert Grants(initial, ops) == Grants(initial, front) + Granted(s, op);
      assert Waiters(ops) == Waiters(front) + Asking(op);
      assert SemRun(initial, ops) == SemStep(s, op);
      hide SemStep, Granted, Waiters, Grants, SemRun;
    }
  }

  /**
   The semaphore's history law: grants happen in exactly the order of the waits, there are
   min(waits, initial + signals) of them, and the counter is what the calls make it.
  */
  lemma SemaphoreHistory(initial: int, ops: seq<SemOp>)
    ensures var s, n := SemRun(initial, ops), |Grants(initial, ops)|;
            && n <= |Waiters(ops)| && Grants(initial, ops) == Waiters(ops)[..n]
            && s.queue == Waiters(ops)[n..]
            && n == (if |Waiters(ops)| < Max(initial, 0) + Signals(ops) then |Waiters(ops)|
                     else Max(initial, 0) + Signals(ops))
            && s.count - |s.queue| == Max(initial, 0) + Signals(ops) - |Waiters(ops)|
            && s.count >= 0 && (s.queue != [] ==> s.count == 0)
  {
    SemHistoryInvariant(initial, ops);
  }

  class Semaphore {
    var count: int
    var waitingProcesses: seq<int>

    function State(): SemState
      reads this
    {
      SemState(count, waitingProcesses)
    }

    constructor (initialCount: int)
      ensures State() == SemStart(initialCount)
    {
      count := if initialCount < 0 then 0 else initialCount;
      waitingProcesses := [];
    }

    method Wait(processId: int) returns (acquired: bool)
      modifies this
      ensures State() == SemStep(old(State()), SemOp.Wait(processId))
      ensures acquired <==> Granted(old(State()), SemOp.Wait(processId)) == [processId]
    {
      if count > 0 {
        count := count - 1;
        return true;
      } else {
        waitingProcesses := waitingProcesses + [processId];
        return false;
      }
    }

    method Signal() returns (woken: int)
      modifies this
      ensures State() == SemStep(old(State()), SemOp.Signal)
      ensures Granted(old(State()), SemOp.Signal) == if old(waitingProcesses) == [] then [] else [woken]
      ensures old(waitingProcesses) == [] ==> woken == -1
    {
      if waitingProcesses != [] {
        woken := waitingProcesses[0];
        waitingProcesses := waitingProcesses[1..];
      } else {
        count := count + 1;
        woken := -1;
      }
    }

    method IsProcessWaiting(processId: int) returns (waiting: bool)
      ensures waiting <==> processId in waitingProcesses
    {
      waiting := QueueContains(waitingProcesses, processId);
    }
  }

  /** Emptying a copy of the queue in search of a process. */
  method QueueContains(queue: seq<int>, processId: int) returns (found: bool)
    ensures found <==> processId in queue
  {
    var copy := queue;
    while copy != []
      invariant processId in queue <==> processId in copy
      decreases |copy|
    {
      if copy[0] == processId {
        return true;
      }
      copy := copy[1..];
    }
    return false;
  }

  // The mutex.

  datatype MutexState = MutexState(owner: int, queue: seq<int>)

  datatype MutexOp = Lock(pid: int) | Unlock(pid: int)

  const FREE_MUTEX := MutexState(-1, [])

  function MutexStep(s: MutexState, op: MutexOp): MutexState {
    match op
    case Lock(p) =>
      if s.owner == -1 then s.(owner := p)
      else if s.owner == p then s
      else s.(queue := s.queue + [p])
    case Unlock(p) =>
      if s.owner != p then s
      else if s.queue != [] then MutexState(s.queue[0], s.queue[1..])
      else s.(owner := -1)
  }

  function MutexRun(s: MutexState, ops: seq<MutexOp>): MutexState {
    if ops == [] then s else MutexStep(MutexRun(s, ops[..|ops| - 1]), ops[|ops| - 1])
  }

  /** A waited-for mutex is owned, by no one who waits for it, and no one waits twice. */
  ghost predicate MutexInv(s: MutexState) {
    && (s.queue != [] ==> s.owner != -1)
    && s.owner !in s.queue && -1 !in s.queue
    && forall j, k :: 0 <= j < k < |s.queue| ==> s.queue[j] != s.queue[k]
  }

  /** The caller's side of an operation: no process waits for the mutex when it locks it. */
  predicate MutexOpAllowed(s: MutexState, op: MutexOp) {
    op.pid != -1 && (op.Lock? ==> op.pid !in s.queue)
  }

  /** A lock keeps the invariant exactly when the caller is not already waiting. */
  lemma LockKeepsInvIff(s: MutexState, p: int)
    requires MutexInv(s) && p != -1
    ensures MutexInv(MutexStep(s, Lock(p))) <==> p !in s.queue
  {
    var n := MutexStep(s, Lock(p));
    if p in s.queue {
      var k :| 0 <= k < |s.queue| && s.queue[k] == p;
      assert n.queue[k] == p && n.queue[|s.queue|] == p;
    }
  }

  lemma MutexStepKeepsInv(s: MutexState, op: MutexOp)
    requires MutexInv(s) && MutexOpAllowed(s, op)
    ensures MutexInv(MutexStep(s, op))
  {
    match op
    case Lock(p) => LockKeepsInvIff(s, p);
    case Unlock(p) =>
      if s.queue != [] { assert s.queue[0] in s.queue && forall x :: x in s.queue[1..] ==> x in s.queue; }
  }

  predicate MutexOpsAllowed(s: MutexState, ops: seq<MutexOp>) {
    ops == [] || (MutexOpsAllowed(s, ops[..|ops| - 1]) && MutexOpAllowed(MutexRun(s, ops[..|ops| - 1]), ops[|ops| - 1]))
  }

  /** How many operations of a run were unlocks by the owner. */
  function OwnerUnlocks(s: MutexState, ops: seq<MutexOp>): nat {
    if ops == [] then 0
    else
      var front, op := ops[..|ops| - 1], ops[|ops| - 1];
      OwnerUnlocks(s, front) + (if op.Unlock? && MutexRun(s, front).owner == op.pid then 1 else 0)
  }

  lemma {:induction false} MutexRunKeepsInv(s: MutexState, ops: seq<MutexOp>)
    requires MutexInv(s) && MutexOpsAllowed(s, ops)
    ensures MutexInv(MutexRun(s, ops))
  {
    if ops != [] {
      MutexRunKeepsInv(s, ops[..|ops| - 1]);
      MutexStepKeepsInv(MutexRun(s, ops[..|ops| - 1]), ops[|ops| - 1]);
    }
  }

  /** In every run from a free mutex, a waited-for mutex is owned and never by a waiting process. */
  lemma MutexAlwaysHandedOff(ops: seq<MutexOp>)
    requires MutexOpsAllowed(FREE_MUTEX, ops)
    ensures var s := MutexRun(FREE_MUTEX, ops);
            (s.queue != [] ==> s.owner != -1) && s.owner !in s.queue
            && forall j, k :: 0 <= j < k < |s.queue| ==> s.queue[j] != s.queue[k]
  {
    MutexRunKeepsInv(FREE_MUTEX, ops);
  }

  /** An unlock by the owner moves every waiter up one place, and no other operation moves any. */
  lemma PlaceAfter(s: MutexState, op: MutexOp, j: nat)
    requires j < |s.queue|
    ensures var n := MutexStep(s, op);
            if op.Unlock? && s.owner == op.pid then
              n.owner == s.queue[0] && |n.queue| == |s.queue| - 1 && (j > 0 ==> n.queue[j - 1] == s.queue[j])
            else
              |n.queue| >= |s.queue| && n.queue[j] == s.queue[j] && (s.owner != -1 ==> n.owner == s.owner)
  {
  }

  lemma OwnerIsNotAt(s: MutexState, j: nat)
    requires MutexInv(s) && j < |s.queue|
    ensures s.owner != -1 && s.owner != s.queue[j] && s.queue[j] != -1
  {
    assert s.queue[j] in s.queue;
  }

  /**
   Turn taking: the waiter at position k moves up one place with every unlock by the owner, in
   every run, and owns the mutex after exactly k + 1 of them.
  */
  lemma {:induction false} WaiterServedInTurn(s: MutexState, ops: seq<MutexOp>, k: nat)
    requires MutexInv(s) && MutexOpsAllowed(s, ops) && k < |s.queue|
    ensures var n, u := MutexRun(s, ops), OwnerUnlocks(s, ops);
            && (u <= k ==> k - u < |n.queue| && n.queue[k - u] == s.queue[k] && n.owner != s.queue[k])
            && (u == k + 1 ==> n.owner == s.queue[k])
  {
    hide MutexInv, MutexOpAllowed, MutexStep;
    OwnerIsNotAt(s, k);
    if ops != [] {
      var front, op := ops[..|ops| - 1], ops[|ops| - 1];
      WaiterServedInTurn(s, front, k);
      MutexRunKeepsInv(s, front);
      MutexRunKeepsInv(s, ops);
      var before, v := MutexRun(s, front), OwnerUnlocks(s, front);
      if v <= k {
        PlaceAfter(before, op, k - v);
        if OwnerUnlocks(s, ops) <= k { OwnerIsNotAt(MutexRun(s, ops), k - OwnerUnlocks(s, ops)); }
      } else if v == k + 1 && OwnerUnlocks(s, ops) == v {
        OwnerStays(before, op);
      }
    }
  }

  lemma OwnerStays(s: MutexState, op: MutexOp)
    requires s.owner != -1 && !(op.Unlock? && s.owner == op.pid)
    ensures MutexStep(s, op).owner == s.owner
  {
  }

  // The history law of the mutex.

  /** The operation makes a process the owner: a lock of a free mutex, or a hand-off by the owner. */
  predicate HandsOver(s: MutexState, op: MutexOp) {
    match op
    case Lock(_) => s.owner == -1
    case Unlock(p) => s.owner == p && s.queue != []
  }

  /** The owners that a run has made, in order. */
  function Owners(ops: seq<MutexOp>): seq<int> {
    if ops == [] then []
    else
      var front, op := ops[..|ops| - 1], ops[|ops| - 1];
      Owners(front) + (if HandsOver(MutexRun(FREE_MUTEX, front), op) then [MutexRun(FREE_MUTEX, ops).owner] else [])
  }

  /** The callers of lock that did not own the mutex already, in order. */
  function Callers(ops: seq<MutexOp>): seq<int> {
    if ops == [] then []
    else
      var front, op := ops[..|ops| - 1], ops[|ops| - 1];
      Callers(front) + (if op.Lock? && MutexRun(FREE_MUTEX, front).owner != op.pid then [op.pid] else [])
  }

  lemma MutexStepBalance(s: MutexState, op: MutexOp)
    requires op.pid != -1 && (s.queue != [] ==> s.owner != -1) && -1 !in s.queue
    ensures var n := MutexStep(s, op);
            && s.queue + (if op.Lock? && s.owner != op.pid then [op.pid] else [])
               == (if HandsOver(s, op) then [n.owner] else []) + n.queue
            && (!HandsOver(s, op) ==> n.owner == if op.Unlock? && s.owner == op.pid then -1 else s.owner)
            && (n.queue != [] ==> n.owner != -1) && -1 !in n.queue && (HandsOver(s, op) ==> n.owner != -1)
  {
    if s.queue != [] {
      assert s.queue == [s.queue[0]] + s.queue[1..] && s.queue[0] in s.queue;
      assert forall x :: x in s.queue[1..] ==> x in s.queue;
    }
  }

  /**
   The mutex's history law, for every run of real processes from a free mutex, whether or not a
   waiting process locks again: the owners made so far, followed by the queue, are exactly the
   callers that did not own it, in call order. The mutex is owned by the last of them until as many
   unlocks by owners have happened, and nobody waits for a free mutex.
  */
  lemma {:induction false} MutexHistory(ops: seq<MutexOp>)
    requires forall op :: op in ops ==> op.pid != -1
    ensures var s := MutexRun(FREE_MUTEX, ops);
            && Owners(ops) + s.queue == Callers(ops)
            && |Owners(ops)| - OwnerUnlocks(FREE_MUTEX, ops) == (if s.owner == -1 then 0 else 1)
            && (s.owner != -1 ==> Owners(ops) != [] && Owners(ops)[|Owners(ops)| - 1] == s.owner)
            && (s.queue != [] ==> s.owner != -1) && -1 !in s.queue
  {
    if ops != [] {
      var front, op := ops[..|ops| - 1], ops[|ops| - 1];
      assert op in ops;
      MutexHistory(front);
      var s, n := MutexRun(FREE_MUTEX, front), MutexRun(FREE_MUTEX, ops);
      MutexStepBalance(s, op);
      var asks := if op.Lock? && s.owner != op.pid then [op.pid] else [];
      var made := if HandsOver(s, op) then [n.owner] else [];
      Regroup(Owners(front), s.queue, asks, made, n.queue);
      assert Owners(ops) == Owners(front) + made && Callers(ops) == Callers(front) + asks;
      hide MutexStep;
    }
  }

  /** A lock of a free mutex makes the caller its owner at once, in every run. */
  lemma FreeMutexIsAcquired(ops: seq<MutexOp>, p: int)
    requires (forall op :: op in ops ==> op.pid != -1) && p != -1
    requires MutexRun(FREE_MUTEX, ops).owner == -1
    ensures MutexRun(FREE_MUTEX, ops + [MutexOp.Lock(p)]) == MutexState(p, [])
  {
    var all := ops + [MutexOp.Lock(p)];
    assert all[..|ops|] == ops;
    MutexHistory(ops);
    MutexHistory(all);
    hide MutexStep;
    assert Callers(all) == Callers(ops) + [p];
    assert Owners(all) == Owners(ops) + [MutexRun(FREE_MUTEX, all).owner];
  }

  class Mutex {
    var owner: int
    var waitingProcesses: seq<int>

    function State(): MutexState
      reads this
    {
      MutexState(owner, waitingProcesses)
    }

    constructor ()
      ensures State() == FREE_MUTEX
    {
      owner, waitingProcesses := -1, [];
    }

    method Lock(processId: int) returns (acquired: bool)
      modifies this
      ensures State() == MutexStep(old(State()), MutexOp.Lock(processId))
      ensures acquired <==> owner == processId
    {
      if owner == -1 {
        owner := processId;
        return true;
      } else if owner == processId {
        return true;
      } else {
        waitingProcesses := waitingProcesses + [processId];
        return false;
      }
    }

    method Unlock(processId: int) returns (woken: int)
      modifies this
      ensures State() == MutexStep(old(State()), MutexOp.Unlock(processId))
      ensures woken == if old(owner) == processId then (if old(waitingProcesses) == [] then -1 else owner) else -1
    {
      if owner != processId {
        return -1;
      }
      owner := -1;
      if waitingProcesses != [] {
        woken := waitingProcesses[0];
        waitingProcesses := waitingProcesses[1..];
        owner := woken;
        return woken;
      }
      return -1;
    }

    method IsProcessWaiting(processId: int) returns (waiting: bool)
      ensures waiting <==> processId in waitingProcesses
    {
      waiting := QueueContains(waitingProcesses, processId);
    }
  }
}
