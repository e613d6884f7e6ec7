/** The manager of semaphores and mutexes: cleanup of a finished process and the deadlock detector. */
module SyncManagement {
  import opened SyncPrimitives
  import opened Sums

  datatype SyncState = SyncState(sems: map<int, SemState>, mtxs: map<int, MutexState>)

  /** Calls on the manager and on the objects it hands out; an unknown id changes nothing. */
  datatype SyncCall =
    | NewSemaphore(id: int, initial: int)
    | NewMutex(id: int)
    | OnSemaphore(id: int, sem: SemOp)
    | OnMutex(id: int, mtx: MutexOp)
    | DropSemaphore(id: int)
    | DropMutex(id: int)

  function SyncApply(s: SyncState, c: SyncCall): SyncState {
    match c
    case NewSemaphore(id, initial) => s.(sems := s.sems[id := SemStart(initial)])
    case NewMutex(id) => s.(mtxs := s.mtxs[id := FREE_MUTEX])
    case OnSemaphore(id, op) => if id in s.sems then s.(sems := s.sems[id := SemStep(s.sems[id], op)]) else s
    case OnMutex(id, op) => if id in s.mtxs then s.(mtxs := s.mtxs[id := MutexStep(s.mtxs[id], op)]) else s
    case DropSemaphore(id) => s.(sems := s.sems - {id})
    case DropMutex(id) => s.(mtxs := s.mtxs - {id})
  }

  predicate IsWaiting(s: SyncState, p: int) {
    (exists id :: id in s.sems && p in s.sems[id].queue) || (exists id :: id in s.mtxs && p in s.mtxs[id].queue)
  }

  /** Some process owns a mutex and waits for a semaphore or a mutex. */
  predicate HoldsAndWaits(s: SyncState) {
    exists id :: id in s.mtxs && s.mtxs[id].owner != -1 && IsWaiting(s, s.mtxs[id].owner)
  }

  /** A wait on an exhausted semaphore is all that a call on a semaphore adds to the waiting processes. */
  lemma WaitMakesWaiting(s: SyncState, id: int, q: int, p: int)
    requires id in s.sems
    ensures IsWaiting(SyncApply(s, OnSemaphore(id, Wait(q))), p) <==> IsWaiting(s, p) || (p == q && s.sems[id].count <= 0)
  {
    var n := SyncApply(s, OnSemaphore(id, Wait(q)));
    SameElsewhere(s, n, id);
    var a, b := s.sems[id].queue, n.sems[id].queue;
    assert forall x :: x in b <==> x in a || (x == q && s.sems[id].count <= 0);
    if x :| x in s.sems && p in s.sems[x].queue { assert p in n.sems[x].queue; }
    if p == q && s.sems[id].count <= 0 { assert p in n.sems[id].queue; }
  }

  lemma SameElsewhere(s: SyncState, n: SyncState, id: int)
    requires id in s.sems && id in n.sems && n.sems == s.sems[id := n.sems[id]]
    ensures forall x :: x in s.sems <==> x in n.sems
    ensures forall x :: x in s.sems && x != id ==> n.sems[x] == s.sems[x]
  {
  }

  /** A lock of a mutex owned by another process is all that a lock adds to them. */
  lemma LockMakesWaiting(s: SyncState, id: int, q: int, p: int)
    requires id in s.mtxs
    ensures IsWaiting(SyncApply(s, OnMutex(id, Lock(q))), p)
            <==> IsWaiting(s, p) || (p == q && s.mtxs[id].owner != -1 && s.mtxs[id].owner != q)
  {
    var n := SyncApply(s, OnMutex(id, Lock(q)));
    var blocks := s.mtxs[id].owner != -1 && s.mtxs[id].owner != q;
    assert forall x :: x in n.mtxs[id].queue <==> x in s.mtxs[id].queue || (x == q && blocks);
    if x :| x in s.mtxs && p in s.mtxs[x].queue { assert p in n.mtxs[x].queue; }
    if p == q && blocks { assert p in n.mtxs[id].queue; }
  }

  /** The alarm in plain terms: some owner of a mutex stands in the queue of a semaphore or of a mutex. */
  lemma AlarmMeans(s: SyncState)
    ensures HoldsAndWaits(s) <==>
              exists held :: held in s.mtxs && s.mtxs[held].owner != -1
                && ((exists id :: id in s.sems && s.mtxs[held].owner in s.sems[id].queue)
                    || (exists id :: id in s.mtxs && s.mtxs[held].owner in s.mtxs[id].queue))
  {
  }

  predicate Owns(s: SyncState, p: int) {
    p != -1 && exists id :: id in s.mtxs && s.mtxs[id].owner == p
  }

  /** A wait raises the alarm exactly when the semaphore is exhausted and the caller owns a mutex. */
  lemma AlarmAfterWait(s: SyncState, id: int, q: int)
    requires id in s.sems
    ensures HoldsAndWaits(SyncApply(s, OnSemaphore(id, Wait(q)))) <==> HoldsAndWaits(s) || (Owns(s, q) && s.sems[id].count <= 0)
  {
    var n := SyncApply(s, OnSemaphore(id, Wait(q)));
    assert n.mtxs == s.mtxs;
    forall x | x in s.mtxs
      ensures IsWaiting(n, s.mtxs[x].owner) <==> IsWaiting(s, s.mtxs[x].owner) || (s.mtxs[x].owner == q && s.sems[id].count <= 0)
    {
      WaitMakesWaiting(s, id, q, s.mtxs[x].owner);
    }
    hide IsWaiting, SyncApply;
    if x :| x in s.mtxs && s.mtxs[x].owner != -1 && IsWaiting(s, s.mtxs[x].owner) { assert IsWaiting(n, n.mtxs[x].owner); }
    if Owns(s, q) && s.sems[id].count <= 0 {
      var x :| x in s.mtxs && s.mtxs[x].owner == q;
      assert IsWaiting(n, n.mtxs[x].owner);
    }
  }

  /** A lock that blocks raises it exactly when the caller owns a mutex, one that succeeds exactly when the caller waits. */
  lemma AlarmAfterLock(s: SyncState, id: int, q: int)
    requires id in s.mtxs && q != -1
    ensures HoldsAndWaits(SyncApply(s, OnMutex(id, Lock(q)))) <==>
              HoldsAndWaits(s)
              || (s.mtxs[id].owner == -1 && IsWaiting(s, q))
              || (s.mtxs[id].owner != -1 && s.mtxs[id].owner != q && Owns(s, q))
  {
    var n := SyncApply(s, OnMutex(id, Lock(q)));
    var o := s.mtxs[id].owner;
    assert forall x :: x in n.mtxs <==> x in s.mtxs;
    assert forall x :: x in s.mtxs ==> n.mtxs[x].owner == if x == id && o == -1 then q else s.mtxs[x].owner;
    forall p ensures IsWaiting(n, p) <==> IsWaiting(s, p) || (p == q && o != -1 && o != q) {
      LockMakesWaiting(s, id, q, p);
    }
    hide IsWaiting, SyncApply;
    if x :| x in s.mtxs && s.mtxs[x].owner != -1 && IsWaiting(s, s.mtxs[x].owner) { assert IsWaiting(n, n.mtxs[x].owner); }
    if o == -1 && IsWaiting(s, q) { assert IsWaiting(n, n.mtxs[id].owner); }
    if o != -1 && o != q && Owns(s, q) {
      var x :| x in s.mtxs && s.mtxs[x].owner == q;
      assert IsWaiting(n, n.mtxs[x].owner);
    }
    if HoldsAndWaits(n) {
      var x :| x in n.mtxs && n.mtxs[x].owner != -1 && IsWaiting(n, n.mtxs[x].owner);
      assert s.mtxs[x].owner == n.mtxs[x].owner || (x == id && o == -1 && n.mtxs[x].owner == q);
    }
  }

  /** The detector answers true once an owner of a mutex waits for an exhausted semaphore. */
  lemma OwnerAtSemaphoreIsReported(s: SyncState, id: int, held: int)
    requires id in s.sems && s.sems[id].count <= 0 && held in s.mtxs && s.mtxs[held].owner != -1
    ensures HoldsAndWaits(SyncApply(s, OnSemaphore(id, Wait(s.mtxs[held].owner))))
  {
    var p := s.mtxs[held].owner;
    WaitMakesWaiting(s, id, p, p);
    hide IsWaiting;
    assert SyncApply(s, OnSemaphore(id, Wait(p))).mtxs[held].owner == p;
  }

  /** Every mutex of the process is unlocked. */
  function CleanedUp(s: SyncState, p: int): SyncState {
    s.(mtxs := map id | id in s.mtxs :: MutexStep(s.mtxs[id], Unlock(p)))
  }

  ghost predicate AllMutexesInv(s: SyncState) {
    forall id :: id in s.mtxs ==> MutexInv(s.mtxs[id])
  }

  /**
   Cleanup leaves the process owning nothing exactly when it is not first in line for a mutex of
   its own.
  */
  lemma CleanupReleasesIff(s: SyncState, p: int)
    requires p != -1
    ensures (forall id :: id in s.mtxs ==> CleanedUp(s, p).mtxs[id].owner != p)
            <==> (forall id :: id in s.mtxs && s.mtxs[id].owner == p ==> s.mtxs[id].queue == [] || s.mtxs[id].queue[0] != p)
  {
    forall id | id in s.mtxs
      ensures CleanedUp(s, p).mtxs[id].owner == p
              <==> (s.mtxs[id].owner == p && s.mtxs[id].queue != [] && s.mtxs[id].queue[0] == p)
    {
    }
  }

  /** Cleanup promotes the first waiter of each mutex of the process and leaves everything else alone. */
  lemma CleanupPromotes(s: SyncState, p: int)
    requires p != -1 && AllMutexesInv(s)
    ensures var n := CleanedUp(s, p);
            && n.sems == s.sems && n.mtxs.Keys == s.mtxs.Keys && AllMutexesInv(n)
            && forall id :: id in s.mtxs ==>
                 && n.mtxs[id].owner != p
                 && (s.mtxs[id].owner != p ==> n.mtxs[id] == s.mtxs[id])
                 && (s.mtxs[id].owner == p && s.mtxs[id].queue == [] ==> n.mtxs[id] == FREE_MUTEX)
                 && (s.mtxs[id].owner == p && s.mtxs[id].queue != [] ==>
                      [n.mtxs[id].owner] + n.mtxs[id].queue == s.mtxs[id].queue)
  {
    forall id | id in s.mtxs ensures MutexInv(CleanedUp(s, p).mtxs[id]) && CleanedUp(s, p).mtxs[id].owner != p {
      MutexStepKeepsInv(s.mtxs[id], Unlock(p));
      if s.mtxs[id].queue != [] { assert s.mtxs[id].queue[0] in s.mtxs[id].queue; }
    }
  }

  /** Process k waits for a mutex whose owner is process k + 1, around to the first. */
  predicate WaitsForNext(s: SyncState, pids: seq<int>, ids: seq<int>, k: nat)
    requires k < |pids| == |ids|
  {
    && ids[k] in s.mtxs && pids[k] in s.mtxs[ids[k]].queue
    && s.mtxs[ids[k]].owner == pids[if k + 1 == |pids| then 0 else k + 1]
  }

  ghost predicate WaitCycle(s: SyncState, pids: seq<int>, ids: seq<int>) {
    && |pids| == |ids| > 0 && -1 !in pids
    && forall k :: 0 <= k < |pids| ==> WaitsForNext(s, pids, ids, k)
  }

  lemma OwnerWaits(s: SyncState, held: int, wanted: int)
    requires held in s.mtxs && wanted in s.mtxs
    requires s.mtxs[held].owner != -1 && s.mtxs[held].owner in s.mtxs[wanted].queue
    ensures HoldsAndWaits(s)
  {
    assert IsWaiting(s, s.mtxs[held].owner);
  }

  /** No deadlock goes unnoticed: a cycle of any length makes the detector answer true. */
  lemma CycleIsDetected(s: SyncState, pids: seq<int>, ids: seq<int>)
    requires WaitCycle(s, pids, ids)
    ensures HoldsAndWaits(s)
  {
    var next := if |pids| == 1 then 0 else 1;
    assert WaitsForNext(s, pids, ids, 0) && WaitsForNext(s, pids, ids, next) && pids[next] in pids;
    hide HoldsAndWaits;
    OwnerWaits(s, ids[0], ids[next]);
  }

  // When an alarm is right.

  /** The process waits for a mutex whose owner is in the set. */
  predicate WaitsInside(s: SyncState, p: int, within: set<int>) {
    exists id :: id in s.mtxs && p in s.mtxs[id].queue && s.mtxs[id].owner in within
  }

  /** Every process of the set waits for another one of it, so none of them can ever go on. */
  ghost predicate Closed(s: SyncState, stuck: set<int>) {
    stuck != {} && -1 !in stuck && forall p :: p in stuck ==> WaitsInside(s, p, stuck)
  }

  lemma CycleIsClosed(s: SyncState, pids: seq<int>, ids: seq<int>)
    requires WaitCycle(s, pids, ids)
    ensures Closed(s, set p | p in pids)
  {
    var stuck := set p | p in pids;
    assert pids[0] in stuck;
    forall p | p in stuck ensures WaitsInside(s, p, stuck) {
      var k :| 0 <= k < |pids| && pids[k] == p;
      assert WaitsForNext(s, pids, ids, k);
      var next := if k + 1 == |pids| then 0 else k + 1;
      assert pids[next] in pids;
      var id := ids[k];
      assert id in s.mtxs && p in s.mtxs[id].queue && s.mtxs[id].owner in stuck;
    }
  }

  /** A walk along the wait-for graph: each process waits for the mutex that the next one owns. */
  ghost predicate Walk(s: SyncState, pids: seq<int>, ids: seq<int>) {
    |pids| == |ids| + 1
    && forall k :: 0 <= k < |ids| ==> ids[k] in s.mtxs && pids[k] in s.mtxs[ids[k]].queue && s.mtxs[ids[k]].owner == pids[k + 1]
  }

  /** Inside a closed set a walk can always go on. */
  lemma {:induction false} WalkInside(s: SyncState, stuck: set<int>, n: nat) returns (pids: seq<int>, ids: seq<int>)
    requires Closed(s, stuck)
    ensures Walk(s, pids, ids) && |ids| == n && forall k :: 0 <= k < |pids| ==> pids[k] in stuck
  {
    if n == 0 {
      SomeElement(stuck);
      var p :| p in stuck;
      pids, ids := [p], [];
    } else {
      var before, held := WalkInside(s, stuck, n - 1);
      var id := SomeMutexInside(s, before[n - 1], stuck);
      hide Closed, WaitsInside;
      pids, ids := before + [s.mtxs[id].owner], held + [id];
    }
  }

  lemma SomeMutexInside(s: SyncState, p: int, stuck: set<int>) returns (id: int)
    requires Closed(s, stuck) && p in stuck
    ensures id in s.mtxs && p in s.mtxs[id].queue && s.mtxs[id].owner in stuck
  {
    assert WaitsInside(s, p, stuck);
    id :| id in s.mtxs && p in s.mtxs[id].queue && s.mtxs[id].owner in stuck;
  }

  /** A walk that meets itself contains a cycle. */
  lemma WalkThatRepeats(s: SyncState, pids: seq<int>, ids: seq<int>, j: nat, k: nat)
    requires Walk(s, pids, ids) && j < k < |pids| && pids[j] == pids[k] && -1 !in pids
    ensures WaitCycle(s, pids[j..k], ids[j..k])
  {
    var around, held := pids[j..k], ids[j..k];
    forall i | 0 <= i < |around| ensures WaitsForNext(s, around, held, i) {
      assert around[i] == pids[j + i] && held[i] == ids[j + i];
    }
  }

  lemma CycleInside(s: SyncState, stuck: set<int>) returns (pids: seq<int>, ids: seq<int>)
    requires Closed(s, stuck)
    ensures WaitCycle(s, pids, ids)
  {
    pids, ids := WalkInside(s, stuck, |stuck|);
    assert -1 !in stuck;
    hide WaitCycle, Closed, Walk;
    Repeats(pids, stuck);
    var j, k :| 0 <= j < k < |pids| && pids[j] == pids[k];
    WalkThatRepeats(s, pids, ids, j, k);
    pids, ids := pids[j..k], ids[j..k];
  }

  /** There is a cycle of waiting processes exactly when some set of processes is closed. */
  lemma CycleIffClosed(s: SyncState)
    ensures (exists pids, ids :: WaitCycle(s, pids, ids)) <==> (exists stuck :: Closed(s, stuck))
  {
    hide WaitCycle, Closed;
    if pids, ids :| WaitCycle(s, pids, ids) {
      CycleIsClosed(s, pids, ids);
    }
    if stuck :| Closed(s, stuck) {
      var pids, ids := CycleInside(s, stuck);
    }
  }

  /** The processes queued on a mutex. */
  function MutexWaiters(s: SyncState): set<int> {
    set id, p | id in s.mtxs && p in s.mtxs[id].queue && p != -1 :: p
  }

  /** Drop every process that waits for no one left, until nothing more can be dropped. */
  function Pruned(s: SyncState, candidates: set<int>): (rest: set<int>)
    ensures rest <= candidates
    ensures forall p :: p in rest ==> WaitsInside(s, p, rest)
    decreases candidates
  {
    var kept := set p | p in candidates && WaitsInside(s, p, candidates);
    if kept == candidates then candidates else Pruned(s, kept)
  }

  lemma {:induction false} ClosedSurvivesPruning(s: SyncState, stuck: set<int>, candidates: set<int>)
    requires Closed(s, stuck) && stuck <= candidates
    ensures stuck <= Pruned(s, candidates)
    decreases candidates
  {
    var kept := set p | p in candidates && WaitsInside(s, p, candidates);
    forall p | p in stuck ensures p in kept {
      assert WaitsInside(s, p, stuck);
    }
    if kept != candidates { ClosedSurvivesPruning(s, stuck, kept); }
  }

  /** Pruning the waiting processes finds the largest closed set, and nothing when there is none. */
  lemma PruningFindsClosed(s: SyncState)
    ensures (exists stuck :: Closed(s, stuck)) <==> Pruned(s, MutexWaiters(s)) != {}
    ensures forall stuck :: Closed(s, stuck) ==> stuck <= Pruned(s, MutexWaiters(s))
  {
    forall stuck | Closed(s, stuck) ensures stuck <= Pruned(s, MutexWaiters(s)) {
      forall p | p in stuck ensures p in MutexWaiters(s) {
        assert WaitsInside(s, p, stuck);
      }
      ClosedSurvivesPruning(s, stuck, MutexWaiters(s));
    }
    if Pruned(s, MutexWaiters(s)) != {} {
      assert Closed(s, Pruned(s, MutexWaiters(s)));
    }
  }

  /**
   The alarm is exact, true just when there is a cycle, exactly when pruning leaves something or
   no owner waits at all. The condition can be computed before the call.
  */
  lemma AlarmIsExactIff(s: SyncState)
    ensures (HoldsAndWaits(s) <==> exists pids, ids :: WaitCycle(s, pids, ids))
            <==> (HoldsAndWaits(s) ==> Pruned(s, MutexWaiters(s)) != {})
  {
    hide HoldsAndWaits, WaitCycle, Closed, Pruned;
    CycleIffClosed(s);
    PruningFindsClosed(s);
    if pids, ids :| WaitCycle(s, pids, ids) {
      CycleIsDetected(s, pids, ids);
    }
  }

  /** The converse fails: a process that holds one mutex and waits for one whose owner waits for nothing is reported too. */
  lemma AlarmWithoutCycle()
    ensures var s := SyncState(map[], map[1 := MutexState(10, [20]), 2 := MutexState(20, [])]);
            HoldsAndWaits(s) && forall pids, ids :: !WaitCycle(s, pids, ids)
  {
    var s := SyncState(map[], map[1 := MutexState(10, [20]), 2 := MutexState(20, [])]);
    assert 20 in s.mtxs[1].queue;
    assert IsWaiting(s, s.mtxs[2].owner);
    assert forall id :: id in s.mtxs ==> 10 !in s.mtxs[id].queue;
    forall pids, ids ensures !WaitCycle(s, pids, ids) {
      if |pids| == |ids| > 0 {
        var next := if |pids| == 1 then 0 else 1;
        assert !WaitsForNext(s, pids, ids, 0) || !WaitsForNext(s, pids, ids, next);
      }
    }
  }

  // The two sets that the detector collects.

  function OwnersAmong(s: SyncState, ids: set<int>): set<int> {
    set id | id in ids && id in s.mtxs && s.mtxs[id].owner != -1 :: s.mtxs[id].owner
  }

  function WaitingOwnersAmong(s: SyncState, ids: set<int>): set<int> {
    set id | id in ids && id in s.mtxs && s.mtxs[id].owner != -1 && IsWaiting(s, s.mtxs[id].owner) :: s.mtxs[id].owner
  }

  lemma NoOwnersYet(s: SyncState)
    ensures OwnersAmong(s, s.mtxs.Keys - s.mtxs.Keys) == {} && WaitingOwnersAmong(s, s.mtxs.Keys - s.mtxs.Keys) == {}
  {
  }

  lemma OneMoreMutex(s: SyncState, ids: set<int>, id: int)
    requires id in s.mtxs
    ensures var owner := s.mtxs[id].owner;
            && OwnersAmong(s, ids + {id}) == OwnersAmong(s, ids) + (if owner != -1 then {owner} else {})
            && WaitingOwnersAmong(s, ids + {id})
               == WaitingOwnersAmong(s, ids) + (if owner != -1 && IsWaiting(s, owner) then {owner} else {})
  {
    hide IsWaiting;
  }

  /** The sets of all mutexes meet exactly when some owner waits. */
  lemma SetsMeetIff(s: SyncState)
    ensures OwnersAmong(s, s.mtxs.Keys) * WaitingOwnersAmong(s, s.mtxs.Keys) != {} <==> HoldsAndWaits(s)
  {
    hide IsWaiting;
    var both := OwnersAmong(s, s.mtxs.Keys) * WaitingOwnersAmong(s, s.mtxs.Keys);
    SomeElement(both);
    if HoldsAndWaits(s) {
      var id :| id in s.mtxs && s.mtxs[id].owner != -1 && IsWaiting(s, s.mtxs[id].owner);
      assert s.mtxs[id].owner in both;
    }
  }

  class SyncManager {
    var semaphores: map<int, Semaphore>
    var mutexes: map<int, Mutex>
    var nextSemId: int
    var nextMutexId: int

    /** The objects of the manager besides itself. */
    ghost function Objects(): set<object>
      reads this
    {
      semaphores.Values + mutexes.Values
    }

    /** Ids below the next ones, and no object registered under two ids. */
    ghost predicate Valid()
      reads this
    {
      && (forall id :: id in semaphores ==> 1 <= id < nextSemId)
      && (forall id :: id in mutexes ==> 1 <= id < nextMutexId)
      && nextSemId >= 1 && nextMutexId >= 1
      && (forall i, j :: i in semaphores && j in semaphores && i != j ==> semaphores[i] != semaphores[j])
      && (forall i, j :: i in mutexes && j in mutexes && i != j ==> mutexes[i] != mutexes[j])
    }

    ghost function State(): SyncState
      reads this, Objects()
    {
      SyncState(map id | id in semaphores :: semaphores[id].State(), map id | id in mutexes :: mutexes[id].State())
    }

    constructor ()
      ensures Valid() && Objects() == {} && State() == SyncState(map[], map[])
    {
      semaphores, mutexes := map[], map[];
      nextSemId, nextMutexId := 1, 1;
    }

    method CreateSemaphore(initialCount: int) returns (id: int)
      requires Valid()
      modifies this
      ensures Valid() && id == old(nextSemId) && id !in old(semaphores)
      ensures fresh(Objects() - old(Objects()))
      ensures State() == old(State()).(sems := old(State()).sems[id := SemStart(initialCount)])
    {
      hide Semaphore.State, Mutex.State;
      var semaphore := new Semaphore(initialCount);
      id := nextSemId;
      nextSemId := nextSemId + 1;
      semaphores := semaphores[id := semaphore];
      assert forall i :: i in old(semaphores) ==> semaphores[i].State() == old(semaphores[i].State());
      assert State().sems == old(State()).sems[id := SemStart(initialCount)];
      assert State().mtxs == old(State()).mtxs;
    }

    method CreateMutex() returns (id: int)
      requires Valid()
      modifies this
      ensures Valid() && id == old(nextMutexId) && id !in old(mutexes)
      ensures fresh(Objects() - old(Objects()))
      ensures State() == old(State()).(mtxs := old(State()).mtxs[id := FREE_MUTEX])
    {
      var mutex := new Mutex();
      id := nextMutexId;
      nextMutexId := nextMutexId + 1;
      mutexes := mutexes[id := mutex];
      assert State().mtxs == old(State()).mtxs[id := FREE_MUTEX];
      assert State().sems == old(State()).sems;
    }

    method RemoveMutex(id: int) returns (removed: bool)
      requires Valid()
      modifies this
      ensures Valid() && (removed <==> id in old(mutexes))
      ensures State() == old(State()).(mtxs := old(State()).mtxs - {id})
    {
      removed := id in mutexes;
      if removed {
        mutexes := mutexes - {id};
      }
      assert State().mtxs == old(State()).mtxs - {id};
      assert State().sems == old(State()).sems;
    }

    /** Looks through the queues of all semaphores, then of all mutexes. */
    method IsProcessWaiting(processId: int) returns (waiting: bool)
      ensures waiting <==> IsWaiting(State(), processId)
    {
      var ids: set<int> := semaphores.Keys;
      while ids != {}
        invariant ids <= semaphores.Keys
        invariant forall id :: id in semaphores && id !in ids ==> processId !in semaphores[id].State().queue
        decreases ids
      {
        SomeElement(ids);
        var id :| id in ids;
        waiting := semaphores[id].IsProcessWaiting(processId);
        if waiting {
          assert processId in State().sems[id].queue;
          return;
        }
        ids := ids - {id};
      }
      ids := mutexes.Keys;
      while ids != {}
        invariant ids <= mutexes.Keys
        invariant forall id :: id in mutexes && id !in ids ==> processId !in mutexes[id].State().queue
        decreases ids
      {
        SomeElement(ids);
        var id :| id in ids;
        waiting := mutexes[id].IsProcessWaiting(processId);
        if waiting {
          assert processId in State().mtxs[id].queue;
          return;
        }
        ids := ids - {id};
      }
      return false;
    }

    /** Collects the owners and the waiting owners, then compares the two sets. */
    method DetectDeadlock() returns (found: bool)
      ensures found <==> HoldsAndWaits(State())
    {
      hide HoldsAndWaits, IsWaiting, OwnersAmong, WaitingOwnersAmong;
      ghost var s := State();
      assert s.mtxs.Keys == mutexes.Keys;
      var waiting: set<int>, holding: set<int> := {}, {};
      var ids: set<int> := mutexes.Keys;
      NoOwnersYet(s);
      while ids != {}
        invariant ids <= mutexes.Keys && State() == s
        invariant holding == OwnersAmong(s, s.mtxs.Keys - ids)
        invariant waiting == WaitingOwnersAmong(s, s.mtxs.Keys - ids)
        decreases ids
      {
        SomeElement(ids);
        var id :| id in ids;
        var owner := mutexes[id].owner;
        OneMoreMutex(s, s.mtxs.Keys - ids, id);
        if owner != -1 {
          holding := holding + {owner};
          var waits := IsProcessWaiting(owner);
          assert State() == s;
          if waits {
            waiting := waiting + {owner};
          }
        }
        assert s.mtxs.Keys - (ids - {id}) == s.mtxs.Keys - ids + {id};
        ids := ids - {id};
      }
      found := holding * waiting != {};
      assert s.mtxs.Keys - {} == s.mtxs.Keys;
      SetsMeetIff(s);
    }

    method CleanupProcess(processId: int)
      requires Valid()
      modifies mutexes.Values
      ensures Valid() && State() == CleanedUp(old(State()), processId)
    {
      var ids: set<int> := mutexes.Keys;
      while ids != {}
        invariant ids <= mutexes.Keys
        invariant forall id :: id in mutexes ==>
                    mutexes[id].State() ==
                      if id in ids then old(mutexes[id].State()) else MutexStep(old(mutexes[id].State()), Unlock(processId))
        decreases ids
      {
        SomeElement(ids);
        var id :| id in ids;
        if mutexes[id].owner == processId {
          var woken := mutexes[id].Unlock(processId);
        }
        ids := ids - {id};
      }
      forall id | id in mutexes ensures State().mtxs[id] == CleanedUp(old(State()), processId).mtxs[id] {
      }
      assert State().mtxs == CleanedUp(old(State()), processId).mtxs;
      assert State().sems == old(State()).sems;
    }

    method Reset()
      modifies this
      ensures Valid() && Objects() == {} && State() == SyncState(map[], map[])
    {
      semaphores, mutexes := map[], map[];
      nextSemId, nextMutexId := 1, 1;
    }
  }

  /** The synchronization state depends on the manager and its objects only. */
  twostate lemma SyncStateFrame(manager: SyncManager)
    requires unchanged(manager)
    requires forall s :: s in manager.semaphores.Values ==> unchanged(s)
    requires forall x :: x in manager.mutexes.Values ==> unchanged(x)
    ensures manager.State() == old(manager.State())
  {
    forall id | id in manager.semaphores ensures manager.semaphores[id].State() == old(manager.semaphores[id].State()) {
      assert manager.semaphores[id] in manager.semaphores.Values;
    }
    forall id | id in manager.mutexes ensures manager.mutexes[id].State() == old(manager.mutexes[id].State()) {
      assert manager.mutexes[id] in manager.mutexes.Values;
    }
    assert manager.State().sems == old(manager.State()).sems;
    assert manager.State().mtxs == old(manager.State()).mtxs;
  }
}
