/** The ready list and the three ways of choosing from it. */
module Scheduling {
  import opened KernelTypes

  /** The control blocks in a given state, in the order of the table. */
  function InState(pcbs: seq<Pcb>, s: ProcessState): (q: seq<Pcb>)
    ensures |q| <= |pcbs|
    ensures forall p :: p in q <==> p in pcbs && p.state == s
  {
    if pcbs == [] then [] else
      var last := pcbs[|pcbs| - 1];
      InState(pcbs[..|pcbs| - 1], s) + (if last.state == s then [last] else [])
  }

  ghost predicate ByPid(pcbs: seq<Pcb>) {
    forall i, j :: 0 <= i < j < |pcbs| ==> pcbs[i].pid < pcbs[j].pid
  }

  /** The ready list of a table ordered by pid is ordered by pid. */
  lemma {:induction false} InStateByPid(pcbs: seq<Pcb>, s: ProcessState)
    requires ByPid(pcbs)
    ensures ByPid(InState(pcbs, s))
  {
    if pcbs != [] {
      var front, last := pcbs[..|pcbs| - 1], pcbs[|pcbs| - 1];
      InStateByPid(front, s);
      var q := InState(front, s);
      forall i | 0 <= i < |q| ensures q[i].pid < last.pid {
        assert q[i] in front;
      }
    }
  }

  /** A list in pid order is determined by its entries. */
  lemma {:induction false} ByPidUnique(q: seq<Pcb>, s: seq<Pcb>)
    requires ByPid(q) && ByPid(s) && forall p :: p in q <==> p in s
    ensures q == s
  {
    if q != [] { assert q[0] in s; }
    if s != [] { assert s[0] in q; }
    if q != [] {
      var x, y := q[|q| - 1], s[|s| - 1];
      hide ByPid;
      LastByPid(q, y);
      LastByPid(s, x);
      FrontByPid(q);
      FrontByPid(s);
      var front, rest := q[..|q| - 1], s[..|s| - 1];
      assert x == y;
      forall p ensures p in front <==> p in rest {
        assert p in front <==> p in q && p != x;
        assert p in rest <==> p in s && p != y;
      }
      ByPidUnique(front, rest);
      assert q == front + [x] && s == rest + [y];
    }
  }

  lemma LastByPid(q: seq<Pcb>, p: Pcb)
    requires ByPid(q) && p in q
    ensures p.pid <= q[|q| - 1].pid && (p.pid == q[|q| - 1].pid ==> p == q[|q| - 1])
  {
    var k :| 0 <= k < |q| && q[k] == p;
  }

  lemma FrontByPid(q: seq<Pcb>)
    requires ByPid(q) && q != []
    ensures ByPid(q[..|q| - 1]) && forall p :: p in q[..|q| - 1] <==> p in q && p != q[|q| - 1]
  {
    var front, last := q[..|q| - 1], q[|q| - 1];
    assert q == front + [last];
    forall p | p in front ensures p.pid < last.pid {
      var k :| 0 <= k < |front| && front[k] == p;
      assert q[k] == p;
    }
  }

  /** What the FCFS and Priority comparators look at. */
  function Key(algo: SchedulingAlgorithm, p: Pcb): int {
    if algo.Priority? then p.priority else p.arrival
  }

  /** The position of the first minimum under the comparator. */
  function FirstMinimum(algo: SchedulingAlgorithm, q: seq<Pcb>): (i: nat)
    requires q != []
    ensures i < |q|
    ensures forall j :: 0 <= j < |q| ==> Key(algo, q[i]) <= Key(algo, q[j])
    ensures forall j :: 0 <= j < i ==> Key(algo, q[i]) < Key(algo, q[j])
  {
    if |q| == 1 then 0 else
      var i := FirstMinimum(algo, q[..|q| - 1]);
      if Key(algo, q[|q| - 1]) < Key(algo, q[i]) then |q| - 1 else i
  }

  /** The chosen pid and the next value of the round-robin index. */
  function Choose(algo: SchedulingAlgorithm, lastIndex: int, q: seq<Pcb>): (r: (int, int))
    requires q != []
    ensures exists p :: p in q && p.pid == r.0
    ensures lastIndex >= -1 ==> r.1 >= -1
  {
    if algo.RoundRobin? then
      var next := (lastIndex + 1) % |q|;
      assert q[next] in q;
      (q[next].pid, next)
    else
      var i := FirstMinimum(algo, q);
      assert q[i] in q;
      (q[i].pid, lastIndex)
  }

  /** Strict order of service: lower priority number or earlier arrival first, then smaller pid. */
  predicate Precedes(algo: SchedulingAlgorithm, p: Pcb, r: Pcb) {
    if algo.Priority? then p.priority < r.priority || (p.priority == r.priority && p.pid < r.pid)
    else p.arrival < r.arrival || (p.arrival == r.arrival && p.pid < r.pid)
  }

  /** FCFS and Priority serve the process that precedes every other ready process. */
  lemma ChoosesTheFirst(algo: SchedulingAlgorithm, lastIndex: int, q: seq<Pcb>)
    requires q != [] && ByPid(q) && !algo.RoundRobin?
    ensures exists p :: p in q && p.pid == Choose(algo, lastIndex, q).0
                        && forall r :: r in q && r != p ==> Precedes(algo, p, r)
  {
    var i := FirstMinimum(algo, q);
    forall r | r in q && r != q[i] ensures Precedes(algo, q[i], r) {
      var j :| 0 <= j < |q| && q[j] == r;
    }
    assert q[i] in q && q[i].pid == Choose(algo, lastIndex, q).0;
  }

  /** FCFS takes the earliest arrival, and among equal arrivals the lowest pid. */
  lemma FcfsTakesEarliest(lastIndex: int, q: seq<Pcb>)
    requires q != [] && ByPid(q)
    ensures exists p :: p in q && p.pid == Choose(FCFS, lastIndex, q).0
                        && forall r :: r in q && r != p ==> p.arrival < r.arrival || (p.arrival == r.arrival && p.pid < r.pid)
  {
    ChoosesTheFirst(FCFS, lastIndex, q);
    hide ByPid, Choose;
    var p :| p in q && p.pid == Choose(FCFS, lastIndex, q).0 && forall r :: r in q && r != p ==> Precedes(FCFS, p, r);
    assert forall r :: r in q && r != p ==> p.arrival < r.arrival || (p.arrival == r.arrival && p.pid < r.pid);
  }

  /** Priority takes the lowest priority number, and among equal ones the lowest pid. */
  lemma PriorityTakesLowest(lastIndex: int, q: seq<Pcb>)
    requires q != [] && ByPid(q)
    ensures exists p :: p in q && p.pid == Choose(Priority, lastIndex, q).0
                        && forall r :: r in q && r != p ==> p.priority < r.priority || (p.priority == r.priority && p.pid < r.pid)
  {
    ChoosesTheFirst(Priority, lastIndex, q);
    hide ByPid, Choose;
    var p :| p in q && p.pid == Choose(Priority, lastIndex, q).0 && forall r :: r in q && r != p ==> Precedes(Priority, p, r);
    assert forall r :: r in q && r != p ==> p.priority < r.priority || (p.priority == r.priority && p.pid < r.pid);
  }

  /** The scheduler object. One class stands for the three, told apart by `algorithm`. */
  class Scheduler {
    const algorithm: SchedulingAlgorithm
    const timeQuantum: int
    var lastScheduledIndex: int
    var currentQuantumRemaining: int

    ghost predicate Valid()
      reads this
    {
      lastScheduledIndex >= -1
    }

    constructor (algorithm: SchedulingAlgorithm, timeQuantum: int)
      ensures Valid() && this.algorithm == algorithm && this.timeQuantum == timeQuantum
      ensures lastScheduledIndex == -1 && currentQuantumRemaining == timeQuantum
    {
      this.algorithm := algorithm;
      this.timeQuantum := timeQuantum;
      lastScheduledIndex, currentQuantumRemaining := -1, timeQuantum;
    }

    method SelectNextProcess(readyQueue: seq<Pcb>) returns (pid: int)
      requires Valid()
      modifies this
      ensures Valid()
      ensures readyQueue == [] ==>
                pid == -1 && lastScheduledIndex == old(lastScheduledIndex)
                && currentQuantumRemaining == old(currentQuantumRemaining)
      ensures readyQueue != [] ==> (pid, lastScheduledIndex) == Choose(algorithm, old(lastScheduledIndex), readyQueue)
      ensures readyQueue != [] ==>
                currentQuantumRemaining == if algorithm.RoundRobin? then timeQuantum else old(currentQuantumRemaining)
    {
      if readyQueue == [] {
        return -1;
      }
      if algorithm.RoundRobin? {
        var next := (lastScheduledIndex + 1) % |readyQueue|;
        lastScheduledIndex := next;
        currentQuantumRemaining := timeQuantum;
        return readyQueue[next].pid;
      }
      var i := MinElement(algorithm, readyQueue);
      return readyQueue[i].pid;
    }
  }

  /** The library's minimum scan: it keeps the first of equal elements. */
  method MinElement(algo: SchedulingAlgorithm, q: seq<Pcb>) returns (best: nat)
    requires q != []
    ensures best == FirstMinimum(algo, q)
  {
    hide Key;
    best := 0;
    for i := 1 to |q|
      invariant best == FirstMinimum(algo, q[..i])
    {
      assert q[..i + 1][..i] == q[..i];
      if Key(algo, q[i]) < Key(algo, q[best]) {
        best := i;
      }
    }
    assert q[..|q|] == q;
  }
}
