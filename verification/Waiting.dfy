/**
 Waiting time counted twice: once by the collector, process by process at state changes, and
 once by an observer who counts the READY processes at the end of every time step.
*/
module Waiting {
  import opened KernelTypes
  import opened TickModel
  import opened TickSteps
  import opened TickInvariant
  import opened Sums

  /** Stored waiting of a completed process, or accumulated waiting plus the open READY interval. */
  function WaitSoFar(t: Task, now: int): int {
    match t.track
    case Done(c) => c.waiting
    case Active(info) => info.totalWait + (if t.pcb.state.Ready? then now + 1 - info.lastChange else 0)
  }

  function Waits(m: Machine): (w: seq<int>)
    ensures |w| == |m.tasks|
  {
    seq(|m.tasks|, i requires 0 <= i < |m.tasks| => WaitSoFar(m.tasks[i], m.now))
  }

  function ReadyFlags(m: Machine): (f: seq<int>)
    ensures |f| == |m.tasks|
  {
    seq(|m.tasks|, i requires 0 <= i < |m.tasks| => if m.tasks[i].pcb.state.Ready? then 1 else 0)
  }

  function ReadyCount(m: Machine): int {
    Sum(ReadyFlags(m))
  }

  /** The observer's count over all time steps of a run. */
  function ReadyTicks(r: Recorded, es: seq<Event>): int {
    if es == [] then 0
    else ReadyTicks(r, es[..|es| - 1]) + (if es[|es| - 1].Step? then ReadyCount(Play(r, es).m) else 0)
  }

  lemma WaitByRole(role: Role, t: Task, added: int, now: int)
    requires TaskInv(t, added, now - 1)
    requires role.Bystander? ==> !t.pcb.state.Running?
    requires role.Demoted? || role.Continues? ==> t.pcb.state.Running?
    requires role.Dispatched? ==> Admit(t, now).pcb.state.Ready?
    ensures var u := StepAs(role, t, now);
            WaitSoFar(u, now) == WaitSoFar(t, now - 1) + (if u.pcb.state.Ready? then 1 else 0)
  {
  }

  lemma WaitStep(r: Recorded, n: Machine)
    requires Inv(r) && Follows(r.m, n)
    ensures Sum(Waits(n)) == Sum(Waits(r.m)) + ReadyCount(n)
  {
    forall i | 0 <= i < |n.tasks| ensures Waits(n)[i] == Waits(r.m)[i] + ReadyFlags(n)[i] {
      SteppedByRole(r.m, i);
      WaitByRole(RoleOf(r.m, i), r.m.tasks[i], r.added[i], n.now);
      hide RoleOf, StepAs, WaitSoFar, Stepped;
    }
    SumAdd(Waits(n), Waits(r.m), ReadyFlags(n));
  }

  lemma AddKeepsWaits(r: Recorded, c: ProcessConfig)
    ensures Sum(Waits(Apply(r, Add(c)).m)) == Sum(Waits(r.m))
  {
    if AcceptsParameters(c.priority, c.burst, c.arrival) {
      assert Waits(Apply(r, Add(c)).m) == Waits(r.m) + [0];
      SumAppend(Waits(r.m), 0);
    }
  }

  /** The two counts agree after every prefix of every run. */
  lemma {:induction false} WaitingCountedTwice(algo: SchedulingAlgorithm, quantum: int, es: seq<Event>)
    requires SwitchesWhenIdle(Begin(algo, quantum), es)
    ensures Sum(Waits(Play(Begin(algo, quantum), es).m)) == ReadyTicks(Begin(algo, quantum), es)
  {
    hide Tick;
    if es != [] {
      var front := es[..|es| - 1];
      var r := Play(Begin(algo, quantum), front);
      WaitingCountedTwice(algo, quantum, front);
      Reachable(algo, quantum, front);
      match es[|es| - 1]
      case Step => InvStep(r); WaitStep(r, Tick(r.m));
      case Add(c) => AddKeepsWaits(r, c);
      case Switch(a, q) => assert Waits(SwitchScheduler(r.m, a, q)) == Waits(r.m);
    }
  }

  function StoredWaiting(m: Machine): (w: seq<int>)
    ensures |w| == |m.tasks|
  {
    seq(|m.tasks|, i requires 0 <= i < |m.tasks| => if m.tasks[i].track.Done? then m.tasks[i].track.metrics.waiting else 0)
  }

  /** When the simulation is over, the waiting times in the metrics add up to the observer's count. */
  lemma TotalWaitingAtTheEnd(algo: SchedulingAlgorithm, quantum: int, es: seq<Event>)
    requires SwitchesWhenIdle(Begin(algo, quantum), es) && AllCompleted(Play(Begin(algo, quantum), es).m)
    ensures Sum(StoredWaiting(Play(Begin(algo, quantum), es).m)) == ReadyTicks(Begin(algo, quantum), es)
  {
    WaitingCountedTwice(algo, quantum, es);
    Reachable(algo, quantum, es);
    var r := Play(Begin(algo, quantum), es);
    forall i | 0 <= i < |r.m.tasks| ensures StoredWaiting(r.m)[i] == Waits(r.m)[i] {
      assert TaskInv(r.m.tasks[i], r.added[i], r.m.now);
    }
    assert StoredWaiting(r.m) == Waits(r.m);
  }
}
