/** The process table. */
module ProcessManagement {
  import opened KernelTypes
  import opened Scheduling

  /** One more control block of the table looked at. */
  lemma InStateNext(pcbs: seq<Pcb>, i: nat, state: ProcessState)
    requires i < |pcbs|
    ensures InState(pcbs[..i + 1], state) == InState(pcbs[..i], state) + (if pcbs[i].state == state then [pcbs[i]] else [])
  {
    assert pcbs[..i + 1][..i] == pcbs[..i];
  }

  class ProcessManager {
    var processes: map<int, Pcb>
    var nextPid: int

    /** Pids are handed out from 1 without gaps, and each control block knows its own. */
    ghost predicate Valid()
      reads this
    {
      && nextPid >= 1
      && (forall pid :: pid in processes <==> 1 <= pid < nextPid)
      && forall pid :: pid in processes ==> processes[pid].pid == pid
    }

    /** The table in pid order. */
    ghost function Table(): (t: seq<Pcb>)
      requires Valid()
      reads this
      ensures |t| == nextPid - 1
      ensures forall i :: 0 <= i < |t| ==> t[i] == processes[i + 1]
    {
      var n, table := nextPid - 1, processes;
      seq(n, i requires 0 <= i < n && i + 1 in table => table[i + 1])
    }

    constructor ()
      ensures Valid() && Table() == [] && nextPid == 1
    {
      processes, nextPid := map[], 1;
    }

    method CreateProcess(priority: int, burst: int, arrival: int) returns (pid: int)
      requires Valid()
      modifies this
      ensures Valid()
      ensures AcceptsParameters(priority, burst, arrival) ==>
                pid == old(nextPid) && nextPid == old(nextPid) + 1
                && processes == old(processes)[pid := NewPcb(pid, priority, burst, arrival)]
      ensures pid != -1 <==> 1 <= priority <= 10 && burst > 0 && arrival >= 0
      ensures pid != -1 ==>
                var p := processes[pid];
                && p.pid == pid && p.state.New? && p.priority == priority && p.arrival == arrival
                && p.burst == burst && p.remaining == burst && p.completion == -1
      ensures !AcceptsParameters(priority, burst, arrival) ==>
                pid == -1 && processes == old(processes) && nextPid == old(nextPid)
    {
      if !(1 <= priority <= 10) || burst <= 0 || arrival < 0 {
        return -1;
      }
      pid := nextPid;
      nextPid := nextPid + 1;
      processes := processes[pid := NewPcb(pid, priority, burst, arrival)];
    }

    method UpdateProcessState(pid: int, state: ProcessState) returns (updated: bool)
      requires Valid()
      modifies this`processes
      ensures Valid() && (updated <==> pid in old(processes))
      ensures processes == if pid in old(processes) then old(processes)[pid := old(processes)[pid].(state := state)]
                           else old(processes)
    {
      if pid !in processes {
        return false;
      }
      processes := processes[pid := processes[pid].(state := state)];
      return true;
    }

    method SetProcessCompletionTime(pid: int, completion: int)
      requires Valid()
      modifies this`processes
      ensures Valid()
      ensures processes == if pid in old(processes) then old(processes)[pid := old(processes)[pid].(completion := completion)]
                           else old(processes)
    {
      if pid in processes {
        processes := processes[pid := processes[pid].(completion := completion)];
      }
    }

    method DecreaseRemainingTime(pid: int, units: int) returns (timeLeft: bool)
      requires Valid()
      modifies this`processes
      ensures Valid()
      ensures pid !in old(processes) ==> !timeLeft && processes == old(processes)
      ensures pid in old(processes) ==>
                && processes == old(processes)[pid := old(processes)[pid].(remaining := Max(old(processes)[pid].remaining - units, 0))]
                && (timeLeft <==> old(processes)[pid].remaining > units)
    {
      if pid !in processes {
        return false;
      }
      var p := processes[pid];
      p := p.(remaining := p.remaining - units);
      if p.remaining < 0 {
        p := p.(remaining := 0);
      }
      processes := processes[pid := p];
      return p.remaining > 0;
    }

    /** Collected in pid order, which is the order the source sorts into. */
    method GetProcessesByState(state: ProcessState) returns (result: seq<Pcb>)
      requires Valid()
      ensures result == InState(Table(), state)
    {
      result := [];
      for pid := 1 to nextPid
        invariant result == InState(Table()[..pid - 1], state)
      {
        hide InState;
        InStateNext(Table(), pid - 1, state);
        if processes[pid].state == state {
          result := result + [processes[pid]];
        }
      }
      assert Table()[..nextPid - 1] == Table();
    }
  }
}
