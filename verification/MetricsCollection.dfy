/** The metrics collector: tracked processes, completed processes and the totals. */
module MetricsCollection {
  import opened KernelTypes

  /** A recorded change, field by field, whatever the two states are. */
  lemma RecordedChangeFields(before: TrackingInfo, from: ProcessState, to: ProcessState, now: int)
    ensures var after := RecordedChange(before, from, to, now);
            && after.arrival == before.arrival && after.lastChange == now
            && after.totalWait == before.totalWait + (if from.Ready? then now - before.lastChange else 0)
            && (after.started <==> before.started || to.Running?)
            && after.firstRun == if to.Running? && !before.started then now else before.firstRun
  {
  }

  /** The stored metrics, field by field; what has no start or no completion counts as 0. */
  lemma FinalMetricsFields(info: TrackingInfo, completion: int)
    ensures var c := FinalMetrics(info, completion);
            && c.waiting == info.totalWait && c.completion == completion
            && (completion >= 0 ==> c.turnaround == completion - info.arrival) && (completion < 0 ==> c.turnaround == 0)
            && (info.firstRun >= 0 ==> c.response == info.firstRun - info.arrival) && (info.firstRun < 0 ==> c.response == 0)
  {
  }

  class MetricsCollector {
    var processInfo: map<int, TrackingInfo>
    var completedProcesses: map<int, ProcessMetrics>
    var simulationTime: int
    var cpuExecutionTime: int
    var totalProcesses: int
    var completedCount: int

    constructor ()
      ensures processInfo == map[] && completedProcesses == map[] && simulationTime == 0 && cpuExecutionTime == 0
      ensures totalProcesses == 0 && completedCount == 0
    {
      processInfo, completedProcesses := map[], map[];
      simulationTime, cpuExecutionTime, totalProcesses, completedCount := 0, 0, 0, 0;
    }

    method RecordProcessCreation(p: Pcb)
      modifies this
      ensures processInfo == if p.pid in old(processInfo) then old(processInfo) else old(processInfo)[p.pid := NewTracking(p)]
      ensures totalProcesses == old(totalProcesses) + 1
      ensures unchanged(`completedProcesses, `simulationTime, `cpuExecutionTime, `completedCount)
    {
      if p.pid !in processInfo {
        processInfo := processInfo[p.pid := NewTracking(p)];
      }
      totalProcesses := totalProcesses + 1;
    }

    method RecordStateChange(pid: int, from: ProcessState, to: ProcessState, now: int)
      modifies this`processInfo
      ensures processInfo == if pid in old(processInfo)
                             then old(processInfo)[pid := RecordedChange(old(processInfo)[pid], from, to, now)]
                             else old(processInfo)
    {
      if pid !in processInfo {
        return;
      }
      var info := processInfo[pid];
      if from.Ready? {
        var waited := now - info.lastChange;
        info := info.(totalWait := info.totalWait + waited);
      }
      if to.Running? && !info.started {
        info := info.(firstRun := now, started := true);
      }
      info := info.(lastChange := now);
      processInfo := processInfo[pid := info];
    }

    /** The tracked process becomes a completed one. */
    method RecordProcessCompletion(p: Pcb, completion: int)
      modifies this
      ensures p.pid in old(processInfo) ==>
                && processInfo == old(processInfo) - {p.pid}
                && completedProcesses == old(completedProcesses)[p.pid := FinalMetrics(old(processInfo)[p.pid], completion)]
                && completedCount == old(completedCount) + 1
      ensures p.pid !in old(processInfo) ==> unchanged(`processInfo, `completedProcesses, `completedCount)
      ensures unchanged(`simulationTime, `cpuExecutionTime, `totalProcesses)
    {
      if p.pid !in processInfo {
        return;
      }
      var info := processInfo[p.pid];
      var turnaround := if completion >= 0 then completion - info.arrival else 0;
      var response := if info.firstRun >= 0 then info.firstRun - info.arrival else 0;
      completedProcesses := completedProcesses[p.pid := ProcessMetrics(info.totalWait, turnaround, response, completion)];
      completedCount := completedCount + 1;
      processInfo := processInfo - {p.pid};
    }

    method UpdateSimulationTime(now: int)
      modifies this`simulationTime
      ensures simulationTime == now
    {
      simulationTime := now;
    }

    method RecordCPUExecution(units: int)
      modifies this`cpuExecutionTime
      ensures cpuExecutionTime == old(cpuExecutionTime) + units
    {
      cpuExecutionTime := cpuExecutionTime + units;
    }
  }
}
