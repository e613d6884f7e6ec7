/** The records and enumerations that the kernel components share. */
module KernelTypes {

  /** Largest value of the source's `int`; the replacement scans start from it. */
  const INT_MAX := 0x7FFF_FFFF

  datatype Option<+T> = None | Some(value: T)

  datatype ProcessState = New | Ready | Running | Waiting | Terminated

  datatype SchedulingAlgorithm = FCFS | RoundRobin | Priority

  datatype ReplacementAlgorithm = FIFO | LRU

  datatype ProcessConfig = ProcessConfig(priority: int, burst: int, arrival: int, memory: int)

  datatype Pcb = Pcb(pid: int, state: ProcessState, priority: int, burst: int, remaining: int,
                     arrival: int, completion: int)

  datatype ProcessMetrics = ProcessMetrics(waiting: int, turnaround: int, response: int, completion: int)

  /** What the metrics collector keeps about a process that has not completed. */
  datatype TrackingInfo = TrackingInfo(arrival: int, firstRun: int, totalWait: int, lastChange: int, started: bool)

  function Max(x: int, y: int): int {
    if x < y then y else x
  }

  /** The parameter check of process creation. */
  predicate AcceptsParameters(priority: int, burst: int, arrival: int) {
    1 <= priority <= 10 && burst > 0 && arrival >= 0
  }

  function NewPcb(pid: int, priority: int, burst: int, arrival: int): Pcb {
    Pcb(pid, New, priority, burst, burst, arrival, -1)
  }

  function NewTracking(p: Pcb): TrackingInfo {
    TrackingInfo(p.arrival, -1, 0, p.arrival, false)
  }

  /** The effect of one recorded state change on a tracked process. */
  function RecordedChange(info: TrackingInfo, from: ProcessState, to: ProcessState, now: int): TrackingInfo {
    var first := to.Running? && !info.started;
    info.(totalWait := if from.Ready? then info.totalWait + (now - info.lastChange) else info.totalWait,
          firstRun := if first then now else info.firstRun,
          started := info.started || first,
          lastChange := now)
  }

  /** The metrics stored when a tracked process completes. */
  function FinalMetrics(info: TrackingInfo, completion: int): ProcessMetrics {
    ProcessMetrics(
      info.totalWait,
      if completion >= 0 then completion - info.arrival else 0,
      if info.firstRun >= 0 then info.firstRun - info.arrival else 0,
      completion)
  }
}
