/**
 The pager's numbers read off the history of its calls: what the two counters count, how frames
 are gained and lost, and what the times kept in a frame are the times of.
*/
module PagingHistory {
  import opened KernelTypes
  import opened Paging
  import opened PagingInverse

  /** Every frame is in use, and some frame can be given up. */
  ghost predicate MustReplace(m: Memory) {
    && (forall f :: 0 <= f < |m.frames| ==> m.frames[f].inUse)
    && exists f :: 0 <= f < |m.frames| && UsedBefore(m.algo, m.frames[f], INT_MAX)
  }

  predicate UsedBefore(algo: ReplacementAlgorithm, frame: PageFrame, time: int) {
    match algo
    case FIFO => frame.allocationTime < time
    case LRU => frame.lastAccess < time
  }

  /** Every frame is in use, and none can be given up. */
  ghost predicate MustRefuse(m: Memory) {
    && (forall f :: 0 <= f < |m.frames| ==> m.frames[f].inUse)
    && forall f :: 0 <= f < |m.frames| ==> !UsedBefore(m.algo, m.frames[f], INT_MAX)
  }

  /** A free frame, a victim, or a refusal: the three outcomes of a fault. */
  lemma FaultOutcome(m: Memory)
    ensures FirstFree(m.frames) == -1 <==> forall f :: 0 <= f < |m.frames| ==> m.frames[f].inUse
    ensures MustReplace(m) <==> FirstFree(m.frames) == -1 && Target(m) != -1
    ensures MustRefuse(m) <==> Target(m) == -1
  {
    if FirstFree(m.frames) == -1 && Target(m) != -1 { assert UsedBefore(m.algo, m.frames[Target(m)], INT_MAX); }
  }

  // What the counters count.

  function FaultCalls(cs: seq<PagerCall>): nat {
    if cs == [] then 0 else FaultCalls(cs[..|cs| - 1]) + (if cs[|cs| - 1].CallFault? then 1 else 0)
  }

  /** Fault calls of a run that found every frame in use and one to give up. */
  ghost function Replacements(m: Memory, cs: seq<PagerCall>): nat {
    if cs == [] then 0
    else
      var front := cs[..|cs| - 1];
      Replacements(m, front) + (if cs[|cs| - 1].CallFault? && MustReplace(Calls(m, front)) then 1 else 0)
  }

  ghost function Refusals(m: Memory, cs: seq<PagerCall>): nat {
    if cs == [] then 0
    else
      var front := cs[..|cs| - 1];
      Refusals(m, front) + (if cs[|cs| - 1].CallFault? && MustRefuse(Calls(m, front)) then 1 else 0)
  }

  lemma CallCounters(m: Memory, c: PagerCall)
    ensures Call(m, c).faults == m.faults + (if c.CallFault? then 1 else 0)
    ensures Call(m, c).replacements == m.replacements + (if c.CallFault? && MustReplace(m) then 1 else 0)
  {
    match c
    case CallAllocate(p, n) => if CanAllocate(m, n) { LoadPagesFrames(m, p, n); }
    case CallFault(_, _) => FaultOutcome(m);
    case _ =>
  }

  /**
   Over every run of calls, allowed or not, the fault counter is the number of fault calls and the
   replacement counter the number of those that found every frame in use and a victim.
  */
  lemma {:induction false} CountersCount(numFrames: nat, algo: ReplacementAlgorithm, cs: seq<PagerCall>)
    ensures Calls(Empty(numFrames, algo), cs).faults == FaultCalls(cs)
    ensures Calls(Empty(numFrames, algo), cs).replacements == Replacements(Empty(numFrames, algo), cs)
  {
    hide Call, MustReplace;
    if cs != [] {
      var front := cs[..|cs| - 1];
      CountersCount(numFrames, algo, front);
      CallCounters(Calls(Empty(numFrames, algo), front), cs[|cs| - 1]);
    }
  }

  // Where the frames in use come from.

  ghost function OwnedFrames(frames: seq<PageFrame>, p: int): set<int> {
    set f | 0 <= f < |frames| && frames[f].inUse && frames[f].processId == p
  }

  /** Frames given out by the allocations of a run. */
  ghost function Allocated(m: Memory, cs: seq<PagerCall>): int {
    if cs == [] then 0
    else
      var front, last := cs[..|cs| - 1], cs[|cs| - 1];
      Allocated(m, front)
      + (if last.CallAllocate? && 0 < last.pages <= |FreeFrames(Calls(m, front).frames)| then last.pages else 0)
  }

  /** Frames given back when a process is freed. */
  ghost function GivenBack(m: Memory, cs: seq<PagerCall>): int {
    if cs == [] then 0
    else
      var front, last := cs[..|cs| - 1], cs[|cs| - 1];
      GivenBack(m, front) + (if last.CallDeallocate? then |OwnedFrames(Calls(m, front).frames, last.pid)| else 0)
  }

  lemma FaultUses(m: Memory, p: int, v: int)
    ensures |Fault(m, p, v).frames| == |m.frames|
    ensures |UsedFrames(Fault(m, p, v).frames)| == |UsedFrames(m.frames)| + (if MustReplace(m) || MustRefuse(m) then 0 else 1)
  {
    FaultOutcome(m);
    var f := Target(m);
    if FirstFree(m.frames) != -1 {
      assert UsedFrames(Fault(m, p, v).frames) == UsedFrames(m.frames) + {f};
    } else {
      assert UsedFrames(Fault(m, p, v).frames) == UsedFrames(m.frames);
    }
  }

  lemma DeallocateUses(m: Memory, p: int)
    ensures |Deallocate(m, p).frames| == |m.frames|
    ensures |UsedFrames(Deallocate(m, p).frames)| == |UsedFrames(m.frames)| - |OwnedFrames(m.frames, p)|
  {
    assert UsedFrames(Deallocate(m, p).frames) == UsedFrames(m.frames) - OwnedFrames(m.frames, p);
    assert OwnedFrames(m.frames, p) <= UsedFrames(m.frames);
  }

  lemma AllocateUses(m: Memory, p: int, n: int)
    ensures |Allocate(m, p, n).frames| == |m.frames|
    ensures |UsedFrames(Allocate(m, p, n).frames)|
            == |UsedFrames(m.frames)| + (if 0 < n <= |FreeFrames(m.frames)| then n else 0)
  {
    FreeFramesCount(m.frames);
    UsedFramesCount(m.frames);
    UsedFramesCount(Allocate(m, p, n).frames);
    hide UsedFrames, FreeFrames, FreeCount;
    if CanAllocate(m, n) { LoadPagesShape(m, p, n); }
  }

  lemma AccessUses(m: Memory, p: int, v: int, t: int)
    ensures |Access(m, p, v, t).frames| == |m.frames|
    ensures |UsedFrames(Access(m, p, v, t).frames)| == |UsedFrames(m.frames)|
  {
    assert UsedFrames(Access(m, p, v, t).frames) == UsedFrames(m.frames);
  }

  lemma EmptyUses(numFrames: nat, algo: ReplacementAlgorithm)
    ensures |UsedFrames(Empty(numFrames, algo).frames)| == 0
  {
    assert UsedFrames(Empty(numFrames, algo).frames) == {};
  }

  /**
   Conservation: every fault and every allocated page has taken a frame that is in use, has been
   given back with its process or taken over by a later page, or the fault was refused.
  */
  lemma {:induction false} FramesBalance(numFrames: nat, algo: ReplacementAlgorithm, cs: seq<PagerCall>)
    ensures var e := Empty(numFrames, algo);
            var m := Calls(e, cs);
            && |m.frames| == numFrames
            && m.faults + Allocated(e, cs) == m.replacements + |UsedFrames(m.frames)| + GivenBack(e, cs) + Refusals(e, cs)
  {
    hide UsedFrames, FreeFrames, OwnedFrames, MustReplace, MustRefuse, Fault, Allocate, Deallocate, Access;
    var e := Empty(numFrames, algo);
    if cs == [] {
      EmptyUses(numFrames, algo);
    } else {
      var front, last := cs[..|cs| - 1], cs[|cs| - 1];
      FramesBalance(numFrames, algo, front);
      var m := Calls(e, front);
      CallCounters(m, last);
      NotBoth(m);
      match last
      case CallAllocate(p, n) => AllocateUses(m, p, n);
      case CallDeallocate(p) => DeallocateUses(m, p);
      case CallFault(p, v) => FaultUses(m, p, v);
      case CallAccess(p, v, t) => AccessUses(m, p, v, t);
      case CallAlgorithm(a) =>
    }
  }

  lemma NotBoth(m: Memory)
    ensures !(MustReplace(m) && MustRefuse(m))
  {
  }

  // What the times in a frame are.

  /** The clock after a list of calls: the time of the last access. */
  function ClockAfter(cs: seq<PagerCall>): int {
    if cs == [] then 0
    else
      var last := cs[|cs| - 1];
      if last.CallAccess? then last.time else ClockAfter(cs[..|cs| - 1])
  }

  /** The call loads page v of p: a fault that was not refused, or an allocation that was granted. */
  ghost predicate Loads(m: Memory, c: PagerCall, p: int, v: int) {
    match c
    case CallFault(q, w) => q == p && w == v && !MustRefuse(m)
    case CallAllocate(q, n) => q == p && 0 <= v < n <= |FreeFrames(m.frames)|
    case _ => false
  }

  /** The clock at the last load of a page. */
  ghost function LoadTime(m: Memory, cs: seq<PagerCall>, p: int, v: int): int {
    if cs == [] then 0
    else
      var front := cs[..|cs| - 1];
      if Loads(Calls(m, front), cs[|cs| - 1], p, v) then ClockAfter(front) else LoadTime(m, front, p, v)
  }

  /** The time of the last access to a page, or of its load if that came later. */
  ghost function LastUse(m: Memory, cs: seq<PagerCall>, p: int, v: int): int {
    if cs == [] then 0
    else
      var front, last := cs[..|cs| - 1], cs[|cs| - 1];
      if last.CallAccess? && last.pid == p && last.page == v then last.time
      else if Loads(Calls(m, front), last, p, v) then ClockAfter(front)
      else LastUse(m, front, p, v)
  }

  /** The times of one frame in use are those of its page in the history. */
  ghost predicate TimesOf(frame: PageFrame, loaded: int, used: int) {
    frame.allocationTime == loaded && frame.lastAccess == used
  }

  lemma ResidentCollides(m: Memory, f: int, p: int, n: int)
    requires Consistent(m) && 0 <= f < |m.frames| && m.frames[f].inUse && m.frames[f].processId == p
    requires 0 <= m.frames[f].pageNumber < n
    ensures Collides(TableOf(m.tables, p), n)
  {
    var v := m.frames[f].pageNumber;
    assert PhysicalFrame(m, p, v) == f;
    LookupIsFind(m.tables[p], v);
    var i := FindEntry(m.tables[p], v);
    assert m.tables[p][i].virtualPage == v;
  }

  /** One call: a loaded page has the clock in both times, an accessed one the access time, all others what they had. */
  lemma CallTimes(m: Memory, c: PagerCall, f: int)
    requires Consistent(m) && CallAllowed(m, c) && Consistent(Call(m, c))
    requires 0 <= f < |Call(m, c).frames| && Call(m, c).frames[f].inUse
    ensures |Call(m, c).frames| == |m.frames|
    ensures var x := Call(m, c).frames[f];
            if Loads(m, c, x.processId, x.pageNumber) then TimesOf(x, m.clock, m.clock)
            else
              && m.frames[f].inUse && m.frames[f].processId == x.processId && m.frames[f].pageNumber == x.pageNumber
              && TimesOf(x, m.frames[f].allocationTime,
                         if c.CallAccess? && c.pid == x.processId && c.page == x.pageNumber then c.time else m.frames[f].lastAccess)
  {
    match c
    case CallAllocate(p, n) =>
      AllocateTimes(m, p, n, f);
    case CallDeallocate(p) =>
    case CallFault(p, v) =>
      FaultOutcome(m);
      if Target(m) != -1 { FaultTimes(m, p, v, f); }
    case CallAccess(p, v, t) => AccessStamps(m, p, v, t);
    case CallAlgorithm(a) =>
  }

  lemma FaultTimes(m: Memory, p: int, v: int, f: int)
    requires Consistent(m) && Consistent(Fault(m, p, v))
    requires 0 <= f < |Fault(m, p, v).frames| && Fault(m, p, v).frames[f].inUse && Target(m) != -1
    ensures Fault(m, p, v).frames[f] == if f == Target(m) then LoadedFrame(m, p, v) else m.frames[f]
    ensures f != Target(m) ==> !(m.frames[f].processId == p && m.frames[f].pageNumber == v)
  {
    var n := Fault(m, p, v);
    assert PhysicalFrame(n, p, v) == Target(m) by { assert n.frames[Target(m)] == LoadedFrame(m, p, v); }
    hide Fault, PhysicalFrame;
  }

  lemma AllocateTimes(m: Memory, p: int, n: int, f: int)
    requires Consistent(m) && (!CanAllocate(m, n) || !Collides(TableOf(m.tables, p), n))
    requires 0 <= f < |Allocate(m, p, n).frames| && Allocate(m, p, n).frames[f].inUse
    ensures |Allocate(m, p, n).frames| == |m.frames|
    ensures var x := Allocate(m, p, n).frames[f];
            if Loads(m, CallAllocate(p, n), x.processId, x.pageNumber) then TimesOf(x, m.clock, m.clock)
            else m.frames[f].inUse && x == m.frames[f]
  {
    FreeFramesCount(m.frames);
    hide Consistent, Collides, FreeCount, FreeFrames, LoadPages;
    if CanAllocate(m, n) {
      LoadPagesFrames(m, p, n);
      var b := m.frames[f];
      if b.inUse && b.processId == p && 0 <= b.pageNumber < n { ResidentCollides(m, f, p, n); }
    }
  }

  /**
   Over every run of allowed calls, the clock is the time of the last access, and each frame in
   use keeps the clock at which its page was loaded and the time at which it was last used.
  */
  lemma {:induction false} FrameTimes(numFrames: nat, algo: ReplacementAlgorithm, cs: seq<PagerCall>)
    requires CallsAllowed(Empty(numFrames, algo), cs)
    ensures var e := Empty(numFrames, algo);
            var m := Calls(e, cs);
            && m.clock == ClockAfter(cs)
            && forall f :: 0 <= f < |m.frames| && m.frames[f].inUse ==>
                 var p, v := m.frames[f].processId, m.frames[f].pageNumber;
                 m.frames[f].allocationTime == LoadTime(e, cs, p, v) && m.frames[f].lastAccess == LastUse(e, cs, p, v)
  {
    hide Call, Loads, CallAllowed, Consistent;
    if cs != [] {
      var e, front, c := Empty(numFrames, algo), cs[..|cs| - 1], cs[|cs| - 1];
      FrameTimes(numFrames, algo, front);
      AlwaysConsistent(numFrames, algo, front);
      AlwaysConsistent(numFrames, algo, cs);
      var m := Calls(e, front);
      CallClock(m, c);
      forall f | 0 <= f < |Call(m, c).frames| && Call(m, c).frames[f].inUse
        ensures var x := Call(m, c).frames[f];
                && x.allocationTime == LoadTime(e, cs, x.processId, x.pageNumber)
                && x.lastAccess == LastUse(e, cs, x.processId, x.pageNumber)
      {
        CallTimes(m, c, f);
        LoadIsNoAccess(m, c, Call(m, c).frames[f].processId, Call(m, c).frames[f].pageNumber);
      }
    }
  }

  lemma LoadIsNoAccess(m: Memory, c: PagerCall, p: int, v: int)
    ensures Loads(m, c, p, v) ==> !c.CallAccess?
  {
  }

  lemma CallClock(m: Memory, c: PagerCall)
    ensures Call(m, c).clock == if c.CallAccess? then c.time else m.clock
  {
    match c
    case CallAllocate(p, n) => if CanAllocate(m, n) { LoadPagesFrames(m, p, n); }
    case _ =>
  }
}
