/**
 FIFO replacement refines a queue of pages in the order in which they were loaded: a load adds
 at the back, a fault on full memory drops the front, and freeing a process takes its pages out.
*/
module FifoReplacement {
  import opened KernelTypes
  import opened Paging
  import opened PagingInverse
  import opened PagingHistory
  import opened Sums

  datatype Page = Page(pid: int, number: int)

  /** The order in which the FIFO scan sees frames: older first, lower index first. */
  predicate Older(s: int, f: int, t: int, g: int) {
    s < t || (s == t && f < g)
  }

  /** The allocated frames, each once, from the longest loaded to the last loaded. */
  ghost predicate LoadOrder(frames: seq<PageFrame>, ord: seq<int>) {
    && (forall k :: 0 <= k < |ord| ==> 0 <= ord[k] < |frames| && frames[ord[k]].inUse)
    && (forall f :: 0 <= f < |frames| && frames[f].inUse ==> f in ord)
    && forall j, k :: 0 <= j < k < |ord| ==>
         Older(frames[ord[j]].allocationTime, ord[j], frames[ord[k]].allocationTime, ord[k])
  }

  ghost predicate ByAge(frames: seq<PageFrame>, ord: seq<int>) {
    && (forall k :: 0 <= k < |ord| ==> 0 <= ord[k] < |frames|)
    && forall j, k :: 0 <= j < k < |ord| ==>
         Older(frames[ord[j]].allocationTime, ord[j], frames[ord[k]].allocationTime, ord[k])
  }

  function PageOf(frame: PageFrame): Page {
    Page(frame.processId, frame.pageNumber)
  }

  function QueueOf(frames: seq<PageFrame>, ord: seq<int>): (q: seq<Page>)
    requires forall k :: 0 <= k < |ord| ==> 0 <= ord[k] < |frames|
    ensures |q| == |ord|
  {
    seq(|ord|, k requires 0 <= k < |ord| => PageOf(frames[ord[k]]))
  }

  // The abstract queue.

  function Batch(p: int, n: nat): (b: seq<Page>)
    ensures |b| == n
  {
    seq(n, v => Page(p, v))
  }

  function Without(q: seq<Page>, p: int): seq<Page> {
    if q == [] then []
    else Without(q[..|q| - 1], p) + (if q[|q| - 1].pid == p then [] else [q[|q| - 1]])
  }

  function QueueCall(capacity: int, q: seq<Page>, c: PagerCall): seq<Page> {
    match c
    case CallAllocate(p, n) => if 0 < n <= capacity - |q| then q + Batch(p, n) else q
    case CallDeallocate(p) => Without(q, p)
    case CallFault(p, v) =>
      if capacity <= 0 then q else (if |q| < capacity || q == [] then q else q[1..]) + [Page(p, v)]
    case _ => q
  }

  function QueueCalls(capacity: int, cs: seq<PagerCall>): seq<Page> {
    if cs == [] then [] else QueueCall(capacity, QueueCalls(capacity, cs[..|cs| - 1]), cs[|cs| - 1])
  }

  // Loading one page.

  /** Every page already in memory counts as older than one loaded now into the target frame. */
  predicate LoadsLater(m: Memory) {
    forall g :: 0 <= g < |m.frames| && m.frames[g].inUse && g != Target(m) ==>
      Older(m.frames[g].allocationTime, g, m.clock, Target(m))
  }

  /** A clock that has moved on since the last load is enough. */
  lemma AdvancingClockLoadsLater(m: Memory)
    requires forall g :: 0 <= g < |m.frames| && m.frames[g].inUse ==> m.frames[g].allocationTime < m.clock
    ensures LoadsLater(m)
  {
  }

  /** On full memory the FIFO victim is the longest-loaded page. */
  lemma VictimIsFront(m: Memory, ord: seq<int>)
    requires LoadOrder(m.frames, ord) && m.algo.FIFO? && FirstFree(m.frames) == -1 && m.frames != []
    requires forall g :: 0 <= g < |m.frames| ==> m.frames[g].allocationTime < INT_MAX
    ensures ord != [] && Victim(m.algo, m.frames) == ord[0]
  {
    assert m.frames[0].inUse;
    var f := Victim(m.algo, m.frames);
    assert f in ord;
    var k :| 0 <= k < |ord| && ord[k] == f;
  }

  /** What is left of the order when the target frame is given away. */
  function Remaining(m: Memory, ord: seq<int>): seq<int> {
    if FirstFree(m.frames) != -1 || ord == [] then ord else ord[1..]
  }

  /** The remaining order lists exactly the allocated frames other than the target, oldest first. */
  lemma RemainingOrder(m: Memory, ord: seq<int>)
    requires LoadOrder(m.frames, ord) && Target(m) != -1
    requires FirstFree(m.frames) == -1 ==> ord != [] && Target(m) == ord[0]
    ensures ByAge(m.frames, Remaining(m, ord))
    ensures forall k :: 0 <= k < |Remaining(m, ord)| ==>
              m.frames[Remaining(m, ord)[k]].inUse && Remaining(m, ord)[k] != Target(m)
    ensures forall g :: 0 <= g < |m.frames| && m.frames[g].inUse && g != Target(m) ==> g in Remaining(m, ord)
  {
    var rest := Remaining(m, ord);
    if FirstFree(m.frames) == -1 {
      assert forall k :: 0 <= k < |rest| ==> rest[k] == ord[k + 1];
      forall g | 0 <= g < |m.frames| && m.frames[g].inUse && g != Target(m) ensures g in rest {
        var k :| 0 <= k < |ord| && ord[k] == g;
        assert rest[k - 1] == g;
      }
    }
  }

  /** The loaded page becomes the last of the order exactly when every other page counts as older. */
  lemma LoadGoesLastIff(m: Memory, ord: seq<int>, x: PageFrame)
    requires LoadOrder(m.frames, ord) && Target(m) != -1 && x.inUse && x.allocationTime == m.clock
    requires FirstFree(m.frames) == -1 ==> ord != [] && Target(m) == ord[0]
    ensures LoadOrder(m.frames[Target(m) := x], Remaining(m, ord) + [Target(m)]) <==> LoadsLater(m)
  {
    RemainingOrder(m, ord);
    var f, rest := Target(m), Remaining(m, ord);
    if LoadsLater(m) {
      hide Target, Remaining, LoadOrder;
      LastInOrder(m.frames, rest, f, x);
    } else {
      var g :| 0 <= g < |m.frames| && m.frames[g].inUse && g != f
               && !Older(m.frames[g].allocationTime, g, m.clock, f);
      hide Target, Remaining, ByAge;
      NotLastInOrder(m.frames, rest, f, x, g);
    }
  }

  lemma NotLastInOrder(frames: seq<PageFrame>, rest: seq<int>, f: int, x: PageFrame, g: int)
    requires 0 <= f < |frames| && 0 <= g < |frames| && g != f && g in rest
    requires !Older(frames[g].allocationTime, g, x.allocationTime, f)
    ensures !LoadOrder(frames[f := x], rest + [f])
  {
    hide Older;
    var k :| 0 <= k < |rest| && rest[k] == g;
    assert (rest + [f])[k] == g && (rest + [f])[|rest|] == f;
  }

  lemma LastInOrder(frames: seq<PageFrame>, rest: seq<int>, f: int, x: PageFrame)
    requires ByAge(frames, rest) && 0 <= f < |frames| && x.inUse
    requires forall k :: 0 <= k < |rest| ==> frames[rest[k]].inUse && rest[k] != f
    requires forall g :: 0 <= g < |frames| && frames[g].inUse && g != f ==>
               g in rest && Older(frames[g].allocationTime, g, x.allocationTime, f)
    ensures LoadOrder(frames[f := x], rest + [f])
  {
    var next := rest + [f];
    assert next[|rest|] == f;
    forall g | 0 <= g < |frames| && frames[f := x][g].inUse ensures g in next {
    }
    hide Older;
  }

  lemma LoadQueue(m: Memory, ord: seq<int>, p: int, v: int)
    requires LoadOrder(m.frames, ord) && Target(m) != -1
    requires FirstFree(m.frames) == -1 ==> ord != [] && Target(m) == ord[0]
    ensures forall k :: 0 <= k < |Remaining(m, ord)| ==> 0 <= Remaining(m, ord)[k] < |m.frames|
    ensures QueueOf(m.frames[Target(m) := LoadedFrame(m, p, v)], Remaining(m, ord) + [Target(m)])
            == QueueOf(m.frames, Remaining(m, ord)) + [Page(p, v)]
  {
    var rest := Remaining(m, ord);
    assert forall k :: 0 <= k < |rest| ==> rest[k] != Target(m) && rest[k] in ord;
  }

  // Counting: the queue is as long as the number of allocated frames.

  lemma OrderCounts(frames: seq<PageFrame>, ord: seq<int>)
    requires LoadOrder(frames, ord)
    ensures |ord| + FreeCount(frames) == |frames|
  {
    UsedFramesCount(frames);
    DistinctCount(ord);
    assert UsedFrames(frames) == set x | x in ord;
  }

  // Allocation.

  function Appended(m: Memory, p: int, n: nat, ord: seq<int>): seq<int> {
    if n == 0 then ord else Appended(m, p, n - 1, ord) + [FirstFree(LoadPages(m, p, n - 1).frames)]
  }

  /** Loading the next page of a batch keeps every page of the batch older than the following one. */
  lemma BatchStaysLater(m: Memory, p: int, v: int)
    requires LoadsLater(m) && FirstFree(m.frames) != -1
    ensures FirstFree(LoadNext(m, p, v).frames) != -1 ==> LoadsLater(LoadNext(m, p, v))
  {
    var f, n := FirstFree(m.frames), LoadNext(m, p, v);
    if FirstFree(n.frames) != -1 {
      assert FirstFree(n.frames) > f;
      forall g | 0 <= g < |n.frames| && n.frames[g].inUse && g != Target(n)
        ensures Older(n.frames[g].allocationTime, g, n.clock, Target(n))
      {
        if g != f { assert Older(m.frames[g].allocationTime, g, m.clock, f); }
      }
    }
  }

  /** The pages in memory, in load order, are the given queue. */
  ghost predicate InOrder(frames: seq<PageFrame>, ord: seq<int>, q: seq<Page>) {
    LoadOrder(frames, ord) && QueueOf(frames, ord) == q
  }

  lemma {:induction false} BatchOrder(m: Memory, ord: seq<int>, q: seq<Page>, p: int, n: nat)
    requires InOrder(m.frames, ord, q) && LoadsLater(m) && n <= FreeCount(m.frames)
    ensures InOrder(LoadPages(m, p, n).frames, Appended(m, p, n, ord), q + Batch(p, n))
    ensures LoadPages(m, p, n).clock == m.clock
    ensures FirstFree(LoadPages(m, p, n).frames) != -1 ==> LoadsLater(LoadPages(m, p, n))
  {
    hide InOrder, LoadsLater, LoadNext;
    if n == 0 {
      assert q + Batch(p, 0) == q;
      SameFramesLoadLater(m, LoadPages(m, p, 0));
    } else {
      BatchOrder(m, ord, q, p, n - 1);
      LoadPagesShape(m, p, n - 1);
      var k := LoadPages(m, p, n - 1);
      FreeCountZero(k.frames);
      BatchNext(k, Appended(m, p, n - 1, ord), q + Batch(p, n - 1), p, n - 1);
      assert q + Batch(p, n - 1) + [Page(p, n - 1)] == q + Batch(p, n);
    }
  }

  lemma SameFramesLoadLater(m: Memory, n: Memory)
    requires LoadsLater(m) && n.frames == m.frames && n.clock == m.clock && n.algo == m.algo
    ensures LoadsLater(n)
  {
  }

  lemma BatchNext(m: Memory, ord: seq<int>, q: seq<Page>, p: int, v: int)
    requires InOrder(m.frames, ord, q) && LoadsLater(m) && FirstFree(m.frames) != -1
    ensures InOrder(LoadNext(m, p, v).frames, ord + [FirstFree(m.frames)], q + [Page(p, v)])
    ensures LoadNext(m, p, v).clock == m.clock
    ensures FirstFree(LoadNext(m, p, v).frames) != -1 ==> LoadsLater(LoadNext(m, p, v))
  {
    LoadGoesLastIff(m, ord, LoadedFrame(m, p, v));
    LoadQueue(m, ord, p, v);
    BatchStaysLater(m, p, v);
    hide LoadOrder, LoadsLater, QueueOf;
  }

  // Freeing a process.

  function KeptOrder(frames: seq<PageFrame>, ord: seq<int>, p: int): (o: seq<int>)
    requires forall k :: 0 <= k < |ord| ==> 0 <= ord[k] < |frames|
  {
    if ord == [] then []
    else
      KeptOrder(frames, ord[..|ord| - 1], p)
      + (if frames[ord[|ord| - 1]].processId == p then [] else [ord[|ord| - 1]])
  }

  lemma {:induction false} KeptMembers(frames: seq<PageFrame>, ord: seq<int>, p: int)
    requires forall k :: 0 <= k < |ord| ==> 0 <= ord[k] < |frames|
    ensures forall f :: f in KeptOrder(frames, ord, p) <==> f in ord && frames[f].processId != p
  {
    if ord != [] {
      var front, last := ord[..|ord| - 1], ord[|ord| - 1];
      assert ord == front + [last];
      KeptMembers(frames, front, p);
    }
  }

  lemma ByAgeSnoc(frames: seq<PageFrame>, ord: seq<int>, f: int)
    requires ByAge(frames, ord) && 0 <= f < |frames|
    requires forall j :: 0 <= j < |ord| ==> Older(frames[ord[j]].allocationTime, ord[j], frames[f].allocationTime, f)
    ensures ByAge(frames, ord + [f])
  {
    hide Older;
  }

  lemma ByAgeFront(frames: seq<PageFrame>, ord: seq<int>)
    requires ByAge(frames, ord) && ord != []
    ensures ByAge(frames, ord[..|ord| - 1]) && 0 <= ord[|ord| - 1] < |frames|
    ensures forall f :: f in ord[..|ord| - 1] ==>
              0 <= f < |frames| && Older(frames[f].allocationTime, f, frames[ord[|ord| - 1]].allocationTime, ord[|ord| - 1])
  {
    hide Older;
    var front := ord[..|ord| - 1];
    forall f | f in front
      ensures 0 <= f < |frames| && Older(frames[f].allocationTime, f, frames[ord[|ord| - 1]].allocationTime, ord[|ord| - 1])
    {
      var k :| 0 <= k < |front| && front[k] == f;
      assert ord[k] == f;
    }
  }

  lemma {:induction false} KeptSorted(frames: seq<PageFrame>, ord: seq<int>, p: int)
    requires ByAge(frames, ord)
    ensures ByAge(frames, KeptOrder(frames, ord, p))
  {
    if ord != [] {
      var front, last := ord[..|ord| - 1], ord[|ord| - 1];
      ByAgeFront(frames, ord);
      KeptSorted(frames, front, p);
      KeptMembers(frames, front, p);
      var o := KeptOrder(frames, front, p);
      assert forall j :: 0 <= j < |o| ==> o[j] in o;
      hide Older, ByAge;
      ByAgeSnoc(frames, o, last);
    }
  }

  lemma {:induction false} KeptQueue(frames: seq<PageFrame>, ord: seq<int>, p: int)
    requires forall k :: 0 <= k < |ord| ==> 0 <= ord[k] < |frames|
    ensures forall k :: 0 <= k < |KeptOrder(frames, ord, p)| ==> 0 <= KeptOrder(frames, ord, p)[k] < |frames|
    ensures QueueOf(frames, KeptOrder(frames, ord, p)) == Without(QueueOf(frames, ord), p)
  {
    if ord != [] {
      KeptQueue(frames, ord[..|ord| - 1], p);
      assert QueueOf(frames, ord)[..|ord| - 1] == QueueOf(frames, ord[..|ord| - 1]);
    }
  }

  lemma DeallocateOrder(m: Memory, ord: seq<int>, p: int)
    requires LoadOrder(m.frames, ord)
    ensures var n, o := Deallocate(m, p), KeptOrder(m.frames, ord, p);
            LoadOrder(n.frames, o) && QueueOf(n.frames, o) == Without(QueueOf(m.frames, ord), p)
  {
    var n, o := Deallocate(m, p), KeptOrder(m.frames, ord, p);
    KeptSorted(m.frames, ord, p);
    KeptMembers(m.frames, ord, p);
    KeptQueue(m.frames, ord, p);
    forall k | 0 <= k < |o| ensures n.frames[o[k]] == m.frames[o[k]] && m.frames[o[k]].inUse {
      assert o[k] in o;
      var j :| 0 <= j < |ord| && ord[j] == o[k];
    }
    assert QueueOf(n.frames, o) == QueueOf(m.frames, o);
  }

  // Whole runs.

  /** Loads happen at an advancing clock below INT_MAX, with FIFO selected throughout. */
  predicate CallInOrder(m: Memory, c: PagerCall) {
    match c
    case CallAllocate(p, n) => m.clock < INT_MAX && (CanAllocate(m, n) ==> LoadsLater(m))
    case CallFault(p, v) => m.clock < INT_MAX && LoadsLater(m)
    case CallAlgorithm(a) => a.FIFO?
    case _ => true
  }

  predicate CallsInOrder(m: Memory, cs: seq<PagerCall>) {
    cs == [] || (CallsInOrder(m, cs[..|cs| - 1]) && CallInOrder(Calls(m, cs[..|cs| - 1]), cs[|cs| - 1]))
  }

  ghost predicate Refines(m: Memory, ord: seq<int>, q: seq<Page>) {
    && m.algo.FIFO? && LoadOrder(m.frames, ord) && QueueOf(m.frames, ord) == q
    && forall f :: 0 <= f < |m.frames| && m.frames[f].inUse ==> m.frames[f].allocationTime < INT_MAX
  }

  lemma FaultRefines(m: Memory, ord: seq<int>, q: seq<Page>, p: int, v: int) returns (o: seq<int>)
    requires Refines(m, ord, q) && CallInOrder(m, CallFault(p, v))
    ensures Refines(Fault(m, p, v), o, QueueCall(|m.frames|, q, CallFault(p, v)))
    ensures m.frames != [] && FirstFree(m.frames) == -1 ==> q != [] && Target(m) != -1 && PageOf(m.frames[Target(m)]) == q[0]
  {
    OrderCounts(m.frames, ord);
    FreeCountZero(m.frames);
    if m.frames == [] {
      o := ord;
    } else {
      if FirstFree(m.frames) == -1 { VictimIsFront(m, ord); }
      o := Remaining(m, ord) + [Target(m)];
      LoadGoesLastIff(m, ord, LoadedFrame(m, p, v));
      LoadQueue(m, ord, p, v);
      assert QueueOf(m.frames, Remaining(m, ord)) == if FirstFree(m.frames) != -1 then q else q[1..];
    }
  }

  lemma AccessOrder(m: Memory, ord: seq<int>, p: int, v: int, t: int)
    requires LoadOrder(m.frames, ord)
    ensures LoadOrder(Access(m, p, v, t).frames, ord) && QueueOf(Access(m, p, v, t).frames, ord) == QueueOf(m.frames, ord)
  {
    assert QueueOf(Access(m, p, v, t).frames, ord) == QueueOf(m.frames, ord);
  }

  lemma {:induction false} BatchAges(m: Memory, p: int, n: nat)
    requires m.clock < INT_MAX
    requires forall f :: 0 <= f < |m.frames| && m.frames[f].inUse ==> m.frames[f].allocationTime < INT_MAX
    ensures var k := LoadPages(m, p, n);
            k.clock == m.clock && k.algo == m.algo && |k.frames| == |m.frames| &&
            forall f :: 0 <= f < |k.frames| && k.frames[f].inUse ==> k.frames[f].allocationTime < INT_MAX
  {
    if n > 0 { BatchAges(m, p, n - 1); }
  }

  lemma CallRefines(m: Memory, ord: seq<int>, q: seq<Page>, c: PagerCall) returns (o: seq<int>)
    requires Refines(m, ord, q) && CallInOrder(m, c)
    ensures Refines(Call(m, c), o, QueueCall(|m.frames|, q, c)) && |Call(m, c).frames| == |m.frames|
  {
    match c
    case CallAllocate(p, n) =>
      OrderCounts(m.frames, ord);
      if CanAllocate(m, n) {
        BatchOrder(m, ord, q, p, n);
        BatchAges(m, p, n);
        o := Appended(m, p, n, ord);
      } else {
        o := ord;
      }
    case CallDeallocate(p) =>
      DeallocateOrder(m, ord, p);
      o := KeptOrder(m.frames, ord, p);
    case CallFault(p, v) => o := FaultRefines(m, ord, q, p, v);
    case CallAccess(p, v, t) =>
      AccessOrder(m, ord, p, v, t);
      o := ord;
    case CallAlgorithm(a) => o := ord;
  }

  lemma {:induction false} RunRefines(numFrames: nat, cs: seq<PagerCall>) returns (ord: seq<int>)
    requires CallsInOrder(Empty(numFrames, FIFO), cs)
    ensures |Calls(Empty(numFrames, FIFO), cs).frames| == numFrames
    ensures Refines(Calls(Empty(numFrames, FIFO), cs), ord, QueueCalls(numFrames, cs))
  {
    if cs == [] {
      ord := [];
    } else {
      var front := cs[..|cs| - 1];
      var before := RunRefines(numFrames, front);
      ord := CallRefines(Calls(Empty(numFrames, FIFO), front), before, QueueCalls(numFrames, front), cs[|cs| - 1]);
    }
  }

  /**
   FIFO refinement. In every run with loads in order, the pages in memory are those of the
   abstract queue, and a fault on full memory evicts the page at its front.
  */
  lemma FifoRefinesQueue(numFrames: nat, cs: seq<PagerCall>)
    requires CallsInOrder(Empty(numFrames, FIFO), cs)
    ensures var m, q := Calls(Empty(numFrames, FIFO), cs), QueueCalls(numFrames, cs);
            && (forall p, v :: Page(p, v) in q <==> exists f :: Backs(m, f, p, v))
            && (numFrames > 0 && FirstFree(m.frames) == -1 ==>
                 q != [] && Target(m) != -1 && PageOf(m.frames[Target(m)]) == q[0])
  {
    var ord := RunRefines(numFrames, cs);
    var m, q := Calls(Empty(numFrames, FIFO), cs), QueueCalls(numFrames, cs);
    forall p, v ensures Page(p, v) in q <==> exists f :: Backs(m, f, p, v) {
      if Page(p, v) in q {
        var k :| 0 <= k < |q| && q[k] == Page(p, v);
        assert Backs(m, ord[k], p, v);
      }
      if exists f :: Backs(m, f, p, v) {
        var f :| Backs(m, f, p, v);
        var k :| 0 <= k < |ord| && ord[k] == f;
        assert q[k] == Page(p, v);
      }
    }
    if numFrames > 0 && FirstFree(m.frames) == -1 { VictimIsFront(m, ord); }
  }

  // Runs whose clock advances between loads.

  predicate IsLoad(c: PagerCall) {
    c.CallAllocate? || c.CallFault?
  }

  /** The clock at the last load of a list of calls. */
  function LastLoad(cs: seq<PagerCall>): Option<int> {
    if cs == [] then None
    else
      var front := cs[..|cs| - 1];
      if IsLoad(cs[|cs| - 1]) then Some(ClockAfter(front)) else LastLoad(front)
  }

  /**
   What the calls alone must satisfy: between two loads an access moves the clock on, the clock
   is below INT_MAX at every load, and FIFO stays selected.
  */
  predicate ClockAdvances(cs: seq<PagerCall>) {
    cs == [] ||
    var front, last := cs[..|cs| - 1], cs[|cs| - 1];
    && ClockAdvances(front)
    && (IsLoad(last) ==> ClockAfter(front) < INT_MAX && (LastLoad(front).Some? ==> LastLoad(front).value < ClockAfter(front)))
    && (last.CallAlgorithm? ==> last.algo.FIFO?)
  }

  /** The frames in use were loaded at or before the last load, and the clock is that of the calls. */
  ghost predicate LoadedUntil(m: Memory, clock: int, lastLoad: Option<int>) {
    && m.clock == clock
    && forall f :: 0 <= f < |m.frames| && m.frames[f].inUse ==>
         lastLoad.Some? && m.frames[f].allocationTime <= lastLoad.value
  }

  lemma {:induction false} BatchLoadedUntil(m: Memory, clock: int, lastLoad: Option<int>, p: int, n: nat)
    requires LoadedUntil(m, clock, lastLoad) && (lastLoad.Some? ==> lastLoad.value < clock)
    ensures LoadedUntil(LoadPages(m, p, n), clock, Some(clock))
  {
    if n > 0 { BatchLoadedUntil(m, clock, lastLoad, p, n - 1); }
  }

  lemma CallLoadedUntil(m: Memory, front: seq<PagerCall>, c: PagerCall)
    requires LoadedUntil(m, ClockAfter(front), LastLoad(front)) && ClockAdvances(front + [c])
    ensures LoadedUntil(Call(m, c), ClockAfter(front + [c]), LastLoad(front + [c])) && CallInOrder(m, c)
  {
    assert (front + [c])[..|front|] == front;
    match c
    case CallAllocate(p, n) =>
      AdvancingClockLoadsLater(m);
      if CanAllocate(m, n) { BatchLoadedUntil(m, ClockAfter(front), LastLoad(front), p, n); }
    case CallFault(p, v) => AdvancingClockLoadsLater(m);
    case _ =>
  }

  /** When the clock strictly advances between loads, the loads of the run come in order. */
  lemma {:induction false} AdvancingCallsInOrder(numFrames: nat, cs: seq<PagerCall>)
    requires ClockAdvances(cs)
    ensures CallsInOrder(Empty(numFrames, FIFO), cs)
    ensures LoadedUntil(Calls(Empty(numFrames, FIFO), cs), ClockAfter(cs), LastLoad(cs))
  {
    if cs != [] {
      var front := cs[..|cs| - 1];
      AdvancingCallsInOrder(numFrames, front);
      assert front + [cs[|cs| - 1]] == cs;
      CallLoadedUntil(Calls(Empty(numFrames, FIFO), front), front, cs[|cs| - 1]);
    }
  }
}
