/** The memory manager object. Each method is proved to do what its function in Paging says. */
module MemoryManagement {
  import opened KernelTypes
  import opened Paging
  import opened PagingInverse

  lemma LoadPagesZero(m: Memory, p: int)
    ensures LoadPages(m, p, 0) == m.(tables := m.tables[p := TableOf(m.tables, p)])
  {
  }

  lemma LoadPagesNext(m: Memory, p: int, n: nat)
    ensures LoadPages(m, p, n + 1) == LoadNext(LoadPages(m, p, n), p, n)
  {
  }

  /** Valid entries name existing frames, so that following one is safe. */
  ghost predicate FramesExist(m: Memory) {
    forall p :: p in m.tables ==> EntriesExist(m.tables[p], |m.frames|)
  }

  ghost predicate EntriesExist(table: seq<PageTableEntry>, n: nat) {
    forall i :: 0 <= i < |table| && table[i].valid ==> 0 <= table[i].physicalFrame < n
  }

  lemma {:induction false} LookupExists(table: seq<PageTableEntry>, n: nat, v: int)
    requires EntriesExist(table, n)
    ensures Lookup(table, v) != -1 ==> 0 <= Lookup(table, v) < n
  {
    if table != [] {
      assert forall i :: 0 <= i < |table| - 1 ==> table[1..][i] == table[i + 1];
      LookupExists(table[1..], n, v);
    }
  }

  lemma UpdateEntryExists(m: Memory, p: int, v: int, f: int, valid: bool)
    requires FramesExist(m) && (valid ==> 0 <= f < |m.frames|)
    ensures FramesExist(m.(tables := UpdateEntry(m.tables, p, v, f, valid)))
  {
    assert EntriesExist(TableOf(m.tables, p), |m.frames|);
  }

  lemma {:induction false} LoadPagesExist(m: Memory, p: int, n: nat)
    requires FramesExist(m)
    ensures FramesExist(LoadPages(m, p, n)) && |LoadPages(m, p, n).frames| == |m.frames|
  {
    if n > 0 {
      LoadPagesExist(m, p, n - 1);
      var k := LoadPages(m, p, n - 1);
      assert EntriesExist(TableOf(k.tables, p), |k.frames|);
    }
  }

  lemma FaultExists(m: Memory, p: int, v: int)
    requires FramesExist(m)
    ensures FramesExist(Fault(m, p, v))
  {
    var f := Target(m);
    if f != -1 {
      UpdateEntryExists(m, m.frames[f].processId, m.frames[f].pageNumber, -1, false);
      var e := m.(tables := Evicted(m, f));
      assert FramesExist(e);
      UpdateEntryExists(e, p, v, f, true);
      hide UpdateEntry, EntriesExist;
    }
  }

  class MemoryManager {
    var pageFrames: seq<PageFrame>
    var pageTables: PageTables
    var pageFaultCount: int
    var pageReplacementCount: int
    var currentTime: int
    var replacementAlgorithm: ReplacementAlgorithm

    function State(): Memory
      reads this
    {
      Memory(pageFrames, pageTables, pageFaultCount, pageReplacementCount, currentTime, replacementAlgorithm)
    }

    ghost predicate Valid()
      reads this
    {
      FramesExist(State())
    }

    constructor (numFrames: int, algorithm: ReplacementAlgorithm)
      ensures Valid() && State() == Empty(Max(0, numFrames), algorithm)
    {
      var frames: seq<PageFrame> := [];
      var i := 0;
      while i < numFrames
        invariant 0 <= i <= Max(0, numFrames)
        invariant frames == seq(i, _ => FREE_FRAME)
      {
        frames := frames + [FREE_FRAME];
        i := i + 1;
      }
      pageFrames, pageTables := frames, map[];
      pageFaultCount, pageReplacementCount, currentTime := 0, 0, 0;
      replacementAlgorithm := algorithm;
    }

    method GetFreeFrameCount() returns (count: nat)
      ensures count == FreeCount(pageFrames)
    {
      count := 0;
      for i := 0 to |pageFrames|
        invariant count == FreeCount(pageFrames[..i])
      {
        assert pageFrames[..i + 1][..i] == pageFrames[..i];
        if !pageFrames[i].inUse {
          count := count + 1;
        }
      }
      assert pageFrames[..|pageFrames|] == pageFrames;
    }

    method FindFreeFrame() returns (frame: int)
      ensures frame == FirstFree(pageFrames)
    {
      for i := 0 to |pageFrames|
        invariant forall g :: 0 <= g < i ==> pageFrames[g].inUse
      {
        if !pageFrames[i].inUse {
          return i;
        }
      }
      return -1;
    }

    method SelectVictimFrame() returns (victim: int)
      ensures victim == Victim(replacementAlgorithm, pageFrames)
    {
      var oldest := INT_MAX;
      victim := -1;
      for i := 0 to |pageFrames|
        invariant victim == Victim(replacementAlgorithm, pageFrames[..i])
        invariant oldest == if victim == -1 then INT_MAX else Age(replacementAlgorithm, pageFrames[victim])
      {
        assert pageFrames[..i + 1][..i] == pageFrames[..i];
        if pageFrames[i].inUse && Age(replacementAlgorithm, pageFrames[i]) < oldest {
          oldest := Age(replacementAlgorithm, pageFrames[i]);
          victim := i;
        }
      }
      assert pageFrames[..|pageFrames|] == pageFrames;
    }

    method GetPhysicalFrame(processId: int, virtualPage: int) returns (frame: int)
      requires Valid()
      ensures frame == PhysicalFrame(State(), processId, virtualPage)
      ensures frame != -1 ==> 0 <= frame < |pageFrames|
    {
      if processId !in pageTables {
        return -1;
      }
      var table := pageTables[processId];
      LookupExists(table, |pageFrames|, virtualPage);
      for i := 0 to |table|
        invariant Lookup(table, virtualPage) == Lookup(table[i..], virtualPage)
      {
        assert table[i..][1..] == table[i + 1..];
        if table[i].virtualPage == virtualPage && table[i].valid {
          return table[i].physicalFrame;
        }
      }
      return -1;
    }

    method UpdatePageTableEntry(processId: int, virtualPage: int, physicalFrame: int, valid: bool)
      modifies this`pageTables
      ensures pageTables == UpdateEntry(old(pageTables), processId, virtualPage, physicalFrame, valid)
    {
      if processId !in pageTables {
        pageTables := pageTables[processId := []];
      }
      var table := pageTables[processId];
      var i, found := 0, false;
      while i < |table|
        invariant 0 <= i <= |table|
        invariant forall j :: 0 <= j < i ==> table[j].virtualPage != virtualPage
      {
        if table[i].virtualPage == virtualPage {
          found := true;
          break;
        }
        i := i + 1;
      }
      assert found ==> FindEntry(table, virtualPage) == i;
      assert !found ==> FindEntry(table, virtualPage) == -1;
      if found {
        table := table[i := PageTableEntry(virtualPage, physicalFrame, valid)];
      } else if valid {
        table := table + [PageTableEntry(virtualPage, physicalFrame, valid)];
      }
      pageTables := pageTables[processId := table];
    }

    method AllocatePages(processId: int, numPages: int) returns (success: bool)
      requires Valid()
      modifies this
      ensures Valid() && State() == Allocate(old(State()), processId, numPages)
      ensures success <==> CanAllocate(old(State()), numPages)
    {
      hide FreeCount, LoadPages, Extends, FramesExist, FirstFree;
      if numPages <= 0 {
        return false;
      }
      var free := GetFreeFrameCount();
      if free < numPages {
        return false;
      }
      ghost var before := State();
      if processId !in pageTables {
        pageTables := pageTables[processId := []];
      }
      LoadPagesZero(before, processId);
      var allocatedPages, virtualPage := 0, 0;
      while virtualPage < numPages
        invariant 0 <= virtualPage == allocatedPages <= numPages
        invariant State() == LoadPages(before, processId, virtualPage) && processId in pageTables
        decreases numPages - virtualPage
      {
        LoadPagesShape(before, processId, virtualPage);
        FreeCountZero(pageFrames);
        LoadPagesNext(before, processId, virtualPage);
        ghost var loaded := State();
        var frame := FindFreeFrame();
        if frame == -1 {
          break;
        }
        pageFrames := pageFrames[frame := PageFrame(processId, virtualPage, true, currentTime, currentTime)];
        pageTables := pageTables[processId := pageTables[processId] + [PageTableEntry(virtualPage, frame, true)]];
        assert State() == LoadNext(loaded, processId, virtualPage);
        allocatedPages := allocatedPages + 1;
        virtualPage := virtualPage + 1;
      }
      LoadPagesExist(before, processId, numPages);
      success := allocatedPages == numPages;
    }

    method DeallocatePages(processId: int)
      requires Valid()
      modifies this
      ensures Valid() && State() == Deallocate(old(State()), processId)
    {
      for i := 0 to |pageFrames|
        modifies this`pageFrames
        invariant |pageFrames| == |old(pageFrames)|
        invariant forall f :: 0 <= f < |pageFrames| ==>
                    pageFrames[f] == if f < i then Released(old(pageFrames)[f], processId) else old(pageFrames)[f]
      {
        if pageFrames[i].processId == processId && pageFrames[i].inUse {
          pageFrames := pageFrames[i := FREE_FRAME];
        }
      }
      pageTables := pageTables - {processId};
      assert State().frames == Deallocate(old(State()), processId).frames;
    }

    method HandlePageFault(processId: int, virtualPage: int) returns (frame: int)
      requires Valid()
      modifies this
      ensures Valid() && State() == Fault(old(State()), processId, virtualPage)
      ensures frame == Target(old(State()))
    {
      FaultExists(State(), processId, virtualPage);
      hide FramesExist, UpdateEntry;
      pageFaultCount := pageFaultCount + 1;
      frame := FindFreeFrame();
      if frame == -1 {
        frame := SelectVictimFrame();
        if frame == -1 {
          return -1;
        }
        var victim := pageFrames[frame];
        if victim.inUse {
          UpdatePageTableEntry(victim.processId, victim.pageNumber, -1, false);
        }
        pageReplacementCount := pageReplacementCount + 1;
      }
      pageFrames := pageFrames[frame := PageFrame(processId, virtualPage, true, currentTime, currentTime)];
      UpdatePageTableEntry(processId, virtualPage, frame, true);
    }

    method AccessPage(processId: int, virtualPage: int, now: int)
      requires Valid()
      modifies this
      ensures Valid() && State() == Access(old(State()), processId, virtualPage, now)
    {
      currentTime := now;
      var frame := GetPhysicalFrame(processId, virtualPage);
      if frame != -1 {
        pageFrames := pageFrames[frame := pageFrames[frame].(lastAccess := now)];
      }
      assert PhysicalFrame(old(State()), processId, virtualPage) == frame;
    }

    method SetReplacementAlgorithm(algorithm: ReplacementAlgorithm)
      requires Valid()
      modifies this
      ensures Valid() && State() == old(State()).(algo := algorithm)
    {
      replacementAlgorithm := algorithm;
    }
  }
}
