/**
 The pager on values: a frame table and, per process, a page table. Each function is one
 operation of the memory manager; the order of checks and updates is the source's.
*/
module Paging {
  import opened KernelTypes

  datatype PageFrame = PageFrame(processId: int, pageNumber: int, inUse: bool, lastAccess: int, allocationTime: int)

  datatype PageTableEntry = PageTableEntry(virtualPage: int, physicalFrame: int, valid: bool)

  type PageTables = map<int, seq<PageTableEntry>>

  datatype Memory = Memory(frames: seq<PageFrame>, tables: PageTables, faults: int, replacements: int,
                           clock: int, algo: ReplacementAlgorithm)

  const FREE_FRAME := PageFrame(-1, -1, false, 0, 0)

  function Empty(numFrames: nat, algo: ReplacementAlgorithm): Memory {
    Memory(seq(numFrames, _ => FREE_FRAME), map[], 0, 0, 0, algo)
  }

  function FreeCount(frames: seq<PageFrame>): (n: nat)
    ensures n <= |frames|
  {
    if frames == [] then 0
    else FreeCount(frames[..|frames| - 1]) + (if frames[|frames| - 1].inUse then 0 else 1)
  }

  /** The lowest free frame, or -1. */
  function FirstFree(frames: seq<PageFrame>): (f: int)
    ensures -1 <= f < |frames|
    ensures f == -1 ==> forall g :: 0 <= g < |frames| ==> frames[g].inUse
    ensures f != -1 ==> !frames[f].inUse && forall g :: 0 <= g < f ==> frames[g].inUse
  {
    if frames == [] then -1
    else
      var front := frames[..|frames| - 1];
      var f := FirstFree(front);
      assert forall g :: 0 <= g < |front| ==> front[g] == frames[g];
      if f != -1 then f else if frames[|frames| - 1].inUse then -1 else |frames| - 1
  }

  /** The time a replacement algorithm compares. */
  function Age(algo: ReplacementAlgorithm, frame: PageFrame): int {
    if algo.FIFO? then frame.allocationTime else frame.lastAccess
  }

  /** The first allocated frame of least age, or -1 when no allocated frame is younger than INT_MAX. */
  function Victim(algo: ReplacementAlgorithm, frames: seq<PageFrame>): (f: int)
    ensures -1 <= f < |frames|
    ensures f == -1 ==> forall g :: 0 <= g < |frames| && frames[g].inUse ==> Age(algo, frames[g]) >= INT_MAX
    ensures f != -1 ==>
              && frames[f].inUse && Age(algo, frames[f]) < INT_MAX
              && (forall g :: 0 <= g < |frames| && frames[g].inUse ==> Age(algo, frames[f]) <= Age(algo, frames[g]))
              && (forall g :: 0 <= g < f && frames[g].inUse ==> Age(algo, frames[f]) < Age(algo, frames[g]))
  {
    if frames == [] then -1
    else
      var front, last := frames[..|frames| - 1], frames[|frames| - 1];
      var f := Victim(algo, front);
      assert forall g :: 0 <= g < |front| ==> front[g] == frames[g];
      if last.inUse && Age(algo, last) < (if f == -1 then INT_MAX else Age(algo, frames[f])) then |frames| - 1 else f
  }

  /** The frame a fault will use, or -1. */
  function Target(m: Memory): (f: int)
    ensures -1 <= f < |m.frames|
  {
    if FirstFree(m.frames) != -1 then FirstFree(m.frames) else Victim(m.algo, m.frames)
  }

  /** Position of the first entry for a virtual page, valid or not. */
  function FindEntry(table: seq<PageTableEntry>, v: int): (i: int)
    ensures -1 <= i < |table|
    ensures i == -1 ==> forall j :: 0 <= j < |table| ==> table[j].virtualPage != v
    ensures i != -1 ==> table[i].virtualPage == v && forall j :: 0 <= j < i ==> table[j].virtualPage != v
  {
    if table == [] then -1
    else
      var front := table[..|table| - 1];
      var i := FindEntry(front, v);
      assert forall j :: 0 <= j < |front| ==> front[j] == table[j];
      if i != -1 then i else if table[|table| - 1].virtualPage == v then |table| - 1 else -1
  }

  /** The frame of the first valid entry for a virtual page, or -1. */
  function Lookup(table: seq<PageTableEntry>, v: int): int {
    if table == [] then -1
    else if table[0].virtualPage == v && table[0].valid then table[0].physicalFrame
    else Lookup(table[1..], v)
  }

  function PhysicalFrame(m: Memory, p: int, v: int): int {
    if p in m.tables then Lookup(m.tables[p], v) else -1
  }

  function TableOf(tables: PageTables, p: int): seq<PageTableEntry> {
    if p in tables then tables[p] else []
  }

  /** Change the first entry for v, or append one when the new mapping is valid. */
  function SetEntry(table: seq<PageTableEntry>, v: int, f: int, valid: bool): seq<PageTableEntry> {
    var i := FindEntry(table, v);
    if i != -1 then table[i := PageTableEntry(v, f, valid)]
    else if valid then table + [PageTableEntry(v, f, true)]
    else table
  }

  function UpdateEntry(tables: PageTables, p: int, v: int, f: int, valid: bool): PageTables {
    tables[p := SetEntry(TableOf(tables, p), v, f, valid)]
  }

  function LoadedFrame(m: Memory, p: int, v: int): PageFrame {
    PageFrame(p, v, true, m.clock, m.clock)
  }

  /** One turn of the allocation loop. */
  function LoadNext(m: Memory, p: int, v: int): Memory {
    var f := FirstFree(m.frames);
    if f == -1 then m
    else m.(frames := m.frames[f := LoadedFrame(m, p, v)],
            tables := m.tables[p := TableOf(m.tables, p) + [PageTableEntry(v, f, true)]])
  }

  /** The first n turns of the allocation loop. */
  function LoadPages(m: Memory, p: int, n: nat): Memory {
    if n == 0 then m.(tables := m.tables[p := TableOf(m.tables, p)])
    else LoadNext(LoadPages(m, p, n - 1), p, n - 1)
  }

  predicate CanAllocate(m: Memory, n: int) {
    0 < n <= FreeCount(m.frames)
  }

  function Allocate(m: Memory, p: int, n: int): Memory {
    if CanAllocate(m, n) then LoadPages(m, p, n) else m
  }

  function Released(frame: PageFrame, p: int): PageFrame {
    if frame.processId == p && frame.inUse then FREE_FRAME else frame
  }

  function Deallocate(m: Memory, p: int): Memory {
    m.(frames := seq(|m.frames|, f requires 0 <= f < |m.frames| => Released(m.frames[f], p)), tables := m.tables - {p})
  }

  /** The tables after the old page of the target frame has been unmapped. */
  function Evicted(m: Memory, f: int): PageTables
    requires 0 <= f < |m.frames|
  {
    if m.frames[f].inUse then UpdateEntry(m.tables, m.frames[f].processId, m.frames[f].pageNumber, -1, false)
    else m.tables
  }

  function Fault(m: Memory, p: int, v: int): Memory {
    var f := Target(m);
    if f == -1 then m.(faults := m.faults + 1)
    else m.(faults := m.faults + 1,
            replacements := m.replacements + (if FirstFree(m.frames) == -1 then 1 else 0),
            frames := m.frames[f := LoadedFrame(m, p, v)],
            tables := UpdateEntry(Evicted(m, f), p, v, f, true))
  }

  function Access(m: Memory, p: int, v: int, now: int): Memory {
    var f := PhysicalFrame(m, p, v);
    m.(clock := now,
       frames := if 0 <= f < |m.frames| then m.frames[f := m.frames[f].(lastAccess := now)] else m.frames)
  }
}
