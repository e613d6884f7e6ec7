/**
 The frame table and the page tables are two indexes of the same mapping. They stay mutual
 inverses under every operation; where a call could break that, the exact condition is given.
*/
module PagingInverse {
  import opened KernelTypes
  import opened Paging

  ghost predicate OneEntryPerPage(table: seq<PageTableEntry>) {
    forall i, j :: 0 <= i < j < |table| ==> table[i].virtualPage != table[j].virtualPage
  }

  /** Frame f is allocated to (p, v) exactly when p's one entry for v is valid and names f. */
  ghost predicate Consistent(m: Memory) {
    && (forall p :: p in m.tables ==> OneEntryPerPage(m.tables[p]))
    && (forall f :: 0 <= f < |m.frames| && m.frames[f].inUse ==>
          PhysicalFrame(m, m.frames[f].processId, m.frames[f].pageNumber) == f)
    && (forall p, v :: PhysicalFrame(m, p, v) != -1 ==> Backs(m, PhysicalFrame(m, p, v), p, v))
  }

  predicate Backs(m: Memory, f: int, p: int, v: int) {
    0 <= f < |m.frames| && m.frames[f].inUse && m.frames[f].processId == p && m.frames[f].pageNumber == v
  }

  /** With one entry per page, looking up is reading the one entry. */
  lemma {:induction false} LookupIsFind(table: seq<PageTableEntry>, v: int)
    requires OneEntryPerPage(table)
    ensures Lookup(table, v) ==
              (var i := FindEntry(table, v); if i != -1 && table[i].valid then table[i].physicalFrame else -1)
  {
    var i := FindEntry(table, v);
    if table != [] {
      assert forall k :: 0 <= k < |table| - 1 ==> table[1..][k] == table[k + 1];
      LookupIsFind(table[1..], v);
      var j := FindEntry(table[1..], v);
      if i > 0 {
        assert table[1..][i - 1] == table[i];
        assert j == i - 1;
      }
    }
  }

  lemma FindEntryIs(table: seq<PageTableEntry>, i: int)
    requires OneEntryPerPage(table) && 0 <= i < |table|
    ensures FindEntry(table, table[i].virtualPage) == i
  {
  }

  /** Setting one entry changes the lookup of that page and of no other. */
  lemma SetEntryLookup(table: seq<PageTableEntry>, v: int, f: int, valid: bool, w: int)
    requires OneEntryPerPage(table)
    ensures OneEntryPerPage(SetEntry(table, v, f, valid))
    ensures Lookup(SetEntry(table, v, f, valid), w) ==
              if w == v then (if valid then f else -1) else Lookup(table, w)
  {
    var t := SetEntry(table, v, f, valid);
    var i := FindEntry(table, w);
    LookupIsFind(table, w);
    LookupIsFind(t, w);
    if i != -1 {
      assert t[i].virtualPage == w;
      FindEntryIs(t, i);
    }
  }

  /**
   Setting an entry changes one entry in place or appends one: an existing entry is reused, valid
   or not, and an invalid mapping is never added.
  */
  lemma SetEntryShape(table: seq<PageTableEntry>, v: int, f: int, valid: bool)
    requires OneEntryPerPage(table)
    ensures var t := SetEntry(table, v, f, valid);
            && (forall i :: 0 <= i < |table| ==>
                 i < |t| && t[i] == if table[i].virtualPage == v then PageTableEntry(v, f, valid) else table[i])
            && if valid && forall i :: 0 <= i < |table| ==> table[i].virtualPage != v
               then |t| == |table| + 1 && t[|table|] == PageTableEntry(v, f, true)
               else |t| == |table|
  {
  }

  /** One entry per page survives every update of a table that keeps it. */
  lemma UpdateEntryLookup(m: Memory, p: int, v: int, f: int, valid: bool, q: int, w: int)
    requires forall r :: r in m.tables ==> OneEntryPerPage(m.tables[r])
    ensures var n := m.(tables := UpdateEntry(m.tables, p, v, f, valid));
            && (forall r :: r in n.tables ==> OneEntryPerPage(n.tables[r]))
            && PhysicalFrame(n, q, w) == if q == p && w == v then (if valid then f else -1) else PhysicalFrame(m, q, w)
  {
    SetEntryLookup(TableOf(m.tables, p), v, f, valid, w);
  }

  lemma EvictedLookup(m: Memory, f: int, q: int, w: int)
    requires (forall r :: r in m.tables ==> OneEntryPerPage(m.tables[r])) && 0 <= f < |m.frames|
    ensures var n := m.(tables := Evicted(m, f));
            && (forall r :: r in n.tables ==> OneEntryPerPage(n.tables[r]))
            && PhysicalFrame(n, q, w) == if Backs(m, f, q, w) then -1 else PhysicalFrame(m, q, w)
  {
    UpdateEntryLookup(m, m.frames[f].processId, m.frames[f].pageNumber, -1, false, q, w);
  }

  /** A fault maps the new page, unmaps the page that was in its frame, and changes no other mapping. */
  lemma FaultLookup(m: Memory, p: int, v: int, q: int, w: int)
    requires Consistent(m)
    ensures forall r :: r in Fault(m, p, v).tables ==> OneEntryPerPage(Fault(m, p, v).tables[r])
    ensures PhysicalFrame(Fault(m, p, v), q, w) ==
              if Target(m) == -1 then PhysicalFrame(m, q, w)
              else if q == p && w == v then Target(m)
              else if Backs(m, Target(m), q, w) then -1
              else PhysicalFrame(m, q, w)
  {
    var f := Target(m);
    if f != -1 {
      EvictedLookup(m, f, q, w);
      UpdateEntryLookup(m.(tables := Evicted(m, f)), p, v, f, true, q, w);
      assert PhysicalFrame(Fault(m, p, v), q, w) == PhysicalFrame(m.(tables := UpdateEntry(Evicted(m, f), p, v, f, true)), q, w);
    } else {
      assert PhysicalFrame(Fault(m, p, v), q, w) == PhysicalFrame(m, q, w);
    }
  }

  lemma FaultTables(m: Memory, p: int, v: int)
    requires Consistent(m)
    ensures forall r :: r in Fault(m, p, v).tables ==> OneEntryPerPage(Fault(m, p, v).tables[r])
  {
    FaultLookup(m, p, v, p, v);
  }

  /** What a caller of the fault handler can check beforehand. */
  predicate FaultAllowed(m: Memory, p: int, v: int) {
    PhysicalFrame(m, p, v) == -1 || Target(m) == -1 || Target(m) == PhysicalFrame(m, p, v)
  }

  /**
   Handling a fault keeps the two indexes inverse exactly when the page was not resident, or no
   frame could be found, or the victim was the page itself.
  */
  lemma FaultKeepsConsistentIff(m: Memory, p: int, v: int)
    requires Consistent(m)
    ensures Consistent(Fault(m, p, v)) <==> FaultAllowed(m, p, v)
  {
    var n, f := Fault(m, p, v), Target(m);
    FaultTables(m, p, v);
    if FaultAllowed(m, p, v) {
      forall g | 0 <= g < |n.frames| && n.frames[g].inUse
        ensures PhysicalFrame(n, n.frames[g].processId, n.frames[g].pageNumber) == g
      {
        FaultLookup(m, p, v, n.frames[g].processId, n.frames[g].pageNumber);
      }
      forall q, w | PhysicalFrame(n, q, w) != -1 ensures Backs(n, PhysicalFrame(n, q, w), q, w) {
        FaultLookup(m, p, v, q, w);
      }
    } else {
      FaultLookup(m, p, v, p, v);
      var g := PhysicalFrame(m, p, v);
      assert Backs(m, g, p, v) && n.frames[g] == m.frames[g];
    }
  }

  lemma {:induction false} FreeCountUpdate(frames: seq<PageFrame>, f: int, x: PageFrame)
    requires 0 <= f < |frames| && !frames[f].inUse && x.inUse
    ensures FreeCount(frames[f := x]) == FreeCount(frames) - 1
  {
    var front := frames[..|frames| - 1];
    if f < |front| {
      FreeCountUpdate(front, f, x);
      assert frames[f := x][..|frames| - 1] == front[f := x];
    } else {
      assert frames[f := x][..|frames| - 1] == front;
    }
  }

  lemma {:induction false} FreeCountZero(frames: seq<PageFrame>)
    ensures FreeCount(frames) == 0 <==> FirstFree(frames) == -1
  {
    if frames != [] { FreeCountZero(frames[..|frames| - 1]); }
  }

  /** What the first n turns of the loop do to the table of the process. */
  ghost predicate Extends(old': seq<PageTableEntry>, table: seq<PageTableEntry>, n: nat) {
    && |table| == |old'| + n
    && (forall i :: 0 <= i < |old'| ==> table[i] == old'[i])
    && forall i :: |old'| <= i < |table| ==> table[i].virtualPage == i - |old'|
  }

  /** The first n turns of the loop load pages 0..n-1, use n free frames and touch no other table. */
  lemma {:induction false} LoadPagesShape(m: Memory, p: int, n: nat)
    requires n <= FreeCount(m.frames)
    ensures |LoadPages(m, p, n).frames| == |m.frames|
    ensures FreeCount(LoadPages(m, p, n).frames) == FreeCount(m.frames) - n
    ensures p in LoadPages(m, p, n).tables && Extends(TableOf(m.tables, p), LoadPages(m, p, n).tables[p], n)
    ensures LoadPages(m, p, n).tables - {p} == m.tables - {p}
  {
    hide LoadNext, Extends;
    if n == 0 {
      ExtendsItself(TableOf(m.tables, p));
    } else {
      LoadPagesShape(m, p, n - 1);
      var k := LoadPages(m, p, n - 1);
      FreeCountZero(k.frames);
      LoadNextShape(k, p, n - 1);
      ExtendsByOne(TableOf(m.tables, p), k.tables[p], n - 1, FirstFree(k.frames));
      assert LoadPages(m, p, n) == LoadNext(k, p, n - 1);
    }
  }

  lemma ExtendsItself(table: seq<PageTableEntry>)
    ensures Extends(table, table, 0)
  {
  }

  lemma ExtendsByOne(old': seq<PageTableEntry>, table: seq<PageTableEntry>, n: nat, f: int)
    requires Extends(old', table, n)
    ensures Extends(old', table + [PageTableEntry(n, f, true)], n + 1)
  {
  }

  lemma LoadNextShape(m: Memory, p: int, v: int)
    requires FirstFree(m.frames) != -1
    ensures |LoadNext(m, p, v).frames| == |m.frames|
    ensures FreeCount(LoadNext(m, p, v).frames) == FreeCount(m.frames) - 1
    ensures LoadNext(m, p, v).tables == m.tables[p := TableOf(m.tables, p) + [PageTableEntry(v, FirstFree(m.frames), true)]]
    ensures LoadNext(m, p, v).tables - {p} == m.tables - {p}
  {
    FreeCountUpdate(m.frames, FirstFree(m.frames), LoadedFrame(m, p, v));
  }

  predicate Collides(table: seq<PageTableEntry>, n: int) {
    exists i :: 0 <= i < |table| && 0 <= table[i].virtualPage < n
  }

  /** Appending an entry for a page without one maps that page and changes no other mapping. */
  lemma LoadNextLookup(m: Memory, p: int, v: int, q: int, w: int)
    requires Consistent(m) && FirstFree(m.frames) != -1 && FindEntry(TableOf(m.tables, p), v) == -1
    ensures forall r :: r in LoadNext(m, p, v).tables ==> OneEntryPerPage(LoadNext(m, p, v).tables[r])
    ensures PhysicalFrame(LoadNext(m, p, v), q, w) ==
              if q == p && w == v then FirstFree(m.frames) else PhysicalFrame(m, q, w)
  {
    var f := FirstFree(m.frames);
    UpdateEntryLookup(m, p, v, f, true, q, w);
    assert LoadNext(m, p, v).tables == UpdateEntry(m.tables, p, v, f, true);
  }

  lemma LoadNextConsistent(m: Memory, p: int, v: int)
    requires Consistent(m) && FirstFree(m.frames) != -1 && FindEntry(TableOf(m.tables, p), v) == -1
    ensures Consistent(LoadNext(m, p, v))
  {
    var n := LoadNext(m, p, v);
    LoadNextLookup(m, p, v, p, v);
    assert PhysicalFrame(m, p, v) == -1 by { if p in m.tables { LookupIsFind(m.tables[p], v); } }
    forall g | 0 <= g < |n.frames| && n.frames[g].inUse
      ensures PhysicalFrame(n, n.frames[g].processId, n.frames[g].pageNumber) == g
    {
      LoadNextLookup(m, p, v, n.frames[g].processId, n.frames[g].pageNumber);
    }
    forall q, w | PhysicalFrame(n, q, w) != -1 ensures Backs(n, PhysicalFrame(n, q, w), q, w) {
      LoadNextLookup(m, p, v, q, w);
    }
  }

  lemma NoCollisionNext(old': seq<PageTableEntry>, table: seq<PageTableEntry>, n: nat)
    requires Extends(old', table, n) && !Collides(old', n + 1)
    ensures FindEntry(table, n) == -1
  {
    assert forall i :: 0 <= i < |old'| ==> old'[i].virtualPage != n;
  }

  lemma NoCollisionBelow(table: seq<PageTableEntry>, n: int)
    requires !Collides(table, n)
    ensures !Collides(table, n - 1)
  {
    assert forall i :: 0 <= i < |table| ==> !(0 <= table[i].virtualPage < n);
  }

  lemma {:induction false} LoadPagesConsistent(m: Memory, p: int, n: nat)
    requires Consistent(m) && n <= FreeCount(m.frames) && !Collides(TableOf(m.tables, p), n)
    ensures Consistent(LoadPages(m, p, n))
  {
    hide Consistent, Collides, Extends, LoadNext;
    if n == 0 {
      EmptyTableConsistent(m, p);
    } else {
      NoCollisionBelow(TableOf(m.tables, p), n);
      LoadPagesConsistent(m, p, n - 1);
      LoadPagesShape(m, p, n - 1);
      var k := LoadPages(m, p, n - 1);
      FreeCountZero(k.frames);
      NoCollisionNext(TableOf(m.tables, p), k.tables[p], n - 1);
      LoadNextConsistent(k, p, n - 1);
    }
  }

  lemma EmptyTableConsistent(m: Memory, p: int)
    requires Consistent(m)
    ensures Consistent(m.(tables := m.tables[p := TableOf(m.tables, p)]))
  {
    var n := m.(tables := m.tables[p := TableOf(m.tables, p)]);
    forall q, w ensures PhysicalFrame(n, q, w) == PhysicalFrame(m, q, w) {
    }
  }

  /**
   Allocation keeps the two indexes inverse exactly when it is refused, or when the process has
   no entry yet for one of the pages 0..n-1; a process without a table always qualifies.
  */
  lemma AllocateKeepsConsistentIff(m: Memory, p: int, n: int)
    requires Consistent(m)
    ensures Consistent(Allocate(m, p, n)) <==> (!CanAllocate(m, n) || !Collides(TableOf(m.tables, p), n))
    ensures p !in m.tables ==> Consistent(Allocate(m, p, n))
  {
    if CanAllocate(m, n) {
      if !Collides(TableOf(m.tables, p), n) {
        LoadPagesConsistent(m, p, n);
      } else {
        LoadPagesShape(m, p, n);
        var table, k := TableOf(m.tables, p), LoadPages(m, p, n);
        var i :| 0 <= i < |table| && 0 <= table[i].virtualPage < n;
        var j := |table| + table[i].virtualPage;
        assert k.tables[p][i].virtualPage == k.tables[p][j].virtualPage;
      }
    }
  }

  // Counting frames.

  ghost function UsedFrames(frames: seq<PageFrame>): set<int> {
    set f | 0 <= f < |frames| && frames[f].inUse
  }

  /** The free frames that the scan counts are those not in use. */
  lemma {:induction false} UsedFramesCount(frames: seq<PageFrame>)
    ensures |UsedFrames(frames)| + FreeCount(frames) == |frames|
  {
    if frames != [] {
      var n := |frames| - 1;
      UsedFramesCount(frames[..n]);
      assert UsedFrames(frames) == UsedFrames(frames[..n]) + (if frames[n].inUse then {n} else {});
    }
  }

  ghost function FreeFrames(frames: seq<PageFrame>): set<int> {
    set f | 0 <= f < |frames| && !frames[f].inUse
  }

  lemma {:induction false} FreeFramesCount(frames: seq<PageFrame>)
    ensures |FreeFrames(frames)| == FreeCount(frames)
  {
    if frames != [] {
      var n := |frames| - 1;
      FreeFramesCount(frames[..n]);
      assert FreeFrames(frames) == FreeFrames(frames[..n]) + (if frames[n].inUse then {} else {n});
    }
  }

  // What an allocation maps.

  /** A frame given to page v of p now. */
  predicate LoadedWith(frame: PageFrame, p: int, v: int, clock: int) {
    frame.inUse && frame.processId == p && frame.pageNumber == v && frame.allocationTime == clock && frame.lastAccess == clock
  }

  /** After n turns of the loop pages 0..n-1 are mapped to frames that were free; nothing else is remapped. */
  lemma {:induction false} LoadPagesLookup(m: Memory, p: int, n: nat, q: int, w: int)
    requires Consistent(m) && n <= FreeCount(m.frames) && !Collides(TableOf(m.tables, p), n)
    ensures q == p && 0 <= w < n ==> PhysicalFrame(LoadPages(m, p, n), q, w) != -1
    ensures !(q == p && 0 <= w < n) ==> PhysicalFrame(LoadPages(m, p, n), q, w) == PhysicalFrame(m, q, w)
  {
    hide Consistent, Collides, Extends, LoadNext;
    if n > 0 {
      NoCollisionBelow(TableOf(m.tables, p), n);
      LoadPagesLookup(m, p, n - 1, q, w);
      LoadPagesConsistent(m, p, n - 1);
      LoadPagesShape(m, p, n - 1);
      var k := LoadPages(m, p, n - 1);
      FreeCountZero(k.frames);
      NoCollisionNext(TableOf(m.tables, p), k.tables[p], n - 1);
      LoadNextLookup(k, p, n - 1, q, w);
    }
  }

  /** Frames in use stay as they are; a free frame stays free or holds one of the pages, loaded now. */
  lemma {:induction false} LoadPagesFrames(m: Memory, p: int, n: nat)
    requires n <= FreeCount(m.frames)
    ensures var k := LoadPages(m, p, n);
            && |k.frames| == |m.frames| && k.clock == m.clock && k.algo == m.algo
            && k.faults == m.faults && k.replacements == m.replacements
            && forall f :: 0 <= f < |m.frames| ==>
                 if m.frames[f].inUse then k.frames[f] == m.frames[f]
                 else k.frames[f] == m.frames[f]
                      || (0 <= k.frames[f].pageNumber < n && LoadedWith(k.frames[f], p, k.frames[f].pageNumber, m.clock))
  {
    if n > 0 { LoadPagesFrames(m, p, n - 1); }
  }

  /**
   The whole effect of an allocation. If 0 < n <= free frames, exactly pages 0..n-1 of the process
   become mapped, to frames that were free, and the free frames fall by n; otherwise nothing
   changes. The counters and the clock never change.
  */
  lemma AllocateMapsExactly(m: Memory, p: int, n: int)
    requires Consistent(m) && !Collides(TableOf(m.tables, p), n)
    ensures var k := Allocate(m, p, n);
            && k.clock == m.clock && k.faults == m.faults && k.replacements == m.replacements && k.algo == m.algo
            && |k.frames| == |m.frames|
            && (!(0 < n <= |FreeFrames(m.frames)|) ==> k.frames == m.frames && k.tables == m.tables)
            && (0 < n <= |FreeFrames(m.frames)| ==>
                 && |FreeFrames(k.frames)| == |FreeFrames(m.frames)| - n
                 && (forall f :: 0 <= f < |m.frames| ==>
                      k.frames[f] == m.frames[f]
                      || (!m.frames[f].inUse && 0 <= k.frames[f].pageNumber < n
                          && LoadedWith(k.frames[f], p, k.frames[f].pageNumber, m.clock)))
                 && forall q, w :: if q == p && 0 <= w < n then PhysicalFrame(k, q, w) != -1
                                   else PhysicalFrame(k, q, w) == PhysicalFrame(m, q, w))
  {
    FreeFramesCount(m.frames);
    hide Consistent, Collides, PhysicalFrame, LoadPages, FreeCount, FreeFrames;
    if CanAllocate(m, n) {
      LoadPagesFrames(m, p, n);
      LoadPagesShape(m, p, n);
      FreeFramesCount(LoadPages(m, p, n).frames);
      forall q, w ensures if q == p && 0 <= w < n then PhysicalFrame(LoadPages(m, p, n), q, w) != -1
                          else PhysicalFrame(LoadPages(m, p, n), q, w) == PhysicalFrame(m, q, w)
      {
        LoadPagesLookup(m, p, n, q, w);
      }
    }
  }

  lemma DeallocateLookup(m: Memory, p: int, q: int, w: int)
    ensures PhysicalFrame(Deallocate(m, p), q, w) == if q == p then -1 else PhysicalFrame(m, q, w)
  {
  }

  /** Freeing a process empties exactly its frames, unmaps it, and changes no other mapping. */
  lemma DeallocateKeepsConsistent(m: Memory, p: int)
    requires Consistent(m)
    ensures Consistent(Deallocate(m, p)) && p !in Deallocate(m, p).tables
    ensures |Deallocate(m, p).frames| == |m.frames|
    ensures forall f :: 0 <= f < |m.frames| ==>
              Deallocate(m, p).frames[f] ==
                if m.frames[f].inUse && m.frames[f].processId == p then PageFrame(-1, -1, false, 0, 0) else m.frames[f]
    ensures forall q, w :: PhysicalFrame(Deallocate(m, p), q, w) == if q == p then -1 else PhysicalFrame(m, q, w)
  {
    var n := Deallocate(m, p);
    forall q, w ensures PhysicalFrame(n, q, w) == if q == p then -1 else PhysicalFrame(m, q, w) {
      DeallocateLookup(m, p, q, w);
    }
    forall q, w | PhysicalFrame(n, q, w) != -1 ensures Backs(n, PhysicalFrame(n, q, w), q, w) {
      assert Backs(m, PhysicalFrame(m, q, w), q, w);
    }
  }

  /** An access changes only the access time of the page's own frame. */
  lemma AccessKeepsConsistent(m: Memory, p: int, v: int, now: int)
    requires Consistent(m)
    ensures Consistent(Access(m, p, v, now))
    ensures forall q, w :: PhysicalFrame(Access(m, p, v, now), q, w) == PhysicalFrame(m, q, w)
  {
    var n := Access(m, p, v, now);
    forall q, w ensures PhysicalFrame(n, q, w) == PhysicalFrame(m, q, w) {
    }
    forall q, w | PhysicalFrame(n, q, w) != -1 ensures Backs(n, PhysicalFrame(n, q, w), q, w) {
      assert Backs(m, PhysicalFrame(m, q, w), q, w);
    }
  }

  /** An access stamps the frame of the page, if it has one, and sets the clock; nothing else changes. */
  lemma AccessStamps(m: Memory, p: int, v: int, now: int)
    requires Consistent(m)
    ensures var a := Access(m, p, v, now);
            && a.clock == now && a.faults == m.faults && a.replacements == m.replacements && a.algo == m.algo
            && |a.frames| == |m.frames|
            && forall f :: 0 <= f < |m.frames| ==>
                 var b, c := m.frames[f], a.frames[f];
                 && c.inUse == b.inUse && c.processId == b.processId && c.pageNumber == b.pageNumber
                 && c.allocationTime == b.allocationTime
                 && c.lastAccess == if b.inUse && b.processId == p && b.pageNumber == v then now else b.lastAccess
  {
    assert PhysicalFrame(m, p, v) != -1 ==> Backs(m, PhysicalFrame(m, p, v), p, v);
  }

  datatype PagerCall =
    | CallAllocate(pid: int, pages: int)
    | CallDeallocate(pid: int)
    | CallFault(pid: int, page: int)
    | CallAccess(pid: int, page: int, time: int)
    | CallAlgorithm(algo: ReplacementAlgorithm)

  function Call(m: Memory, c: PagerCall): Memory {
    match c
    case CallAllocate(p, n) => Allocate(m, p, n)
    case CallDeallocate(p) => Deallocate(m, p)
    case CallFault(p, v) => Fault(m, p, v)
    case CallAccess(p, v, t) => Access(m, p, v, t)
    case CallAlgorithm(a) => m.(algo := a)
  }

  /** The caller's side: allocation without a page collision, faults only where allowed. */
  predicate CallAllowed(m: Memory, c: PagerCall) {
    match c
    case CallAllocate(p, n) => !CanAllocate(m, n) || !Collides(TableOf(m.tables, p), n)
    case CallFault(p, v) => FaultAllowed(m, p, v)
    case _ => true
  }

  function Calls(m: Memory, cs: seq<PagerCall>): Memory {
    if cs == [] then m else Call(Calls(m, cs[..|cs| - 1]), cs[|cs| - 1])
  }

  predicate CallsAllowed(m: Memory, cs: seq<PagerCall>) {
    cs == [] || (CallsAllowed(m, cs[..|cs| - 1]) && CallAllowed(Calls(m, cs[..|cs| - 1]), cs[|cs| - 1]))
  }

  lemma CallKeepsConsistentIff(m: Memory, c: PagerCall)
    requires Consistent(m)
    ensures Consistent(Call(m, c)) <==> CallAllowed(m, c)
  {
    match c
    case CallAllocate(p, n) => AllocateKeepsConsistentIff(m, p, n);
    case CallDeallocate(p) => DeallocateKeepsConsistent(m, p);
    case CallFault(p, v) => FaultKeepsConsistentIff(m, p, v);
    case CallAccess(p, v, t) => AccessKeepsConsistent(m, p, v, t);
    case CallAlgorithm(a) =>
      forall q, w ensures PhysicalFrame(m.(algo := a), q, w) == PhysicalFrame(m, q, w) {
      }
  }

  /** Every reachable state of the pager has consistent indexes. */
  lemma {:induction false} AlwaysConsistent(numFrames: nat, algo: ReplacementAlgorithm, cs: seq<PagerCall>)
    requires CallsAllowed(Empty(numFrames, algo), cs)
    ensures Consistent(Calls(Empty(numFrames, algo), cs))
  {
    if cs != [] {
      AlwaysConsistent(numFrames, algo, cs[..|cs| - 1]);
      CallKeepsConsistentIff(Calls(Empty(numFrames, algo), cs[..|cs| - 1]), cs[|cs| - 1]);
    }
  }

  lemma OneCall(m: Memory, c: PagerCall)
    ensures Calls(m, [c]) == Call(m, c)
  {
    assert [c][..0] == [];
    assert Calls(m, []) == m;
  }

  lemma EmptyConsistent(numFrames: nat, algo: ReplacementAlgorithm)
    ensures Consistent(Empty(numFrames, algo))
  {
  }

  lemma FirstFreeIs(frames: seq<PageFrame>, f: int)
    requires 0 <= f < |frames| && !frames[f].inUse && forall g :: 0 <= g < f ==> frames[g].inUse
    ensures FirstFree(frames) == f
  {
  }

  /** The failing case of a fault is reachable: a second fault on the same page while a frame is free. */
  lemma RepeatedFaultBreaks(numFrames: nat, algo: ReplacementAlgorithm, p: int, v: int)
    requires numFrames >= 2
    ensures var m := Calls(Empty(numFrames, algo), [CallFault(p, v)]);
            Consistent(m) && !Consistent(Call(m, CallFault(p, v)))
  {
    var e := Empty(numFrames, algo);
    var m := Fault(e, p, v);
    OneCall(e, CallFault(p, v));
    EmptyConsistent(numFrames, algo);
    FirstFreeIs(e.frames, 0);
    FirstFreeIs(m.frames, 1);
    FaultKeepsConsistentIff(e, p, v);
    FaultLookup(e, p, v, p, v);
    FaultKeepsConsistentIff(m, p, v);
  }

  /** The failing case of an allocation is reachable: a second allocation for the same process. */
  lemma RepeatedAllocationBreaks(numFrames: nat, algo: ReplacementAlgorithm, p: int)
    requires numFrames >= 2
    ensures var m := Calls(Empty(numFrames, algo), [CallAllocate(p, 1)]);
            Consistent(m) && !Consistent(Call(m, CallAllocate(p, 1)))
  {
    var e := Empty(numFrames, algo);
    var m := Allocate(e, p, 1);
    OneCall(e, CallAllocate(p, 1));
    EmptyConsistent(numFrames, algo);
    AllFree(numFrames);
    LoadPagesShape(e, p, 1);
    AllocateKeepsConsistentIff(e, p, 1);
    assert m.tables[p][0].virtualPage == 0;
    AllocateKeepsConsistentIff(m, p, 1);
  }

  lemma {:induction false} AllFree(n: nat)
    ensures FreeCount(seq(n, _ => FREE_FRAME)) == n
  {
    if n > 0 {
      AllFree(n - 1);
      assert seq(n, _ => FREE_FRAME)[..n - 1] == seq(n - 1, _ => FREE_FRAME);
    }
  }

  /** Consequences: no frame serves two pages, no page has two frames, and lookup is exact. */
  lemma MappingIsOneToOne(m: Memory, f: int, g: int, p: int, v: int)
    requires Consistent(m) && Backs(m, f, p, v)
    ensures PhysicalFrame(m, p, v) == f
    ensures Backs(m, g, p, v) ==> g == f
    ensures forall q, w :: PhysicalFrame(m, q, w) == f ==> q == p && w == v
  {
    forall q, w | PhysicalFrame(m, q, w) == f ensures q == p && w == v {
      assert Backs(m, PhysicalFrame(m, q, w), q, w);
    }
  }
}
