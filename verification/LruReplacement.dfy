/**
 LRU replacement. Driven by a reference string from empty memory, the resident pages are always
 the most recently referenced ones, as many as there are frames. So more frames never lose a
 page and never fault more.
*/
module LruReplacement {
  import opened KernelTypes
  import opened Paging
  import opened PagingInverse

  /** One reference of the string: a page of a process and the time of the access. */
  datatype Reference = Reference(pid: int, page: int, time: int)

  type Key = (int, int)

  function KeyOf(x: Reference): Key {
    (x.pid, x.page)
  }

  /** An access, followed by the fault handler when the page is not resident. */
  function Refer(m: Memory, x: Reference): Memory {
    var a := Access(m, x.pid, x.page, x.time);
    if PhysicalFrame(a, x.pid, x.page) == -1 then Fault(a, x.pid, x.page) else a
  }

  function ReferAll(numFrames: nat, refs: seq<Reference>): Memory {
    if refs == [] then Empty(numFrames, LRU) else Refer(ReferAll(numFrames, refs[..|refs| - 1]), refs[|refs| - 1])
  }

  /** The distinct pages of a string, the most recent first. */
  function Recency(refs: seq<Reference>): seq<Key> {
    if refs == [] then [] else ToFront(Recency(refs[..|refs| - 1]), KeyOf(refs[|refs| - 1]))
  }

  function Drop(list: seq<Key>, x: Key): seq<Key> {
    if list == [] then [] else (if list[0] == x then list[1..] else [list[0]] + Drop(list[1..], x))
  }

  function ToFront(list: seq<Key>, x: Key): seq<Key> {
    [x] + Drop(list, x)
  }

  ghost predicate Distinct(list: seq<Key>) {
    forall i, j :: 0 <= i < j < |list| ==> list[i] != list[j]
  }

  /** Dropping the element at position d of a distinct list closes the gap; an absent one changes nothing. */
  lemma {:induction false} DropAt(list: seq<Key>, d: nat)
    requires Distinct(list) && d < |list|
    ensures Drop(list, list[d]) == list[..d] + list[d + 1..]
  {
    if d > 0 {
      assert list[1..][d - 1] == list[d];
      DropAt(list[1..], d - 1);
      assert [list[0]] + (list[1..][..d - 1] + list[1..][d..]) == list[..d] + list[d + 1..];
    }
  }

  lemma {:induction false} DropAbsent(list: seq<Key>, x: Key)
    requires x !in list
    ensures Drop(list, x) == list
  {
    if list != [] { DropAbsent(list[1..], x); }
  }

  lemma {:induction false} DropFacts(list: seq<Key>, x: Key)
    requires Distinct(list)
    ensures Distinct(Drop(list, x)) && x !in Drop(list, x)
    ensures forall y :: y in Drop(list, x) <==> y in list && y != x
  {
    if list != [] {
      assert forall k :: 0 <= k < |list[1..]| ==> list[1..][k] == list[k + 1];
      DropFacts(list[1..], x);
      assert list == [list[0]] + list[1..];
      assert list[0] !in list[1..];
    }
  }

  lemma ToFrontFacts(list: seq<Key>, x: Key)
    requires Distinct(list)
    ensures Distinct(ToFront(list, x))
    ensures forall y :: y in ToFront(list, x) <==> y == x || y in list
  {
    DropFacts(list, x);
    hide Drop;
  }

  /** The recency list has every referenced page exactly once. */
  lemma {:induction false} RecencyDistinct(refs: seq<Reference>)
    ensures Distinct(Recency(refs))
    ensures forall x :: x in Recency(refs) <==> exists k :: 0 <= k < |refs| && KeyOf(refs[k]) == x
  {
    if refs != [] {
      var front, last := refs[..|refs| - 1], refs[|refs| - 1];
      RecencyDistinct(front);
      ToFrontFacts(Recency(front), KeyOf(last));
      assert refs == front + [last];
      hide ToFront, Distinct;
      forall y ensures y in Recency(refs) <==> exists k :: 0 <= k < |refs| && KeyOf(refs[k]) == y {
        if y in Recency(front) {
          var k :| 0 <= k < |front| && KeyOf(front[k]) == y;
          assert KeyOf(refs[k]) == y;
        }
        if y == KeyOf(last) { assert KeyOf(refs[|front|]) == y; }
      }
    }
  }

  function Min(a: int, b: int): int {
    if a < b then a else b
  }

  function FrameOf(m: Memory, x: Key): int {
    PhysicalFrame(m, x.0, x.1)
  }

  /** The memory holds the first min(n, |list|) pages of the list, with falling access times. */
  ghost predicate Holds(m: Memory, list: seq<Key>, last: int) {
    var n := Min(|m.frames|, |list|);
    && Consistent(m) && m.algo.LRU?
    && (forall f :: 0 <= f < |m.frames| ==> (m.frames[f].inUse <==> f < n))
    && (forall i :: 0 <= i < n ==> 0 <= FrameOf(m, list[i]) < n)
    && (forall i :: n <= i < |list| ==> FrameOf(m, list[i]) == -1)
    && (forall x: Key :: x !in list ==> FrameOf(m, x) == -1)
    && (forall i, j :: 0 <= i < j < n ==>
          m.frames[FrameOf(m, list[i])].lastAccess > m.frames[FrameOf(m, list[j])].lastAccess)
    && (forall f :: 0 <= f < n ==> m.frames[f].lastAccess <= last)
  }

  /** A page of the list is at one position. */
  lemma PositionIn(list: seq<Key>, x: Key) returns (d: nat)
    requires x in list
    ensures d < |list| && list[d] == x
  {
    d :| 0 <= d < |list| && list[d] == x;
  }

  /** The frame of another listed page keeps its older time. */
  lemma HitOrder(m: Memory, list: seq<Key>, last: int, d: nat, j: nat)
    requires Holds(m, list, last) && Distinct(list)
    requires d < Min(|m.frames|, |list|) && j < Min(|m.frames|, |list|) && j != d
    ensures FrameOf(m, list[j]) != FrameOf(m, list[d]) && m.frames[FrameOf(m, list[j])].lastAccess <= last
  {
    if j < d {
      assert m.frames[FrameOf(m, list[j])].lastAccess > m.frames[FrameOf(m, list[d])].lastAccess;
    } else {
      assert m.frames[FrameOf(m, list[d])].lastAccess > m.frames[FrameOf(m, list[j])].lastAccess;
    }
  }

  /** Position i of the list with position d moved to the front. */
  function Shifted(d: int, i: int): int {
    if i == 0 then d else if i <= d then i - 1 else i
  }

  lemma HitList(list: seq<Key>, x: Key, d: nat)
    requires Distinct(list) && d < |list| && list[d] == x
    ensures |ToFront(list, x)| == |list|
    ensures forall i :: 0 <= i < |list| ==> ToFront(list, x)[i] == list[Shifted(d, i)]
  {
    DropAt(list, d);
  }

  /** A hit: the page moves to the front and its frame gets the newest time. */
  lemma HitHolds(m: Memory, list: seq<Key>, last: int, x: Key, now: int, d: nat)
    requires Holds(m, list, last) && Distinct(list) && last < now
    requires d < Min(|m.frames|, |list|) && list[d] == x
    ensures Holds(Access(m, x.0, x.1, now), ToFront(list, x), now)
  {
    var a, l, n := Access(m, x.0, x.1, now), ToFront(list, x), Min(|m.frames|, |list|);
    AccessKeepsConsistent(m, x.0, x.1, now);
    HitList(list, x, d);
    ToFrontFacts(list, x);
    assert forall y: Key :: FrameOf(a, y) == FrameOf(m, y);
    assert a.frames == m.frames[FrameOf(m, x) := m.frames[FrameOf(m, x)].(lastAccess := now)];
    HitPlaces(m, a, list, l, last, now, d);
  }

  lemma HitPair(m: Memory, list: seq<Key>, last: int, now: int, d: nat, i: nat, j: nat)
    requires Holds(m, list, last) && Distinct(list) && last < now && d < Min(|m.frames|, |list|)
    requires i < j < Min(|m.frames|, |list|)
    ensures 0 <= Shifted(d, i) < Min(|m.frames|, |list|) && 0 <= Shifted(d, j) < Min(|m.frames|, |list|)
    ensures var frames := m.frames[FrameOf(m, list[d]) := m.frames[FrameOf(m, list[d])].(lastAccess := now)];
            frames[FrameOf(m, list[Shifted(d, i)])].lastAccess > frames[FrameOf(m, list[Shifted(d, j)])].lastAccess
  {
    hide FrameOf, Consistent;
    HitOrder(m, list, last, d, Shifted(d, j));
    if i > 0 {
      HitOrder(m, list, last, d, Shifted(d, i));
      assert m.frames[FrameOf(m, list[Shifted(d, i)])].lastAccess > m.frames[FrameOf(m, list[Shifted(d, j)])].lastAccess;
    }
  }

  /** The placement after a hit, without the access code. */
  lemma HitPlaces(m: Memory, a: Memory, list: seq<Key>, l: seq<Key>, last: int, now: int, d: nat)
    requires Holds(m, list, last) && Distinct(list) && last < now && d < Min(|m.frames|, |list|)
    requires Consistent(a) && a.algo.LRU? && |l| == |list| && forall y :: y in l <==> y in list
    requires forall i :: 0 <= i < |l| ==> l[i] == list[Shifted(d, i)]
    requires forall y: Key :: FrameOf(a, y) == FrameOf(m, y)
    requires a.frames == m.frames[FrameOf(m, list[d]) := m.frames[FrameOf(m, list[d])].(lastAccess := now)]
    ensures Holds(a, l, now)
  {
    hide FrameOf, Consistent;
    var n := Min(|m.frames|, |list|);
    forall i | 0 <= i < n ensures 0 <= FrameOf(a, l[i]) < n && FrameOf(a, l[i]) == FrameOf(m, list[Shifted(d, i)]) {
      assert 0 <= Shifted(d, i) < n;
    }
    forall i, j | 0 <= i < j < n
      ensures a.frames[FrameOf(a, l[i])].lastAccess > a.frames[FrameOf(a, l[j])].lastAccess
    {
      HitPair(m, list, last, now, d, i, j);
    }
    forall i | n <= i < |l| ensures FrameOf(a, l[i]) == -1 {
      assert Shifted(d, i) == i;
    }
  }

  /** A miss: where the pages of the new list come from. */
  lemma MissList(list: seq<Key>, x: Key, n: nat)
    requires Distinct(list) && n <= |list| && x !in list[..n]
    ensures var l := ToFront(list, x);
            && n + 1 <= |l| <= |list| + 1 && |l| >= |list| && l[0] == x
            && (x in list <==> |l| == |list|)
            && (forall i :: 1 <= i <= n ==> l[i] == list[i - 1])
            && (forall i :: n < i < |l| ==> l[i] in list[n..])
  {
    var l := ToFront(list, x);
    if x in list {
      var d := PositionIn(list, x);
      assert forall k :: 0 <= k < n ==> list[k] == list[..n][k];
      DropAt(list, d);
      forall i | n < i < |l| ensures l[i] in list[n..] {
        assert l[i] == if i <= d then list[i - 1] else list[i];
        assert list[n..][if i <= d then i - 1 - n else i - n] == l[i];
      }
    } else {
      DropAbsent(list, x);
      forall i | n < i < |l| ensures l[i] in list[n..] {
        assert list[n..][i - 1 - n] == l[i];
      }
    }
  }

  /** The state in which the fault handler is called: only the clock has moved. */
  lemma MissAccess(m: Memory, x: Key, now: int)
    requires FrameOf(m, x) == -1
    ensures Access(m, x.0, x.1, now) == m.(clock := now)
    ensures forall y: Key :: FrameOf(m.(clock := now), y) == FrameOf(m, y)
  {
  }

  lemma ClockHolds(m: Memory, list: seq<Key>, last: int, now: int)
    requires Holds(m, list, last)
    ensures Holds(m.(clock := now), list, last)
  {
    var a := m.(clock := now);
    forall p, v ensures PhysicalFrame(a, p, v) == PhysicalFrame(m, p, v) {
    }
    forall p, v | PhysicalFrame(a, p, v) != -1 ensures Backs(a, PhysicalFrame(a, p, v), p, v) {
      assert Backs(m, PhysicalFrame(m, p, v), p, v);
    }
    hide PhysicalFrame;
  }

  /** With a free frame, the first free one is the next in line. */
  lemma FreeTarget(m: Memory, list: seq<Key>, last: int)
    requires Holds(m, list, last) && |list| < |m.frames|
    ensures Target(m) == |list| && FirstFree(m.frames) == |list|
  {
    assert !m.frames[|list|].inUse;
  }

  /** On full memory the victim is the frame of the least recent resident page. */
  lemma FullTarget(m: Memory, list: seq<Key>, last: int)
    requires Holds(m, list, last) && Distinct(list) && 0 < |m.frames| <= |list| && last < INT_MAX
    ensures FirstFree(m.frames) == -1 && Target(m) == FrameOf(m, list[|m.frames| - 1])
  {
    var n := |m.frames|;
    var f, g := Victim(LRU, m.frames), FrameOf(m, list[n - 1]);
    assert m.frames[g].inUse && m.frames[g].lastAccess <= last;
    // The victim's page is listed no later than the last resident one, hence was used no earlier.
    var y := (m.frames[f].processId, m.frames[f].pageNumber);
    assert FrameOf(m, y) == f;
    var d := PositionIn(list, y);
    assert forall i :: 0 <= i < n - 1 ==> m.frames[FrameOf(m, list[i])].lastAccess > m.frames[g].lastAccess;
  }

  /** Reading the fault handler's effect in terms of pages. */
  lemma MissFrames(m: Memory, list: seq<Key>, last: int, x: Key, y: Key)
    requires Holds(m, list, last) && Target(m) != -1 && FrameOf(m, x) == -1
    ensures FrameOf(Fault(m, x.0, x.1), y) ==
              if y == x then Target(m) else if FrameOf(m, y) == Target(m) then -1 else FrameOf(m, y)
  {
    FaultLookup(m, x.0, x.1, y.0, y.1);
    if FrameOf(m, y) == Target(m) { assert Backs(m, FrameOf(m, y), y.0, y.1); }
  }

  lemma MissConsistent(m: Memory, x: Key)
    requires Consistent(m) && FrameOf(m, x) == -1
    ensures Consistent(Fault(m, x.0, x.1))
  {
    FaultKeepsConsistentIff(m, x.0, x.1);
  }

  /** The handler's effect with a free frame. */
  lemma MissFreeFrames(m: Memory, list: seq<Key>, last: int, x: Key)
    requires Holds(m, list, last) && FrameOf(m, x) == -1 && |list| < |m.frames|
    ensures Consistent(Fault(m, x.0, x.1)) && Fault(m, x.0, x.1).algo.LRU?
    ensures Fault(m, x.0, x.1).frames == m.frames[|list| := LoadedFrame(m, x.0, x.1)]
    ensures forall y: Key :: FrameOf(Fault(m, x.0, x.1), y) == if y == x then |list| else FrameOf(m, y)
    ensures x !in list
  {
    FreeTarget(m, list, last);
    MissConsistent(m, x);
    forall y: Key ensures FrameOf(Fault(m, x.0, x.1), y) == if y == x then |list| else FrameOf(m, y) {
      MissFrames(m, list, last, x, y);
      assert FrameOf(m, y) != -1 ==> Backs(m, FrameOf(m, y), y.0, y.1);
    }
    hide Fault, FrameOf, Consistent;
    if x in list { var d := PositionIn(list, x); }
  }

  /** A miss with a free frame. */
  lemma MissFreeHolds(m: Memory, list: seq<Key>, last: int, x: Key)
    requires Holds(m, list, last) && Distinct(list) && last < m.clock && FrameOf(m, x) == -1 && |list| < |m.frames|
    ensures Holds(Fault(m, x.0, x.1), ToFront(list, x), m.clock)
  {
    hide Fault, FrameOf, Holds, LoadedFrame, ToFront, Consistent;
    MissFreeFrames(m, list, last, x);
    assert list[..|list|] == list;
    MissList(list, x, |list|);
    ToFrontFacts(list, x);
    LoadedNow(m, x);
    MissFreePlaces(m, Fault(m, x.0, x.1), list, ToFront(list, x), last, x);
  }

  /** The placement after a miss with a free frame, without the handler's code. */
  lemma MissFreePlaces(m: Memory, a: Memory, list: seq<Key>, l: seq<Key>, last: int, x: Key)
    requires Holds(m, list, last) && last < m.clock && |list| < |m.frames| && x !in list
    requires Consistent(a) && a.algo.LRU? && |l| == |list| + 1 && l[0] == x
    requires forall i :: 1 <= i <= |list| ==> l[i] == list[i - 1]
    requires forall y :: y in l <==> y == x || y in list
    requires a.frames == m.frames[|list| := LoadedFrame(m, x.0, x.1)]
    requires LoadedFrame(m, x.0, x.1).inUse && LoadedFrame(m, x.0, x.1).lastAccess == m.clock
    requires forall y: Key :: FrameOf(a, y) == if y == x then |list| else FrameOf(m, y)
    ensures Holds(a, l, m.clock)
  {
    hide FrameOf, Consistent, LoadedFrame;
    forall i | 1 <= i < |l|
      ensures FrameOf(a, l[i]) == FrameOf(m, list[i - 1]) && 0 <= FrameOf(a, l[i]) < |list|
      ensures a.frames[FrameOf(a, l[i])] == m.frames[FrameOf(m, list[i - 1])]
    {
    }
    assert FrameOf(a, l[0]) == |list|;
  }

  /** The handler's effect on full memory. */
  lemma MissFullFrames(m: Memory, list: seq<Key>, last: int, x: Key)
    requires Holds(m, list, last) && Distinct(list) && last < INT_MAX && FrameOf(m, x) == -1 && 0 < |m.frames| <= |list|
    ensures var a, f := Fault(m, x.0, x.1), FrameOf(m, list[|m.frames| - 1]);
            && Consistent(a) && a.algo.LRU? && 0 <= f < |m.frames|
            && a.frames == m.frames[f := LoadedFrame(m, x.0, x.1)]
            && forall y: Key :: FrameOf(a, y) == if y == x then f else if FrameOf(m, y) == f then -1 else FrameOf(m, y)
  {
    FullTarget(m, list, last);
    MissConsistent(m, x);
    var f := FrameOf(m, list[|m.frames| - 1]);
    forall y: Key
      ensures FrameOf(Fault(m, x.0, x.1), y) == if y == x then f else if FrameOf(m, y) == f then -1 else FrameOf(m, y)
    {
      MissFrames(m, list, last, x, y);
    }
  }

  /** The listed pages before a miss: the first n are resident, the others are not. */
  lemma MissListed(m: Memory, list: seq<Key>, last: int, x: Key)
    requires Holds(m, list, last) && Distinct(list) && FrameOf(m, x) == -1 && 0 < |m.frames| <= |list|
    ensures x !in list[..|m.frames|]
    ensures forall i :: 0 <= i < |m.frames| - 1 ==>
              FrameOf(m, list[i]) != FrameOf(m, list[|m.frames| - 1])
              && m.frames[FrameOf(m, list[i])].lastAccess <= last && list[i] != x
    ensures forall y :: y in list[|m.frames|..] ==> FrameOf(m, y) == -1
  {
    hide FrameOf, Consistent;
    var n := |m.frames|;
    assert forall k :: 0 <= k < n ==> list[..n][k] == list[k];
    forall i | 0 <= i < n - 1
      ensures FrameOf(m, list[i]) != FrameOf(m, list[n - 1])
              && m.frames[FrameOf(m, list[i])].lastAccess <= last && list[i] != x
    {
      HitOrder(m, list, last, n - 1, i);
    }
  }

  /** A miss on full memory. */
  lemma MissFullHolds(m: Memory, list: seq<Key>, last: int, x: Key)
    requires Holds(m, list, last) && Distinct(list) && last < m.clock && last < INT_MAX
    requires FrameOf(m, x) == -1 && 0 < |m.frames| <= |list|
    ensures Holds(Fault(m, x.0, x.1), ToFront(list, x), m.clock)
  {
    hide Fault, FrameOf, Holds, LoadedFrame, ToFront, Consistent;
    MissFullFrames(m, list, last, x);
    MissListed(m, list, last, x);
    MissList(list, x, |m.frames|);
    ToFrontFacts(list, x);
    MissFullPlaces(m, Fault(m, x.0, x.1), list, ToFront(list, x), last, x);
  }

  lemma LoadedNow(m: Memory, x: Key)
    ensures LoadedFrame(m, x.0, x.1).inUse && LoadedFrame(m, x.0, x.1).lastAccess == m.clock
  {
  }

  /** The placement after a miss on full memory, without the handler's code. */
  lemma MissFullPlaces(m: Memory, a: Memory, list: seq<Key>, l: seq<Key>, last: int, x: Key)
    requires Holds(m, list, last) && Distinct(list) && Distinct(l) && last < m.clock && 0 < |m.frames| <= |list|
    requires Consistent(a) && a.algo.LRU? && |m.frames| < |l|
    requires var n := |m.frames|;
             && l[0] == x && (forall y :: y in l <==> y == x || y in list)
             && (forall i :: 1 <= i <= n ==> l[i] == list[i - 1])
             && (forall i :: n < i < |l| ==> l[i] in list[n..])
             && (forall y :: y in list[n..] ==> FrameOf(m, y) == -1)
    requires var n, f := |m.frames|, FrameOf(m, list[|m.frames| - 1]);
             && a.frames == m.frames[f := LoadedFrame(m, x.0, x.1)]
             && (forall y: Key :: FrameOf(a, y) == if y == x then f else if FrameOf(m, y) == f then -1 else FrameOf(m, y))
             && (forall i :: 0 <= i < n - 1 ==>
                  FrameOf(m, list[i]) != f && m.frames[FrameOf(m, list[i])].lastAccess <= last && list[i] != x)
    ensures Holds(a, l, m.clock)
  {
    hide FrameOf, Consistent, LoadedFrame;
    var n, f := |m.frames|, FrameOf(m, list[|m.frames| - 1]);
    forall i | n <= i < |l| ensures FrameOf(a, l[i]) == -1 {
      assert l[i] != l[0];
    }
    forall i | 1 <= i < n
      ensures FrameOf(a, l[i]) == FrameOf(m, list[i - 1]) && 0 <= FrameOf(a, l[i]) < n
      ensures a.frames[FrameOf(a, l[i])] == m.frames[FrameOf(m, list[i - 1])]
    {
    }
    assert FrameOf(a, l[0]) == f && a.frames[f] == LoadedFrame(m, x.0, x.1);
    LoadedNow(m, x);
  }

  /** Without frames nothing is ever resident. */
  lemma NoFramesHolds(m: Memory, list: seq<Key>, last: int, x: Key)
    requires Holds(m, list, last) && m.frames == []
    ensures Holds(Fault(m, x.0, x.1), ToFront(list, x), m.clock)
  {
    var a := Fault(m, x.0, x.1);
    forall p, v ensures PhysicalFrame(a, p, v) == PhysicalFrame(m, p, v) == -1 {
      assert PhysicalFrame(m, p, v) != -1 ==> Backs(m, PhysicalFrame(m, p, v), p, v);
    }
    assert forall y: Key :: FrameOf(a, y) == -1;
    hide PhysicalFrame, ToFront;
  }

  /** One reference keeps the invariant and faults exactly when its page is not among the first n. */
  lemma ReferHolds(m: Memory, list: seq<Key>, last: int, x: Reference)
    requires Holds(m, list, last) && Distinct(list) && last < x.time < INT_MAX
    ensures Holds(Refer(m, x), ToFront(list, KeyOf(x)), x.time) && |Refer(m, x).frames| == |m.frames|
    ensures Refer(m, x).faults == m.faults + (if KeyOf(x) in list[..Min(|m.frames|, |list|)] then 0 else 1)
  {
    var k, n := KeyOf(x), Min(|m.frames|, |list|);
    ResidentIffRecent(m, list, last, k);
    if k in list[..n] {
      var d := PositionIn(list[..n], k);
      assert list[d] == k;
      HitHolds(m, list, last, k, x.time, d);
      AccessKeepsConsistent(m, x.pid, x.page, x.time);
    } else {
      MissAccess(m, k, x.time);
      ClockHolds(m, list, last, x.time);
      var a := m.(clock := x.time);
      assert FrameOf(a, k) == -1;
      if m.frames == [] { NoFramesHolds(a, list, last, k); }
      else if |list| < |m.frames| { MissFreeHolds(a, list, last, k); }
      else { MissFullHolds(a, list, last, k); }
    }
    hide ToFront, Holds;
  }

  /** A page is resident exactly when it is among the first min(n, |list|) of the list. */
  lemma ResidentIffRecent(m: Memory, list: seq<Key>, last: int, x: Key)
    requires Holds(m, list, last)
    ensures FrameOf(m, x) != -1 <==> x in list[..Min(|m.frames|, |list|)]
  {
    var n := Min(|m.frames|, |list|);
    assert forall i :: 0 <= i < n ==> list[..n][i] == list[i];
    if x in list && x !in list[..n] {
      var d := PositionIn(list, x);
    }
    if x in list[..n] {
      var d := PositionIn(list[..n], x);
    }
  }

  /** References come at strictly increasing times that the victim scan can tell from INT_MAX. */
  ghost predicate Increasing(refs: seq<Reference>) {
    && (forall i, j :: 0 <= i < j < |refs| ==> refs[i].time < refs[j].time)
    && forall i :: 0 <= i < |refs| ==> refs[i].time < INT_MAX
  }

  lemma EmptyHolds(numFrames: nat, last: int)
    ensures Holds(Empty(numFrames, LRU), [], last)
  {
  }

  lemma {:induction false} ReferAllHolds(numFrames: nat, refs: seq<Reference>, last: int)
    requires Increasing(refs) && (if refs == [] then true else last == refs[|refs| - 1].time)
    ensures |ReferAll(numFrames, refs).frames| == numFrames
    ensures Holds(ReferAll(numFrames, refs), Recency(refs), last)
  {
    if refs == [] {
      EmptyHolds(numFrames, last);
    } else {
      var front, x := refs[..|refs| - 1], refs[|refs| - 1];
      var before := if front == [] then x.time - 1 else front[|front| - 1].time;
      ReferAllHolds(numFrames, front, before);
      RecencyDistinct(front);
      ReferHolds(ReferAll(numFrames, front), Recency(front), before, x);
    }
  }

  /** The pages in memory are exactly the min(n, distinct) most recently referenced ones. */
  lemma LruKeepsMostRecent(numFrames: nat, refs: seq<Reference>, x: Key)
    requires Increasing(refs)
    ensures FrameOf(ReferAll(numFrames, refs), x) != -1
            <==> x in Recency(refs)[..Min(numFrames, |Recency(refs)|)]
  {
    var last := if refs == [] then 0 else refs[|refs| - 1].time;
    ReferAllHolds(numFrames, refs, last);
    ResidentIffRecent(ReferAll(numFrames, refs), Recency(refs), last, x);
  }

  /** Inclusion: what is resident with fewer frames is resident with more. */
  lemma LruInclusion(few: nat, many: nat, refs: seq<Reference>, x: Key)
    requires few <= many && Increasing(refs) && FrameOf(ReferAll(few, refs), x) != -1
    ensures FrameOf(ReferAll(many, refs), x) != -1
  {
    LruKeepsMostRecent(few, refs, x);
    LruKeepsMostRecent(many, refs, x);
    TakeMore(Recency(refs), Min(few, |Recency(refs)|), Min(many, |Recency(refs)|), x);
  }

  lemma TakeMore(list: seq<Key>, a: nat, b: nat, x: Key)
    requires a <= b <= |list| && x in list[..a]
    ensures x in list[..b]
  {
    var d := PositionIn(list[..a], x);
    assert list[..b][d] == x;
  }

  lemma NoFaultsYet(numFrames: nat)
    ensures ReferAll(numFrames, []).faults == 0
  {
  }

  /** The last reference faults exactly when its page is not among the most recent ones before it. */
  lemma FaultCount(numFrames: nat, refs: seq<Reference>)
    requires Increasing(refs) && refs != []
    ensures var front, x := refs[..|refs| - 1], KeyOf(refs[|refs| - 1]);
            ReferAll(numFrames, refs).faults ==
              ReferAll(numFrames, front).faults + (if x in Recency(front)[..Min(numFrames, |Recency(front)|)] then 0 else 1)
  {
    hide Holds, Refer, Distinct, Recency;
    var front, x := refs[..|refs| - 1], refs[|refs| - 1];
    var before := if front == [] then x.time - 1 else front[|front| - 1].time;
    ReferAllHolds(numFrames, front, before);
    RecencyDistinct(front);
    ReferHolds(ReferAll(numFrames, front), Recency(front), before, x);
  }

  /** No Belady anomaly: more frames never cause more page faults. */
  lemma {:induction false} MoreFramesNeverMoreFaults(few: nat, many: nat, refs: seq<Reference>)
    requires few <= many && Increasing(refs)
    ensures ReferAll(many, refs).faults <= ReferAll(few, refs).faults
  {
    hide ReferAll, Recency;
    if refs == [] {
      NoFaultsYet(few);
      NoFaultsYet(many);
    } else {
      var front, x := refs[..|refs| - 1], KeyOf(refs[|refs| - 1]);
      MoreFramesNeverMoreFaults(few, many, front);
      FaultCount(few, refs);
      FaultCount(many, refs);
      var list := Recency(front);
      if x in list[..Min(few, |list|)] { TakeMore(list, Min(few, |list|), Min(many, |list|), x); }
    }
  }
}
