/** Finite sums and counting, the only arithmetic the run-level results need. */
module Sums {

  function Sum(s: seq<int>): int {
    if s == [] then 0 else Sum(s[..|s| - 1]) + s[|s| - 1]
  }

  /** One at position i, zero elsewhere; all zero when i is no position. */
  function Unit(n: nat, i: int): (u: seq<int>)
    ensures |u| == n
  {
    seq(n, k => if k == i then 1 else 0)
  }

  lemma SumAppend(s: seq<int>, x: int)
    ensures Sum(s + [x]) == Sum(s) + x
  {
    assert (s + [x])[..|s|] == s;
  }

  lemma {:induction false} SumAdd(a: seq<int>, b: seq<int>, c: seq<int>)
    requires |a| == |b| == |c|
    requires forall i :: 0 <= i < |a| ==> a[i] == b[i] + c[i]
    ensures Sum(a) == Sum(b) + Sum(c)
  {
    if a != [] {
      var n := |a| - 1;
      SumAdd(a[..n], b[..n], c[..n]);
    }
  }

  lemma {:induction false} SumBalance(a: seq<int>, b: seq<int>, c: seq<int>, d: seq<int>)
    requires |a| == |b| == |c| == |d|
    requires forall i :: 0 <= i < |a| ==> a[i] + b[i] == c[i] + d[i]
    ensures Sum(a) + Sum(b) == Sum(c) + Sum(d)
  {
    if a != [] {
      var n := |a| - 1;
      SumBalance(a[..n], b[..n], c[..n], d[..n]);
    }
  }

  lemma {:induction false} SumMonotone(a: seq<int>, b: seq<int>)
    requires |a| == |b|
    requires forall i :: 0 <= i < |a| ==> a[i] <= b[i]
    ensures Sum(a) <= Sum(b)
  {
    if a != [] {
      var n := |a| - 1;
      SumMonotone(a[..n], b[..n]);
    }
  }

  lemma {:induction false} SumNonNegative(a: seq<int>)
    requires forall i :: 0 <= i < |a| ==> 0 <= a[i]
    ensures 0 <= Sum(a)
    ensures forall i :: 0 <= i < |a| ==> a[i] <= Sum(a)
  {
    if a != [] {
      var n := |a| - 1;
      SumNonNegative(a[..n]);
      forall i | 0 <= i < |a| ensures a[i] <= Sum(a) {
        if i < n { assert a[..n][i] <= Sum(a[..n]); }
      }
    }
  }

  lemma {:induction false} SumUnit(n: nat, i: int)
    ensures Sum(Unit(n, i)) == if 0 <= i < n then 1 else 0
    decreases n
  {
    if n > 0 {
      SumUnit(n - 1, i);
      assert Unit(n, i)[..n - 1] == Unit(n - 1, i);
    }
  }

  /** A list without repetition has as many elements as positions. */
  lemma {:induction false} DistinctCount(s: seq<int>)
    requires forall j, k :: 0 <= j < k < |s| ==> s[j] != s[k]
    ensures |set x | x in s| == |s|
  {
    if s != [] {
      var front, last := s[..|s| - 1], s[|s| - 1];
      DistinctCount(front);
      assert s == front + [last];
      assert (set x | x in s) == (set x | x in front) + {last};
    }
  }

  /** Pigeonhole: a list longer than a set that contains it repeats an element. */
  lemma Repeats(s: seq<int>, within: set<int>)
    requires (forall k :: 0 <= k < |s| ==> s[k] in within) && |s| > |within|
    ensures exists j, k :: 0 <= j < k < |s| && s[j] == s[k]
  {
    if forall j, k :: 0 <= j < k < |s| ==> s[j] != s[k] {
      DistinctCount(s);
      SubsetCount((set x | x in s), within);
    }
  }

  lemma SomeElement(s: set<int>)
    ensures s == {} || exists x :: x in s
  {
    if !exists x :: x in s { assert s == {}; }
  }

  lemma {:induction false} SubsetCount(s: set<int>, t: set<int>)
    requires s <= t
    ensures |s| <= |t|
  {
    if s != {} {
      SomeElement(s);
      var x :| x in s;
      SubsetCount(s - {x}, t - {x});
    }
  }
}
