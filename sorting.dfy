/** Python's `sorted` on a list of integers: the ascending permutation of its input. */
module Sorting {

  predicate IsSorted(s: seq<int>)
  {
    forall i, j :: 0 <= i < j < |s| ==> s[i] <= s[j]
  }

  /** Insertion of `x` into a sorted list: still sorted, and one more `x`. */
  function Insert(x: int, s: seq<int>): (r: seq<int>)
    requires IsSorted(s)
    ensures IsSorted(r)
    ensures multiset(r) == multiset(s) + multiset{x}
  {
    if |s| == 0 then [x]
    else if x <= s[0] then [x] + s
    else
      var tail := Insert(x, s[1..]);
      InsertBehindHead(x, s, tail);
      [s[0]] + tail
  }

  /** The recursive step of `Insert`: the head of `s` stays in front of the insertion into its rest. */
  lemma InsertBehindHead(x: int, s: seq<int>, tail: seq<int>)
    requires IsSorted(s) && |s| > 0 && s[0] < x
    requires IsSorted(tail) && multiset(tail) == multiset(s[1..]) + multiset{x}
    ensures IsSorted([s[0]] + tail)
    ensures multiset([s[0]] + tail) == multiset(s) + multiset{x}
  {
    assert s == [s[0]] + s[1..];
    forall k | 0 <= k < |tail|
      ensures s[0] <= tail[k]
    {
      assert tail[k] in multiset(tail);
      if tail[k] != x {
        var j :| 0 <= j < |s[1..]| && s[1..][j] == tail[k];
      }
    }
  }

  /** `sorted(s)`, by insertion. */
  function Sort(s: seq<int>): (r: seq<int>)
    ensures IsSorted(r)
    ensures multiset(r) == multiset(s)
  {
    if |s| == 0 then []
    else
      assert s == [s[0]] + s[1..];
      Insert(s[0], Sort(s[1..]))
  }

  lemma SortedHeadIsLeast(s: seq<int>, x: int)
    requires IsSorted(s) && x in multiset(s)
    ensures |s| > 0 && s[0] <= x
  {
    var j :| 0 <= j < |s| && s[j] == x;
  }

  /**
   * A sorted permutation is unique, so `Sort` agrees with any other correct
   * sort, Python's `sorted` among them.
   */
  lemma {:induction false} SortedPermutationUnique(a: seq<int>, b: seq<int>)
    requires IsSorted(a) && IsSorted(b)
    requires multiset(a) == multiset(b)
    ensures a == b
  {
    if |a| == 0 {
      assert |b| == |multiset(b)| == 0;
    } else {
      assert a[0] in multiset(b) by { assert a[0] in a; }
      SortedHeadIsLeast(b, a[0]);
      assert b[0] in multiset(a) by { assert b[0] in b; }
      SortedHeadIsLeast(a, b[0]);
      var x := a[0];
      assert x == b[0];
      var a', b' := a[1..], b[1..];
      assert a == [x] + a' && b == [x] + b';
      assert multiset(a) == multiset{x} + multiset(a');
      assert multiset(b) == multiset{x} + multiset(b');
      forall y ensures multiset(a')[y] == multiset(b')[y] {
        assert multiset(a)[y] == multiset(b)[y];
      }
      assert IsSorted(a') && IsSorted(b');
      SortedPermutationUnique(a', b');
    }
  }

  /** Sorting keeps every element's lower bound: sorted seasons stay non-negative. */
  lemma SortKeepsLowerBound(s: seq<int>, lo: int)
    requires forall i :: 0 <= i < |s| ==> s[i] >= lo
    ensures forall i :: 0 <= i < |Sort(s)| ==> Sort(s)[i] >= lo
  {
    var r := Sort(s);
    forall i | 0 <= i < |r| ensures r[i] >= lo {
      assert r[i] in multiset(s);
    }
  }
}
