/** `ORDER BY <key> DESC` and `[...xs].sort((a, b) => key(b) - key(a))`:
    an insertion sort by an integer key, newest or largest first. An
    element is inserted before the first element whose key is not
    greater than its own, so elements with equal keys keep the order they
    had in the input. That is the order JavaScript's stable `sort` gives.
    For `ORDER BY` the database promises only the key order; keeping
    ties in table order is one of the answers it may give, and not
    necessarily the same one from one query to the next. */
module Ordering {
  import opened Common

  /** Keys never increase from left to right. */
  predicate SortedDesc<T>(s: seq<T>, key: T -> int) {
    forall i, j :: 0 <= i < j < |s| ==> key(s[i]) >= key(s[j])
  }

  function InsertDesc<T>(x: T, s: seq<T>, key: T -> int): (r: seq<T>)
    requires SortedDesc(s, key)
    ensures SortedDesc(r, key)
    ensures multiset(r) == multiset(s) + multiset{x}
    ensures |r| == |s| + 1
  {
    if s == [] || key(s[0]) <= key(x) then
      assert forall k :: 0 <= k < |s| ==> key(s[k]) <= key(s[0]);
      ConsSorted(x, s, key);
      [x] + s
    else
      var rest := InsertDesc(x, s[1..], key);
      assert s == [s[0]] + s[1..];
      assert forall k :: 0 <= k < |s[1..]| ==> key(s[1..][k]) <= key(s[0]) by {
        assert forall k :: 0 <= k < |s[1..]| ==> s[1..][k] == s[k + 1];
      }
      BoundedByMultiset(rest, s[1..], x, key(s[0]), key);
      ConsSorted(s[0], rest, key);
      [s[0]] + rest
  }

  /** Every key of `a` is at most `v` when `a` holds the elements of `b`
      and `x`, and each of those has a key at most `v`. */
  lemma BoundedByMultiset<T>(a: seq<T>, b: seq<T>, x: T, v: int, key: T -> int)
    requires multiset(a) == multiset(b) + multiset{x}
    requires forall k :: 0 <= k < |b| ==> key(b[k]) <= v
    requires key(x) <= v
    ensures forall k :: 0 <= k < |a| ==> key(a[k]) <= v
  {
    forall k | 0 <= k < |a| ensures key(a[k]) <= v {
      assert a[k] in multiset(a);
      if a[k] != x {
        assert a[k] in multiset(b);
        var j :| 0 <= j < |b| && b[j] == a[k];
      }
    }
  }

  /** A head whose key is at least every key of a sorted tail keeps the
      list sorted. */
  lemma ConsSorted<T>(head: T, tail: seq<T>, key: T -> int)
    requires SortedDesc(tail, key)
    requires forall k :: 0 <= k < |tail| ==> key(tail[k]) <= key(head)
    ensures SortedDesc([head] + tail, key)
  {
    var r := [head] + tail;
    forall i, j | 0 <= i < j < |r| ensures key(r[i]) >= key(r[j]) {
      assert r[j] == tail[j - 1];
      if i > 0 {
        assert r[i] == tail[i - 1];
      }
    }
  }

  /** The elements of `s`, reordered so that keys never increase. */
  function SortDesc<T>(s: seq<T>, key: T -> int): (r: seq<T>)
    ensures SortedDesc(r, key)
    ensures multiset(r) == multiset(s)
    ensures |r| == |s|
  {
    if s == [] then []
    else
      assert s == [s[0]] + s[1..];
      InsertDesc(s[0], SortDesc(s[1..], key), key)
  }

  /** When every element has the same key the sort moves nothing: the
      comparator answers 0 for every pair and the sort is stable. */
  lemma {:induction false} SortDescEqualKeys<T>(s: seq<T>, key: T -> int, c: int)
    requires forall k :: 0 <= k < |s| ==> key(s[k]) == c
    ensures SortDesc(s, key) == s
  {
    if s != [] {
      SortDescEqualKeys(s[1..], key, c);
      assert s == [s[0]] + s[1..];
    }
  }

  /** Keys strictly increase from left to right, as auto-increment ids do
      in table order. */
  predicate Increasing<T>(s: seq<T>, key: T -> int) {
    forall i, j :: 0 <= i < j < |s| ==> key(s[i]) < key(s[j])
  }

  /** Deleting rows keeps the rest in increasing order. */
  lemma {:induction false} FilterKeepsIncreasing<T>(s: seq<T>, keep: T -> bool, key: T -> int)
    requires Increasing(s, key)
    ensures Increasing(Filter(s, keep), key)
  {
    if s != [] {
      FilterKeepsIncreasing(s[1..], keep, key);
      var tail := Filter(s[1..], keep);
      forall k | 0 <= k < |tail| ensures key(s[0]) < key(tail[k]) {
        assert tail[k] in s[1..];
        var j :| 0 <= j < |s[1..]| && s[1..][j] == tail[k];
        assert s[j + 1] == tail[k];
      }
      if keep(s[0]) {
        assert Filter(s, keep) == [s[0]] + tail;
        IncreasingCons(s[0], tail, key);
      } else {
        assert Filter(s, keep) == tail;
      }
    }
  }

  /** A head smaller than every key of an increasing tail keeps it
      increasing. */
  lemma IncreasingCons<T>(head: T, tail: seq<T>, key: T -> int)
    requires Increasing(tail, key)
    requires forall k :: 0 <= k < |tail| ==> key(head) < key(tail[k])
    ensures Increasing([head] + tail, key)
  {
    var r := [head] + tail;
    forall i, j | 0 <= i < j < |r| ensures key(r[i]) < key(r[j]) {
      assert r[j] == tail[j - 1];
      if i > 0 {
        assert r[i] == tail[i - 1];
      }
    }
  }
}
