/** A stable sort by an integer key, the behaviour of Python's `sorted(...,
    key=...)` that the catalog and the loaders rely on: the result is ordered
    by key, is a permutation of the input, and keeps elements with equal keys
    in input order. */
module Sorting {

  predicate SortedBy<T>(s: seq<T>, key: T -> int) {
    forall i, j :: 0 <= i < j < |s| ==> key(s[i]) <= key(s[j])
  }

  /** Puts `e` in front of the first element whose key is not smaller. */
  function Insert<T>(e: T, s: seq<T>, key: T -> int): (r: seq<T>)
    ensures |r| == |s| + 1
    ensures forall i :: 0 <= i < |r| ==> r[i] == e || r[i] in s
    decreases |s|
  {
    if s == [] || key(e) <= key(s[0]) then [e] + s
    else [s[0]] + Insert(e, s[1..], key)
  }

  /** Insertion sort taking the input front to back. */
  function SortBy<T>(s: seq<T>, key: T -> int): (r: seq<T>)
    ensures SortedBy(r, key)
    ensures multiset(r) == multiset(s)
    decreases |s|
  {
    if s == [] then []
    else
      assert s == [s[0]] + s[1..];
      InsertPermutes(s[0], SortBy(s[1..], key), key);
      InsertSorted(s[0], SortBy(s[1..], key), key);
      Insert(s[0], SortBy(s[1..], key), key)
  }

  /** The elements whose key is `k`, in order. */
  function WithKey<T>(s: seq<T>, key: T -> int, k: int): seq<T>
    decreases |s|
  {
    if s == [] then []
    else (if key(s[0]) == k then [s[0]] else []) + WithKey(s[1..], key, k)
  }

  lemma {:induction false} InsertPermutes<T>(e: T, s: seq<T>, key: T -> int)
    ensures multiset(Insert(e, s, key)) == multiset(s) + multiset{e}
    decreases |s|
  {
    if !(s == [] || key(e) <= key(s[0])) {
      InsertPermutes(e, s[1..], key);
      assert s == [s[0]] + s[1..];
    }
  }

  lemma {:induction false} InsertSorted<T>(e: T, s: seq<T>, key: T -> int)
    requires SortedBy(s, key)
    ensures SortedBy(Insert(e, s, key), key)
    decreases |s|
  {
    if !(s == [] || key(e) <= key(s[0])) {
      InsertSorted(e, s[1..], key);
      var t := Insert(e, s[1..], key);
      forall i | 0 <= i < |t| ensures key(s[0]) <= key(t[i]) {
        if t[i] != e {
          var k :| 0 <= k < |s[1..]| && s[1..][k] == t[i];
          assert s[k + 1] == t[i];
        }
      }
    }
  }

  lemma WithKeyCons<T>(x: T, s: seq<T>, key: T -> int, k: int)
    ensures WithKey([x] + s, key, k) == (if key(x) == k then [x] else []) + WithKey(s, key, k)
  {
    assert ([x] + s)[1..] == s;
  }

  lemma {:induction false} InsertStable<T>(e: T, s: seq<T>, key: T -> int, k: int)
    ensures WithKey(Insert(e, s, key), key, k) == (if key(e) == k then [e] else []) + WithKey(s, key, k)
    decreases |s|
  {
    if s == [] || key(e) <= key(s[0]) {
      WithKeyCons(e, s, key, k);
    } else {
      var fe: seq<T> := if key(e) == k then [e] else [];
      var fs: seq<T> := if key(s[0]) == k then [s[0]] else [];
      var rest := WithKey(s[1..], key, k);
      InsertStable(e, s[1..], key, k);
      WithKeyCons(s[0], Insert(e, s[1..], key), key, k);
      assert s == [s[0]] + s[1..];
      WithKeyCons(s[0], s[1..], key, k);
      assert fe == [] || fs == [];
      SwapEmpty(fs, fe, rest);
    }
  }

  lemma SwapEmpty<T>(a: seq<T>, b: seq<T>, rest: seq<T>)
    requires a == [] || b == []
    ensures a + (b + rest) == b + (a + rest)
  {
  }

  /** Sorting keeps the elements of each key in their input order. */
  lemma {:induction false} SortStable<T>(s: seq<T>, key: T -> int, k: int)
    ensures WithKey(SortBy(s, key), key, k) == WithKey(s, key, k)
    decreases |s|
  {
    if s != [] {
      SortStable(s[1..], key, k);
      InsertStable(s[0], SortBy(s[1..], key), key, k);
    }
  }

  /** No two elements share a tag. */
  ghost predicate DistinctBy<T, U>(s: seq<T>, tag: T -> U) {
    forall i, j :: 0 <= i < j < |s| ==> tag(s[i]) != tag(s[j])
  }

  lemma {:induction false} InsertKeepsDistinct<T, U>(e: T, s: seq<T>, key: T -> int, tag: T -> U)
    requires DistinctBy(s, tag)
    requires forall x :: x in s ==> tag(x) != tag(e)
    ensures DistinctBy(Insert(e, s, key), tag)
    decreases |s|
  {
    if !(s == [] || key(e) <= key(s[0])) {
      InsertKeepsDistinct(e, s[1..], key, tag);
      var t := Insert(e, s[1..], key);
      forall i | 0 <= i < |t| ensures tag(t[i]) != tag(s[0]) {
        if t[i] != e {
          var k :| 0 <= k < |s[1..]| && s[1..][k] == t[i];
          assert s[k + 1] == t[i];
        }
      }
    }
  }

  /** Sorting never puts two elements with the same tag into the result unless
      the input had them. */
  lemma {:induction false} SortKeepsDistinct<T, U>(s: seq<T>, key: T -> int, tag: T -> U)
    requires DistinctBy(s, tag)
    ensures DistinctBy(SortBy(s, key), tag)
    decreases |s|
  {
    if s != [] {
      SortKeepsDistinct(s[1..], key, tag);
      var sorted := SortBy(s[1..], key);
      forall x | x in sorted ensures tag(x) != tag(s[0]) {
        assert x in multiset(sorted);
        var k :| 0 <= k < |s[1..]| && s[1..][k] == x;
        assert s[k + 1] == x;
      }
      InsertKeepsDistinct(s[0], sorted, key, tag);
    }
  }
}
