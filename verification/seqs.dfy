/** The two loop shapes every loader shares: a per-item step that keeps or
    drops one result (`for row in rows: ... continue ... records.append`) and a
    per-item step that contributes several results (`for p in pliki: ...`). */
module Seqs {
  import opened Wrappers

  /** The results of `f` over `s`, in order, dropping the `None`s. */
  function FilterMap<A, B>(s: seq<A>, f: A -> Option<B>): (r: seq<B>)
    ensures |r| <= |s|
    decreases |s|
  {
    if s == [] then []
    else (if f(s[0]).Some? then [f(s[0]).value] else []) + FilterMap(s[1..], f)
  }

  /** The results of `f` over `s`, concatenated in order. */
  function FlatMap<A, B>(s: seq<A>, f: A -> seq<B>): seq<B>
    decreases |s|
  {
    if s == [] then [] else f(s[0]) + FlatMap(s[1..], f)
  }

  /** A value is kept exactly when some item produces it. */
  lemma {:induction false} FilterMapMembers<A, B>(s: seq<A>, f: A -> Option<B>, x: B)
    ensures x in FilterMap(s, f) <==> exists i :: 0 <= i < |s| && f(s[i]) == Some(x)
    decreases |s|
  {
    if s != [] {
      FilterMapMembers(s[1..], f, x);
      if exists i :: 0 <= i < |s| && f(s[i]) == Some(x) {
        var i :| 0 <= i < |s| && f(s[i]) == Some(x);
        if i > 0 {
          assert s[1..][i - 1] == s[i];
        }
      }
      if x in FilterMap(s[1..], f) {
        var i :| 0 <= i < |s[1..]| && f(s[1..][i]) == Some(x);
        assert s[i + 1] == s[1..][i];
      }
    }
  }

  /** The same, for the items from position `start` on. */
  lemma FilterMapFromMembers<A, B>(s: seq<A>, start: nat, f: A -> Option<B>, x: B)
    requires start <= |s|
    ensures x in FilterMap(s[start..], f) <==> exists i :: start <= i < |s| && f(s[i]) == Some(x)
  {
    var tail := s[start..];
    FilterMapMembers(tail, f, x);
    if exists i :: start <= i < |s| && f(s[i]) == Some(x) {
      var i :| start <= i < |s| && f(s[i]) == Some(x);
      assert tail[i - start] == s[i];
    }
    if x in FilterMap(tail, f) {
      var i :| 0 <= i < |tail| && f(tail[i]) == Some(x);
      assert s[i + start] == tail[i];
    }
  }

  /** A value is in the concatenation exactly when some item contributes it. */
  lemma {:induction false} FlatMapMembers<A, B>(s: seq<A>, f: A -> seq<B>, x: B)
    ensures x in FlatMap(s, f) <==> exists i :: 0 <= i < |s| && x in f(s[i])
    decreases |s|
  {
    if s != [] {
      FlatMapMembers(s[1..], f, x);
      if exists i :: 0 <= i < |s| && x in f(s[i]) {
        var i :| 0 <= i < |s| && x in f(s[i]);
        if i > 0 {
          assert s[1..][i - 1] == s[i];
        }
      }
      if x in FlatMap(s[1..], f) {
        var i :| 0 <= i < |s[1..]| && x in f(s[1..][i]);
        assert s[i + 1] == s[1..][i];
      }
    }
  }

  /** When the items are ordered by a key and every result carries its item's
      key, the concatenated results are ordered by that key too. */
  lemma {:induction false} FlatMapOrdered<A, B>(s: seq<A>, f: A -> seq<B>, keyA: A -> int, keyB: B -> int)
    requires forall i, j :: 0 <= i < j < |s| ==> keyA(s[i]) <= keyA(s[j])
    requires forall i, y :: 0 <= i < |s| && y in f(s[i]) ==> keyB(y) == keyA(s[i])
    ensures forall i, j :: 0 <= i < j < |FlatMap(s, f)| ==> keyB(FlatMap(s, f)[i]) <= keyB(FlatMap(s, f)[j])
    decreases |s|
  {
    if s != [] {
      var head := f(s[0]);
      var rest := FlatMap(s[1..], f);
      FlatMapOrdered(s[1..], f, keyA, keyB);
      forall y | y in rest ensures keyA(s[0]) <= keyB(y) {
        FlatMapMembers(s[1..], f, y);
        var i :| 0 <= i < |s[1..]| && y in f(s[1..][i]);
        assert s[1..][i] == s[i + 1];
      }
      var all := head + rest;
      forall i, j | 0 <= i < j < |all| ensures keyB(all[i]) <= keyB(all[j]) {
        if j < |head| {
          assert all[i] in head && all[j] in head;
        } else if i < |head| {
          assert all[i] in head && all[j] == rest[j - |head|];
        } else {
          assert all[i] == rest[i - |head|] && all[j] == rest[j - |head|];
        }
      }
    }
  }

  /** The first position in `[lo, hi)` where `p` holds: the shape of a
      `for ri in range(lo, hi): if ...: return ri` search. */
  function FirstIn(lo: nat, hi: nat, p: nat -> bool): (r: Option<nat>)
    ensures r.Some? ==> lo <= r.value < hi && p(r.value)
    ensures r.Some? ==> forall k :: lo <= k < r.value ==> !p(k)
    ensures r.None? ==> forall k :: lo <= k < hi ==> !p(k)
    decreases if lo < hi then hi - lo else 0
  {
    if lo >= hi then None
    else if p(lo) then Some(lo)
    else FirstIn(lo + 1, hi, p)
  }
}
