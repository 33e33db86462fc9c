/**
 * The list operations the backend queries and the front-end reducers are
 * built from: keeping the elements that satisfy a test (SQL `WHERE`,
 * JavaScript `filter`) and finding the first element that does (GORM
 * `First`, JavaScript `findIndex`).
 */
module Seqs {

  /** The elements of `s` that satisfy `keep`, in their original order. */
  function Filter<T>(s: seq<T>, keep: T -> bool): (r: seq<T>)
    ensures |r| <= |s|
    ensures forall i :: 0 <= i < |r| ==> r[i] in s && keep(r[i])
    ensures forall i :: 0 <= i < |s| && keep(s[i]) ==> s[i] in r
    decreases |s|
  {
    if s == [] then []
    else
      assert s == s[..|s| - 1] + [s[|s| - 1]];
      Filter(s[..|s| - 1], keep) + (if keep(s[|s| - 1]) then [s[|s| - 1]] else [])
  }

  /** Filtering distributes over concatenation, so it keeps the relative
      order of the elements it keeps. */
  lemma {:induction false} FilterConcat<T>(a: seq<T>, b: seq<T>, keep: T -> bool)
    ensures Filter(a + b, keep) == Filter(a, keep) + Filter(b, keep)
    decreases |b|
  {
    if b == [] {
      assert a + b == a;
    } else {
      var b', x := b[..|b| - 1], b[|b| - 1];
      assert (a + b)[..|a + b| - 1] == a + b' && (a + b)[|a + b| - 1] == x;
      FilterConcat(a, b', keep);
    }
  }

  /** A sequence whose every element passes is its own filter; one with no
      element passing filters to nothing. */
  lemma {:induction false} FilterAll<T>(s: seq<T>, keep: T -> bool)
    ensures (forall i :: 0 <= i < |s| ==> keep(s[i])) ==> Filter(s, keep) == s
    ensures (forall i :: 0 <= i < |s| ==> !keep(s[i])) ==> Filter(s, keep) == []
    decreases |s|
  {
    if s != [] {
      FilterAll(s[..|s| - 1], keep);
      assert s[..|s| - 1] + [s[|s| - 1]] == s;
    }
  }

  /** Filtering out exactly one position removes that element and keeps
      the rest in order. */
  lemma {:induction false} FilterOne<T>(s: seq<T>, k: nat, keep: T -> bool)
    requires k < |s| && !keep(s[k])
    requires forall i :: 0 <= i < |s| && i != k ==> keep(s[i])
    ensures Filter(s, keep) == s[..k] + s[k + 1..]
    decreases |s|
  {
    var init, last := s[..|s| - 1], s[|s| - 1];
    if k == |s| - 1 {
      FilterAll(init, keep);
      calc {
        Filter(s, keep);
        Filter(init, keep) + [];
        init;
        { assert s[k + 1..] == []; }
        s[..k] + s[k + 1..];
      }
    } else {
      FilterOne(init, k, keep);
      calc {
        Filter(s, keep);
        Filter(init, keep) + [last];
        (init[..k] + init[k + 1..]) + [last];
        { assert init[..k] == s[..k] && init[k + 1..] + [last] == s[k + 1..]; }
        s[..k] + s[k + 1..];
      }
    }
  }

  /** A relation that holds between every earlier and later element still
      holds after filtering (filtering keeps a subsequence). */
  lemma {:induction false} FilterPairwise<T>(s: seq<T>, keep: T -> bool, before: (T, T) -> bool)
    requires forall i, j :: 0 <= i < j < |s| ==> before(s[i], s[j])
    ensures forall i, j :: 0 <= i < j < |Filter(s, keep)| ==> before(Filter(s, keep)[i], Filter(s, keep)[j])
    decreases |s|
  {
    if s != [] {
      var init, last := s[..|s| - 1], s[|s| - 1];
      FilterPairwise(init, keep, before);
      var f := Filter(init, keep);
      forall i | 0 <= i < |f| ensures before(f[i], last) {
        var k :| 0 <= k < |init| && init[k] == f[i];
        assert s[k] == f[i];
      }
      var r := Filter(s, keep);
      assert r == f + (if keep(last) then [last] else []);
      forall i, j | 0 <= i < j < |r| ensures before(r[i], r[j]) {
        assert r[i] == f[i];
        if j < |f| {
          assert r[j] == f[j];
        } else {
          assert r[j] == last;
        }
      }
    }
  }

  /** Two sequences that are permutations of each other have the same
      elements. */
  lemma SameElements<T>(a: seq<T>, b: seq<T>)
    requires multiset(a) == multiset(b)
    ensures forall i :: 0 <= i < |a| ==> a[i] in b
    ensures forall i :: 0 <= i < |b| ==> b[i] in a
  {
    forall i | 0 <= i < |a| ensures a[i] in b {
      assert a[i] in multiset(a);
    }
    forall i | 0 <= i < |b| ensures b[i] in a {
      assert b[i] in multiset(b);
    }
  }

  /** JavaScript's `findIndex`: the index of the first element satisfying
      `p`, or -1 when there is none. */
  function FindIndex<T>(s: seq<T>, p: T -> bool): (i: int)
    ensures -1 <= i < |s|
    ensures i >= 0 ==> p(s[i]) && forall j :: 0 <= j < i ==> !p(s[j])
    ensures i < 0 <==> forall j :: 0 <= j < |s| ==> !p(s[j])
    decreases |s|
  {
    if s == [] then -1
    else if p(s[0]) then 0
    else
      var k := FindIndex(s[1..], p);
      if k < 0 then -1 else k + 1
  }
}
