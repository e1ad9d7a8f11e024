/** Sorting and truncation: the k best elements of a finite set under a strict order. */
module Ranking {
  import opened Basics

  /** A strict order that may leave elements tied. */
  ghost predicate WeakOrder<T(!new)>(before: (T, T) -> bool) {
    && (forall x, y :: before(x, y) ==> !before(y, x))
    && (forall x, y, z :: !before(y, x) && !before(z, y) ==> !before(z, x))
  }

  /** A strict order in which only equal elements are tied. */
  ghost predicate StrictOrder<T(!new)>(before: (T, T) -> bool) {
    && (forall x, y :: before(x, y) ==> !before(y, x))
    && (forall x, y, z :: before(x, y) && before(y, z) ==> before(x, z))
    && (forall x, y :: before(x, y) || before(y, x) || x == y)
  }

  function Elements<T>(r: seq<T>): set<T> { set x | x in r }

  function Take<T>(r: seq<T>, k: nat): seq<T> { r[..Min(k, |r|)] }

  // ----- stable sorting -----

  ghost predicate Sorted<T(!new)>(before: (T, T) -> bool, r: seq<T>) {
    forall i, j :: 0 <= i < j < |r| ==> !before(r[j], r[i])
  }

  function Insert<T(!new)>(before: (T, T) -> bool, x: T, r: seq<T>): seq<T> {
    if r == [] || !before(r[0], x) then [x] + r else [r[0]] + Insert(before, x, r[1..])
  }

  /** Stable sort: elements that tie keep their input order. */
  function Sort<T(!new)>(before: (T, T) -> bool, xs: seq<T>): seq<T> {
    if xs == [] then [] else Insert(before, xs[0], Sort(before, xs[1..]))
  }

  lemma {:induction false} InsertSorts<T(!new)>(before: (T, T) -> bool, x: T, r: seq<T>)
    requires WeakOrder(before) && Sorted(before, r)
    ensures Sorted(before, Insert(before, x, r))
    ensures multiset(Insert(before, x, r)) == multiset([x]) + multiset(r)
  {
    var out := Insert(before, x, r);
    if r == [] || !before(r[0], x) {
      forall i, j | 0 <= i < j < |out| ensures !before(out[j], out[i]) {
        if i == 0 && j > 1 {
          assert !before(r[j - 1], r[0]);
        }
      }
    } else {
      InsertSorts(before, x, r[1..]);
      var tail := Insert(before, x, r[1..]);
      assert r == [r[0]] + r[1..];
      forall i, j | 0 <= i < j < |out| ensures !before(out[j], out[i]) {
        if i == 0 {
          assert out[j] == tail[j - 1];
          assert tail[j - 1] in multiset(tail);
          assert tail[j - 1] == x || tail[j - 1] in r[1..];
        }
      }
    }
  }

  lemma {:induction false} SortSorts<T(!new)>(before: (T, T) -> bool, xs: seq<T>)
    requires WeakOrder(before)
    ensures Sorted(before, Sort(before, xs))
    ensures multiset(Sort(before, xs)) == multiset(xs)
    ensures |Sort(before, xs)| == |xs|
  {
    if xs != [] {
      SortSorts(before, xs[1..]);
      InsertSorts(before, xs[0], Sort(before, xs[1..]));
      assert xs == [xs[0]] + xs[1..];
    }
    assert |multiset(Sort(before, xs))| == |multiset(xs)|;
  }

  lemma SameElements<T(!new)>(before: (T, T) -> bool, xs: seq<T>, x: T)
    requires WeakOrder(before)
    ensures x in Sort(before, xs) <==> x in xs
  {
    SortSorts(before, xs);
    assert x in multiset(Sort(before, xs)) <==> x in multiset(xs);
  }

  // ----- the k best -----

  ghost predicate Ascending<T(!new)>(before: (T, T) -> bool, r: seq<T>) {
    forall i, j :: 0 <= i < j < |r| ==> before(r[i], r[j])
  }

  /** r lists, best first, the k best elements of s (all of s when it has fewer). */
  ghost predicate Best<T(!new)>(before: (T, T) -> bool, s: set<T>, k: nat, r: seq<T>) {
    && Ascending(before, r)
    && Elements(r) <= s
    && |r| == Min(k, |s|)
    && (forall x, y :: x in r && y in s && y !in r ==> before(x, y))
  }

  lemma {:induction false} AscendingCardinality<T(!new)>(before: (T, T) -> bool, r: seq<T>)
    requires StrictOrder(before) && Ascending(before, r)
    ensures |Elements(r)| == |r|
  {
    if r != [] {
      AscendingCardinality(before, r[1..]);
      assert Elements(r) == {r[0]} + Elements(r[1..]);
      assert r[0] !in r[1..] by {
        forall i | 1 <= i < |r| ensures r[i] != r[0] { assert before(r[0], r[i]); }
      }
    } else {
      assert Elements(r) == {};
    }
  }

  /** An ascending listing of a set is unique. */
  lemma {:induction false} ListingUnique<T(!new)>(before: (T, T) -> bool, a: seq<T>, b: seq<T>)
    requires StrictOrder(before) && Ascending(before, a) && Ascending(before, b)
    requires Elements(a) == Elements(b)
    ensures a == b
  {
    AscendingCardinality(before, a);
    AscendingCardinality(before, b);
    if a != [] {
      assert a[0] in Elements(b) && b[0] in Elements(a);
      assert a[0] == b[0];
      assert Elements(a[1..]) == Elements(a) - {a[0]} by {
        forall i | 1 <= i < |a| ensures a[i] != a[0] { assert before(a[0], a[i]); }
      }
      assert Elements(b[1..]) == Elements(b) - {b[0]} by {
        forall i | 1 <= i < |b| ensures b[i] != b[0] { assert before(b[0], b[i]); }
      }
      ListingUnique(before, a[1..], b[1..]);
      assert a == [a[0]] + a[1..] && b == [b[0]] + b[1..];
    }
  }

  lemma SubsetSameSize<T>(a: set<T>, b: set<T>)
    requires a <= b && |a| >= |b|
    ensures a == b
  {
    if a != b {
      var x :| x in b && x !in a;
      assert a <= b - {x};
      SubsetSize(a, b - {x});
    }
  }

  lemma {:induction false} SubsetSize<T>(a: set<T>, b: set<T>)
    requires a <= b
    ensures |a| <= |b|
  {
    if a != {} {
      var x :| x in a;
      SubsetSize(a - {x}, b - {x});
    }
  }

  /** The k best of a set are determined by the set. */
  lemma BestUnique<T(!new)>(before: (T, T) -> bool, s: set<T>, k: nat, a: seq<T>, b: seq<T>)
    requires StrictOrder(before) && Best(before, s, k, a) && Best(before, s, k, b)
    ensures a == b
  {
    AscendingCardinality(before, a);
    AscendingCardinality(before, b);
    if !(Elements(b) <= Elements(a)) {
      var y :| y in Elements(b) && y !in Elements(a);
      assert forall x :: x in a ==> before(x, y);
      assert forall x :: x in a && x !in b ==> before(y, x);
      assert Elements(a) <= Elements(b);
    }
    if Elements(a) <= Elements(b) {
      SubsetSameSize(Elements(a), Elements(b));
    } else {
      SubsetSameSize(Elements(b), Elements(a));
    }
    ListingUnique(before, a, b);
  }

  /** Truncating an ascending listing keeps the best. */
  lemma TakeIsBest<T(!new)>(before: (T, T) -> bool, s: set<T>, all: seq<T>, k: nat)
    requires StrictOrder(before) && Ascending(before, all) && Elements(all) == s
    ensures Best(before, s, k, Take(all, k))
  {
    AscendingCardinality(before, all);
    var r := Take(all, k);
    forall x, y | x in r && y in s && y !in r ensures before(x, y) {
      var i :| 0 <= i < |r| && r[i] == x;
      assert y in all;
      var j :| 0 <= j < |all| && all[j] == y;
      assert forall m :: 0 <= m < |r| ==> r[m] == all[m];
      assert all[i] == x;
    }
  }

  lemma StrictIsWeak<T(!new)>(before: (T, T) -> bool)
    requires StrictOrder(before)
    ensures WeakOrder(before)
  {
    forall x, y, z | !before(y, x) && !before(z, y) ensures !before(z, x) {
      assert y == x || before(x, y);
      assert z == y || before(y, z);
    }
  }

  lemma SortedAscends<T(!new)>(before: (T, T) -> bool, s: seq<T>)
    requires StrictOrder(before) && Sorted(before, s) && forall i, j :: 0 <= i < j < |s| ==> s[i] != s[j]
    ensures Ascending(before, s)
  {
    forall i, j | 0 <= i < j < |s| ensures before(s[i], s[j]) {
      assert !before(s[j], s[i]) && s[i] != s[j];
    }
  }

  lemma SortPermutes<T(!new)>(before: (T, T) -> bool, xs: seq<T>)
    requires WeakOrder(before) && forall i, j :: 0 <= i < j < |xs| ==> xs[i] != xs[j]
    ensures Elements(Sort(before, xs)) == Elements(xs)
    ensures forall i, j :: 0 <= i < j < |Sort(before, xs)| ==> Sort(before, xs)[i] != Sort(before, xs)[j]
  {
    var s := Sort(before, xs);
    SortSorts(before, xs);
    forall x ensures x in s <==> x in xs { SameElements(before, xs, x); }
    assert Elements(s) == Elements(xs);
    DistinctCardinality(xs);
    forall i, j | 0 <= i < j < |s| ensures s[i] != s[j] { NoRepetition(s, i, j); }
  }

  /** Sorting distinct elements lists them in ascending order. */
  lemma SortAscends<T(!new)>(before: (T, T) -> bool, xs: seq<T>)
    requires StrictOrder(before) && forall i, j :: 0 <= i < j < |xs| ==> xs[i] != xs[j]
    ensures Ascending(before, Sort(before, xs)) && Elements(Sort(before, xs)) == Elements(xs)
  {
    StrictIsWeak(before);
    SortSorts(before, xs);
    SortPermutes(before, xs);
    SortedAscends(before, Sort(before, xs));
  }

  lemma NoRepetition<T>(s: seq<T>, i: nat, j: nat)
    requires i < j < |s| && |Elements(s)| == |s|
    ensures s[i] != s[j]
  {
    if s[i] == s[j] {
      var rest := s[..j] + s[j + 1..];
      assert s == s[..j] + [s[j]] + s[j + 1..];
      assert Elements(s) == Elements(rest) by {
        assert s[i] == s[..j][i];
      }
      ElementsBound(rest);
    }
  }

  lemma {:induction false} ElementsBound<T>(s: seq<T>)
    ensures |Elements(s)| <= |s|
  {
    if s != [] {
      ElementsBound(s[1..]);
      assert Elements(s) == {s[0]} + Elements(s[1..]);
    } else {
      assert Elements(s) == {};
    }
  }

  function Preceding<T(!new)>(before: (T, T) -> bool, r: seq<T>, x: T): set<T> { set y | y in r && before(y, x) }

  lemma PrecedingSame<T(!new)>(before: (T, T) -> bool, r: seq<T>, s: seq<T>, x: T)
    requires Elements(r) == Elements(s)
    ensures Preceding(before, r, x) == Preceding(before, s, x)
  {
    forall y ensures y in r <==> y in s { assert y in Elements(r) <==> y in Elements(s); }
  }

  /** An element is among the first k iff fewer than k elements come before it. */
  lemma KeptIffFewBefore<T(!new)>(before: (T, T) -> bool, all: seq<T>, k: nat, x: T)
    requires StrictOrder(before) && Ascending(before, all) && x in all
    ensures x in Take(all, k) <==> |Preceding(before, all, x)| < k
  {
    var i :| 0 <= i < |all| && all[i] == x;
    assert Ascending(before, all[..i]);
    AscendingCardinality(before, all[..i]);
    assert Preceding(before, all, x) == Elements(all[..i]);
    if i < k {
      assert Take(all, k)[i] == x;
    } else {
      forall j | 0 <= j < Min(k, |all|) ensures Take(all, k)[j] != x { assert before(all[j], all[i]); }
    }
  }

  ghost predicate Precede<T(!new)>(before: (T, T) -> bool, r: seq<T>, rest: set<T>) {
    forall x, y :: x in r && y in rest ==> before(x, y)
  }

  /** Listing the first of the remaining elements next. */
  lemma ExtendListing<T(!new)>(before: (T, T) -> bool, r: seq<T>, rest: set<T>, m: T)
    requires Ascending(before, r) && Precede(before, r, rest)
    requires m in rest && forall y :: y in rest && y != m ==> before(m, y)
    ensures Ascending(before, r + [m]) && Precede(before, r + [m], rest - {m})
    ensures Elements(r + [m]) == Elements(r) + {m}
  {
    assert forall x :: x in r + [m] <==> x in r || x == m;
  }

  /** The first element, and the best of the others. */
  lemma BestOfOthers<T(!new)>(before: (T, T) -> bool, s: set<T>, m: T, k: nat, rest: seq<T>)
    requires m in s && k > 0 && forall y :: y in s && y != m ==> before(m, y)
    requires Best(before, s - {m}, k - 1, rest)
    ensures Best(before, s, k, [m] + rest)
  {
    var r := [m] + rest;
    assert forall x :: x in rest ==> x in Elements(rest);
    assert forall x :: x in r <==> x == m || x in rest;
    forall i, j | 0 <= i < j < |r| ensures before(r[i], r[j]) {
      assert r[j] == rest[j - 1] && rest[j - 1] in s - {m};
    }
  }

  /** Every non-empty finite set has a first element. */
  lemma {:induction false} FirstExists<T(!new)>(before: (T, T) -> bool, s: set<T>) returns (m: T)
    requires StrictOrder(before) && s != {}
    ensures m in s && forall y :: y in s && y != m ==> before(m, y)
  {
    var x :| x in s;
    if s == {x} {
      m := x;
    } else {
      var rest := FirstExists(before, s - {x});
      m := if before(x, rest) then x else rest;
    }
  }

  lemma {:induction false} BestExists<T(!new)>(before: (T, T) -> bool, s: set<T>, k: nat) returns (r: seq<T>)
    requires StrictOrder(before)
    ensures Best(before, s, k, r)
  {
    if s == {} || k == 0 {
      r := [];
    } else {
      var m := FirstExists(before, s);
      var rest := BestExists(before, s - {m}, k - 1);
      BestOfOthers(before, s, m, k, rest);
      r := [m] + rest;
    }
  }

  /**
   If k elements that s and t share come before everything on which s and t differ, then the k best of t are
   the k best of s.
   */
  lemma BestTransfer<T(!new)>(before: (T, T) -> bool, s: set<T>, t: set<T>, shared: set<T>, k: nat, r: seq<T>)
    requires StrictOrder(before) && Best(before, t, k, r)
    requires shared <= s && shared <= t && |shared| >= k
    requires forall d, y :: d in shared && y in (s - t) + (t - s) ==> before(d, y)
    ensures Best(before, s, k, r)
  {
    AscendingCardinality(before, r);
    SubsetSize(shared, s);
    SubsetSize(shared, t);
    forall x | x in r && x !in shared ensures exists d :: d in shared && d !in r {
      if shared <= Elements(r) {
        assert shared + {x} <= Elements(r);
        SubsetSize(shared + {x}, Elements(r));
      }
    }
    forall x | x in r ensures x in s {
      if x !in shared {
        var d :| d in shared && d !in r;
        assert before(x, d);
      }
    }
    forall x, y | x in r && y in s && y !in r ensures before(x, y) {
      if y !in t && x !in shared {
        var d :| d in shared && d !in r;
        assert before(x, d) && before(d, y);
      }
    }
  }

  lemma {:induction false} DistinctCardinality<T>(r: seq<T>)
    requires forall i, j :: 0 <= i < j < |r| ==> r[i] != r[j]
    ensures |Elements(r)| == |r|
  {
    if r != [] {
      DistinctCardinality(r[1..]);
      assert Elements(r) == {r[0]} + Elements(r[1..]);
    }
  }
}
