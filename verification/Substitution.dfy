/** Containment and replacement of substrings, and how {{placeholders}} keep out of each other's way (src/candidate.rs). */
module Substitution {

  predicate OccursAt(s: string, p: string, i: nat) {
    i + |p| <= |s| && s[i..i + |p|] == p
  }

  predicate Contains(s: string, p: string) {
    exists i :: 0 <= i <= |s| && OccursAt(s, p, i)
  }

  /** Every occurrence of p, from the left and without overlaps, becomes v. */
  function Replace(s: string, p: string, v: string): string
    requires p != ""
  {
    if s == "" then ""
    else if p <= s then v + Replace(s[|p|..], p, v)
    else [s[0]] + Replace(s[1..], p, v)
  }

  predicate BraceFree(s: string) {
    forall i :: 0 <= i < |s| ==> s[i] != '{' && s[i] != '}'
  }

  function Mark(name: string): string { "{{" + name + "}}" }

  /** v can be filled in for some placeholder without touching that of another name. */
  predicate Safe(v: string, name: string) {
    v != "" && BraceFree(v) && !Contains(name, v)
  }

  // ----- occurrences -----

  lemma OccurrenceChar(s: string, p: string, i: nat, k: nat)
    requires OccursAt(s, p, i) && k < |p|
    ensures s[i + k] == p[k]
  {
    assert s[i..i + |p|][k] == s[i + k];
  }

  lemma OccursLater(a: string, b: string, p: string, i: nat)
    ensures OccursAt(b, p, i) <==> OccursAt(a + b, p, |a| + i)
  {
    if i + |p| <= |b| {
      assert (a + b)[|a| + i..|a| + i + |p|] == b[i..i + |p|];
    }
  }

  lemma OccursEarlier(a: string, b: string, p: string, i: nat)
    requires i + |p| <= |a|
    ensures OccursAt(a, p, i) <==> OccursAt(a + b, p, i)
  {
    assert (a + b)[i..i + |p|] == a[i..i + |p|];
  }

  lemma ContainsEither(a: string, b: string, p: string)
    requires Contains(a, p) || Contains(b, p)
    ensures Contains(a + b, p)
  {
    if Contains(a, p) {
      var i :| 0 <= i <= |a| && OccursAt(a, p, i);
      OccursEarlier(a, b, p, i);
    } else {
      var i :| 0 <= i <= |b| && OccursAt(b, p, i);
      OccursLater(a, b, p, i);
    }
  }

  lemma SliceOfSlice<T>(s: seq<T>, lo: nat, hi: nat, from: nat, to: nat)
    requires from <= to && lo + to <= hi <= |s|
    ensures s[lo..hi][from..to] == s[lo + from..lo + to]
  {
    var a, b := s[lo..hi][from..to], s[lo + from..lo + to];
    assert |a| == |b| && forall k :: 0 <= k < |a| ==> a[k] == b[k];
  }

  lemma MarkChars(s: string, name: string, i: nat)
    requires OccursAt(s, Mark(name), i)
    ensures i + |name| + 4 <= |s|
    ensures s[i] == '{' && s[i + 1] == '{' && s[i + |name| + 2] == '}' && s[i + |name| + 3] == '}'
    ensures s[i + 2..i + 2 + |name|] == name
  {
    OccurrenceChar(s, Mark(name), i, 0);
    OccurrenceChar(s, Mark(name), i, 1);
    OccurrenceChar(s, Mark(name), i, |name| + 2);
    OccurrenceChar(s, Mark(name), i, |name| + 3);
    SliceOfSlice(s, i, i + |name| + 4, 2, 2 + |name|);
    assert s[i..i + |name| + 4] == Mark(name) && Mark(name)[2..2 + |name|] == name;
  }

  /** A placeholder that overlaps a brace-free text holds all of it in its name. */
  lemma OverlapIsInside(s: string, name: string, i: nat, v: string, o: nat)
    requires OccursAt(s, Mark(name), i) && OccursAt(s, v, o) && BraceFree(v) && v != ""
    requires i < o + |v| && o < i + |name| + 4
    ensures Contains(name, v)
  {
    MarkChars(s, name, i);
    forall m | o <= m < o + |v| ensures s[m] != '{' && s[m] != '}' {
      OccurrenceChar(s, v, o, m - o);
    }
    assert i < o && i + 1 < o;
    assert o + |v| <= i + |name| + 3 && o + |v| <= i + |name| + 2;
    var at := o - i - 2;
    SliceOfSlice(s, i + 2, i + 2 + |name|, at, at + |v|);
    assert OccursAt(name, v, at);
  }

  /** Between its braces a placeholder has none. */
  lemma NameIsBraceFree(s: string, name: string, i: nat)
    requires OccursAt(s, Mark(name), i) && BraceFree(name)
    ensures i + |name| + 4 <= |s|
    ensures forall m :: i + 2 <= m < i + 2 + |name| ==> s[m] != '{' && s[m] != '}'
  {
    MarkChars(s, name, i);
    forall m | i + 2 <= m < i + 2 + |name| ensures s[m] != '{' && s[m] != '}' {
      assert s[i + 2..i + 2 + |name|][m - i - 2] == s[m];
    }
  }

  lemma SameStart(s: string, p: string, q: string, i: nat)
    requires OccursAt(s, Mark(p), i) && OccursAt(s, Mark(q), i) && BraceFree(p) && BraceFree(q) && |p| <= |q|
    ensures p == q
  {
    MarkChars(s, p, i);
    MarkChars(s, q, i);
    NameIsBraceFree(s, q, i);
  }

  lemma NotStaggered(s: string, p: string, i: nat, q: string, o: nat)
    requires OccursAt(s, Mark(p), i) && OccursAt(s, Mark(q), o) && BraceFree(p) && p != "" && i < o
    ensures o >= i + |p| + 4
  {
    MarkChars(s, p, i);
    MarkChars(s, q, o);
    NameIsBraceFree(s, p, i);
    assert s[i + 2] != '{';
  }

  /** Two placeholders of different names never overlap. */
  lemma MarksAreApart(s: string, p: string, i: nat, q: string, o: nat)
    requires OccursAt(s, Mark(p), i) && OccursAt(s, Mark(q), o) && BraceFree(p) && BraceFree(q) && p != "" && q != "" && p != q
    ensures i >= o + |q| + 4 || o >= i + |p| + 4
  {
    if i < o {
      NotStaggered(s, p, i, q, o);
    } else if o < i {
      NotStaggered(s, q, o, p, i);
    } else if |p| <= |q| {
      SameStart(s, p, q, i);
    } else {
      SameStart(s, q, p, i);
    }
  }

  // ----- filling in -----

  /** An occurrence that stays clear of the middle lies on one side of it. */
  lemma OneSide(a: string, m: string, b: string, p: string, i: nat)
    requires OccursAt(a + (m + b), p, i) && (i + |p| <= |a| || i >= |a| + |m|)
    ensures Contains(a, p) || Contains(b, p)
  {
    if i + |p| <= |a| {
      OccursEarlier(a, m + b, p, i);
    } else {
      OccursLater(a, m + b, p, i - |a|);
      OccursLater(m, b, p, i - |a| - |m|);
    }
  }

  lemma MiddleOccurs(a: string, m: string, b: string)
    ensures OccursAt(a + (m + b), m, |a|)
  {
    OccursEarlier(m, b, m, 0);
    OccursLater(a, m + b, m, 0);
  }

  lemma FillSplits(a: string, v: string, b: string, name: string)
    requires Safe(v, name)
    ensures Contains(a + (v + b), Mark(name)) <==> Contains(a, Mark(name)) || Contains(b, Mark(name))
  {
    var s := a + (v + b);
    if Contains(s, Mark(name)) {
      var i :| 0 <= i <= |s| && OccursAt(s, Mark(name), i);
      MiddleOccurs(a, v, b);
      if i < |a| + |v| && |a| < i + |name| + 4 {
        OverlapIsInside(s, name, i, v, |a|);
      }
      OneSide(a, v, b, Mark(name), i);
    } else if Contains(a, Mark(name)) || Contains(b, Mark(name)) {
      if Contains(b, Mark(name)) { ContainsEither(v, b, Mark(name)); }
      ContainsEither(a, v + b, Mark(name));
    }
  }

  lemma MarkSplits(a: string, p: string, b: string, q: string)
    requires BraceFree(p) && BraceFree(q) && p != "" && q != "" && p != q
    ensures Contains(a + (Mark(p) + b), Mark(q)) <==> Contains(a, Mark(q)) || Contains(b, Mark(q))
  {
    var s := a + (Mark(p) + b);
    if Contains(s, Mark(q)) {
      var i :| 0 <= i <= |s| && OccursAt(s, Mark(q), i);
      MiddleOccurs(a, Mark(p), b);
      MarksAreApart(s, q, i, p, |a|);
      OneSide(a, Mark(p), b, Mark(q), i);
    } else if Contains(a, Mark(q)) || Contains(b, Mark(q)) {
      if Contains(b, Mark(q)) { ContainsEither(Mark(p), b, Mark(q)); }
      ContainsEither(a, Mark(p) + b, Mark(q));
    }
  }

  lemma {:induction false} FillingKeepsBehind(a: string, t: string, p: string, v: string, q: string)
    requires BraceFree(p) && BraceFree(q) && p != "" && q != "" && p != q && Safe(v, q)
    ensures Contains(a + Replace(t, Mark(p), v), Mark(q)) <==> Contains(a + t, Mark(q))
    decreases |t|
  {
    if t == "" {
    } else if Mark(p) <= t {
      var rest := t[|Mark(p)|..];
      FillingKeepsBehind("", rest, p, v, q);
      FillSplits(a, v, Replace(rest, Mark(p), v), q);
      MarkSplits(a, p, rest, q);
      assert t == Mark(p) + rest;
      assert "" + rest == rest && "" + Replace(rest, Mark(p), v) == Replace(rest, Mark(p), v);
    } else {
      FillingKeepsBehind(a + [t[0]], t[1..], p, v, q);
      assert a + [t[0]] + t[1..] == a + t;
      assert a + [t[0]] + Replace(t[1..], Mark(p), v) == a + Replace(t, Mark(p), v);
    }
  }

  /** Filling in one placeholder neither makes nor breaks an occurrence of another, whatever the text. */
  lemma FillingKeepsOthers(t: string, p: string, v: string, q: string)
    requires BraceFree(p) && BraceFree(q) && p != "" && q != "" && p != q && Safe(v, q)
    ensures Contains(Replace(t, Mark(p), v), Mark(q)) <==> Contains(t, Mark(q))
  {
    FillingKeepsBehind("", t, p, v, q);
    assert "" + t == t && "" + Replace(t, Mark(p), v) == Replace(t, Mark(p), v);
  }
}
