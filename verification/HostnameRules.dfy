/** Which texts are read as which host names (src/util.rs): the spellings of at least two labels joined by dots. */
module HostnameRules {
  import opened Basics
  import opened Hostnames

  // ----- labels joined by dots -----

  function Join(labels: seq<string>): string {
    if labels == [] then "" else if |labels| == 1 then labels[0] else labels[0] + ("." + Join(labels[1..]))
  }

  predicate DotFree(s: string) { forall i :: 0 <= i < |s| ==> s[i] != '.' }

  lemma {:induction false} SplitOne(first: string)
    requires DotFree(first)
    ensures SplitDots(first) == [first]
  {
    if first != "" {
      SplitOne(first[1..]);
      assert first == [first[0]] + first[1..];
    }
  }

  lemma {:induction false} SplitFirst(first: string, rest: string)
    requires DotFree(first)
    ensures SplitDots(first + ("." + rest)) == [first] + SplitDots(rest)
  {
    var s := first + ("." + rest);
    if first == "" {
      assert s[0] == '.' && s[1..] == rest;
    } else {
      assert s[1..] == first[1..] + ("." + rest) && s[0] == first[0];
      SplitFirst(first[1..], rest);
      assert first == [first[0]] + first[1..];
    }
  }

  lemma {:induction false} SplitJoined(labels: seq<string>)
    requires labels != [] && forall k :: 0 <= k < |labels| ==> DotFree(labels[k])
    ensures SplitDots(Join(labels)) == labels
  {
    if |labels| == 1 {
      SplitOne(labels[0]);
    } else {
      SplitJoined(labels[1..]);
      SplitFirst(labels[0], Join(labels[1..]));
      assert labels == [labels[0]] + labels[1..];
    }
  }

  lemma {:induction false} JoinSplit(s: string)
    ensures Join(SplitDots(s)) == s
    ensures |SplitDots(s)| >= 2 <==> '.' in s
  {
    if s != "" {
      var rest := SplitDots(s[1..]);
      JoinSplit(s[1..]);
      assert s == [s[0]] + s[1..];
      if s[0] == '.' {
        assert ([""] + rest)[1..] == rest;
      } else if |rest| > 1 {
        assert ([[s[0]] + rest[0]] + rest[1..])[1..] == rest[1..];
      }
    }
  }

  // ----- host names -----

  /** Up to 63 small letters, digits and hyphens, at least one, and no hyphen at either end. */
  predicate HostLabel(l: string) {
    && 1 <= |l| <= 63 && l[0] != '-' && l[|l| - 1] != '-'
    && forall i :: 0 <= i < |l| ==> 'a' <= l[i] <= 'z' || '0' <= l[i] <= '9' || l[i] == '-'
  }

  /** At least two such labels joined by dots, and no more than 253 characters. */
  ghost predicate HostName(h: string) {
    |h| <= 253 && exists labels :: |labels| >= 2 && h == Join(labels) && forall k :: 0 <= k < |labels| ==> HostLabel(labels[k])
  }

  predicate Small(s: string) { forall i :: 0 <= i < |s| ==> !('A' <= s[i] <= 'Z') }

  lemma {:induction false} JoinedIsSmall(labels: seq<string>)
    requires forall k :: 0 <= k < |labels| ==> HostLabel(labels[k])
    ensures Small(Join(labels))
    ensures labels != [] ==> Join(labels) != "" && Alphanumeric(Join(labels)[0]) && Alphanumeric(Join(labels)[|Join(labels)| - 1])
  {
    if |labels| > 1 {
      JoinedIsSmall(labels[1..]);
    }
  }

  lemma {:induction false} PartsAreSmall(s: string)
    requires Small(s)
    ensures forall k :: 0 <= k < |SplitDots(s)| ==> Small(SplitDots(s)[k])
  {
    if s != "" { PartsAreSmall(s[1..]); }
  }

  lemma {:induction false} HostIsValid(labels: seq<string>)
    requires |labels| >= 2 && |Join(labels)| <= 253 && forall k :: 0 <= k < |labels| ==> HostLabel(labels[k])
    ensures ValidFqdn(Join(labels)) && '.' in Join(labels) && Small(Join(labels))
  {
    JoinedIsSmall(labels);
    SplitJoined(labels);
    JoinSplit(Join(labels));
    forall l | l in labels ensures ValidLabel(l) {
      var k :| 0 <= k < |labels| && labels[k] == l;
      assert HostLabel(labels[k]);
    }
  }

  lemma {:induction false} ValidIsHost(h: string)
    requires ValidFqdn(h) && '.' in h && Small(h)
    ensures HostName(h)
  {
    var labels := SplitDots(h);
    JoinSplit(h);
    PartsAreSmall(h);
    forall k | 0 <= k < |labels| ensures HostLabel(labels[k]) { assert ValidLabel(labels[k]); }
  }

  lemma {:induction false} HostIff(h: string)
    ensures HostName(h) <==> ValidFqdn(h) && '.' in h && Small(h)
  {
    if HostName(h) {
      var labels :| |labels| >= 2 && h == Join(labels) && forall k :: 0 <= k < |labels| ==> HostLabel(labels[k]);
      HostIsValid(labels);
    }
    if ValidFqdn(h) && '.' in h && Small(h) { ValidIsHost(h); }
  }

  lemma LabelInAnyCase(l: string)
    ensures ValidLabel(l) <==> HostLabel(Lower(l))
  {
    if ValidLabel(l) {
      forall i | 0 <= i < |l| ensures 'a' <= Lower(l)[i] <= 'z' || '0' <= Lower(l)[i] <= '9' || Lower(l)[i] == '-' {
        assert Alphanumeric(l[i]) || l[i] == '-';
      }
    }
    if HostLabel(Lower(l)) {
      forall i | 0 <= i < |l| ensures Alphanumeric(l[i]) || l[i] == '-' {
        assert 'a' <= Lower(l)[i] <= 'z' || '0' <= Lower(l)[i] <= '9' || Lower(l)[i] == '-';
      }
    }
  }

  /** A text is a valid name iff it consists of labels of hosts, in any case, joined by dots, and is not too long. */
  lemma {:induction false} ValidIff(s: string)
    ensures ValidFqdn(s) <==>
            |s| <= 253 && exists labels :: labels != [] && s == Join(labels) && forall k :: 0 <= k < |labels| ==> HostLabel(Lower(labels[k]))
  {
    JoinSplit(s);
    if ValidFqdn(s) {
      var labels := SplitDots(s);
      forall k | 0 <= k < |labels| ensures HostLabel(Lower(labels[k])) { LabelInAnyCase(labels[k]); }
    }
    forall labels | labels != [] && s == Join(labels) && |s| <= 253 && forall k :: 0 <= k < |labels| ==> HostLabel(Lower(labels[k]))
      ensures ValidFqdn(s)
    {
      LabelsAreValid(labels);
    }
  }

  lemma {:induction false} LabelsAreValid(labels: seq<string>)
    requires labels != [] && |Join(labels)| <= 253 && forall k :: 0 <= k < |labels| ==> HostLabel(Lower(labels[k]))
    ensures ValidFqdn(Join(labels))
  {
    forall k | 0 <= k < |labels| ensures ValidLabel(labels[k]) && DotFree(labels[k]) { LabelInAnyCase(labels[k]); }
    SplitJoined(labels);
    assert labels[0] != "" && Join(labels) != "" by { assert ValidLabel(labels[0]); }
  }

  // ----- spellings -----

  predicate All(s: string, p: char -> bool) { forall i :: 0 <= i < |s| ==> p(s[i]) }

  /** cased is h with any letters capitalised. */
  predicate Capitalised(cased: string, h: string) {
    |cased| == |h| && forall i :: 0 <= i < |h| ==> cased[i] == h[i] || ('A' <= cased[i] <= 'Z' && h[i] == cased[i] - 'A' + 'a')
  }

  /** White space around the name, dots behind it, capitals in it. */
  ghost predicate Spells(name: string, h: string) {
    exists before, cased, dots, after {:trigger before + (cased + dots) + after} ::
      && name == before + (cased + dots) + after && Capitalised(cased, h)
      && All(before, Whitespace) && All(after, Whitespace) && All(dots, c => c == '.')
  }

  lemma {:induction false} TrimStartOf(p: string, x: string, drop: char -> bool)
    requires All(p, drop) && (x == "" || !drop(x[0]))
    ensures TrimStart(p + x, drop) == x
  {
    if p == "" {
      assert p + x == x;
    } else {
      assert (p + x)[1..] == p[1..] + x;
      TrimStartOf(p[1..], x, drop);
    }
  }

  lemma {:induction false} TrimEndOf(x: string, p: string, drop: char -> bool)
    requires All(p, drop) && (x == "" || !drop(x[|x| - 1]))
    ensures TrimEnd(x + p, drop) == x
  {
    if p == "" {
      assert x + p == x;
    } else {
      assert (x + p)[..|x + p| - 1] == x + p[..|p| - 1];
      TrimEndOf(x, p[..|p| - 1], drop);
    }
  }

  lemma Rejoined(a: string, b: string, c: string)
    ensures a + (b + c) == (a + b) + c
  {
  }

  lemma AllMore(a: string, b: string, p: char -> bool)
    requires All(a, p) && All(b, p)
    ensures All(a + b, p)
  {
  }

  lemma {:induction false} StartIsCut(s: string, drop: char -> bool) returns (p: string)
    ensures s == p + TrimStart(s, drop) && All(p, drop)
  {
    p := "";
    if s != "" && drop(s[0]) {
      var q := StartIsCut(s[1..], drop);
      p := [s[0]] + q;
      Rejoined([s[0]], q, TrimStart(s[1..], drop));
      AllMore([s[0]], q, drop);
      assert s == [s[0]] + s[1..];
    }
  }

  lemma {:induction false} EndIsCut(s: string, drop: char -> bool) returns (p: string)
    ensures s == TrimEnd(s, drop) + p && All(p, drop)
  {
    p := "";
    if s != "" && drop(s[|s| - 1]) {
      var n := |s| - 1;
      var q := EndIsCut(s[..n], drop);
      p := q + [s[n]];
      Rejoined(TrimEnd(s[..n], drop), q, [s[n]]);
      AllMore(q, [s[n]], drop);
      assert s == s[..n] + [s[n]];
    }
  }

  lemma CapitalsAreLowered(cased: string, h: string)
    requires Small(h)
    ensures Capitalised(cased, h) <==> Lower(cased) == h
  {
    if Lower(cased) == h {
      forall i | 0 <= i < |h| ensures cased[i] == h[i] || ('A' <= cased[i] <= 'Z' && h[i] == cased[i] - 'A' + 'a') {
        assert Lower(cased)[i] == h[i];
      }
    }
  }

  lemma LoweredIsSmall(s: string)
    ensures Small(Lower(s))
  {
  }

  /** Trimming a spelling leaves the letters. */
  lemma SpellingIsTrimmed(before: string, cased: string, dots: string, after: string)
    requires cased != "" && Alphanumeric(cased[0]) && Alphanumeric(cased[|cased| - 1])
    requires All(before, Whitespace) && All(after, Whitespace) && All(dots, c => c == '.')
    ensures TrimEnd(Trim(before + (cased + dots) + after), c => c == '.') == cased
  {
    var core := cased + dots;
    assert before + core + after == before + (core + after);
    assert (core + after)[0] == cased[0];
    assert core[|core| - 1] == '.' || core[|core| - 1] == cased[|cased| - 1];
    TrimStartOf(before, core + after, Whitespace);
    TrimEndOf(core, after, Whitespace);
    TrimEndOf(cased, dots, c => c == '.');
  }

  lemma CapitalsKeepEnds(cased: string, h: string)
    requires h != "" && Capitalised(cased, h) && Alphanumeric(h[0]) && Alphanumeric(h[|h| - 1])
    ensures cased != "" && Alphanumeric(cased[0]) && Alphanumeric(cased[|cased| - 1])
  {
  }

  lemma {:induction false} SpellingIsRead(name: string, h: string)
    requires HostName(h) && Spells(name, h)
    ensures NormalizeHostname(name) == Some(h)
  {
    var before, cased, dots, after :|
      && name == before + (cased + dots) + after && Capitalised(cased, h)
      && All(before, Whitespace) && All(after, Whitespace) && All(dots, c => c == '.');
    HostIff(h);
    EndsAreAlphanumeric(h);
    CapitalsAreLowered(cased, h);
    CapitalsKeepEnds(cased, h);
    SpellingIsTrimmed(before, cased, dots, after);
  }

  lemma EndsAreAlphanumeric(h: string)
    requires HostName(h)
    ensures h != "" && Alphanumeric(h[0]) && Alphanumeric(h[|h| - 1])
  {
    var labels :| |labels| >= 2 && h == Join(labels) && forall k :: 0 <= k < |labels| ==> HostLabel(labels[k]);
    JoinedIsSmall(labels);
  }

  lemma ReadIsSpelling(name: string, h: string)
    requires NormalizeHostname(name) == Some(h)
    ensures HostName(h) && Spells(name, h)
  {
    var before := StartIsCut(name, Whitespace);
    var inner := TrimStart(name, Whitespace);
    var after := EndIsCut(inner, Whitespace);
    var core := TrimEnd(inner, Whitespace);
    var dots := EndIsCut(core, c => c == '.');
    var cased := TrimEnd(core, c => c == '.');
    assert name == before + (cased + dots) + after;
    LoweredIsSmall(cased);
    CapitalsAreLowered(cased, h);
    HostIff(h);
  }

  /** A text is read as h iff h is a host name in small letters and the text spells it. */
  lemma NormalizedIff(name: string, h: string)
    ensures NormalizeHostname(name) == Some(h) <==> HostName(h) && Spells(name, h)
  {
    if NormalizeHostname(name) == Some(h) { ReadIsSpelling(name, h); }
    if HostName(h) && Spells(name, h) { SpellingIsRead(name, h); }
  }

  /** A name stands in a domain iff it is the domain, or something in front of it and a dot. */
  lemma InScopeIff(name: string, root: string)
    ensures InScope(name, root) <==> name == root || exists front :: name == front + ("." + root)
  {
    if EndsWith(name, "." + root) {
      assert name == name[..|name| - |root| - 1] + ("." + root);
    }
    if front :| name == front + ("." + root) {
      assert name[|front|..] == "." + root;
    }
  }

  /** A name is observed in a domain iff it is a host name with more labels than the domain in front of it. */
  lemma ObservedIff(name: string, domain: string, h: string)
    ensures NormalizeObservedName(name, domain) == Some(h) <==>
            NormalizeHostname(name) == Some(h) && exists front :: h == front + ("." + domain)
  {
    if EndsWith(h, "." + domain) {
      assert h == h[..|h| - |domain| - 1] + ("." + domain);
    }
    if front :| h == front + ("." + domain) {
      assert h[|front|..] == "." + domain && |h| > |domain|;
    }
  }
}
