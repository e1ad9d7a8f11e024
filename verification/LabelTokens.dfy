/** Hostname label tokens and the templates built from them (src/intelligence.rs). */
module LabelTokens {
  import opened Basics
  import opened Decimals
  import opened TokenKinds
  import opened WordTables

  datatype LabelToken = LabelToken(value: string, kind: TokenKind, separatorBefore: string)

  predicate AllDigits(value: string) { forall i :: 0 <= i < |value| ==> IsDigit(value[i]) }

  function ClassifyToken(value: string): TokenKind {
    if AllDigits(value) then Number
    else if Found(EnvironmentWords(), value) then Environment
    else if Found(RegionWords(), value) then Region
    else if Found(CloudWords(), value) then Cloud
    else if Found(ServiceWords(), value) then Service
    else Word
  }

  /** The kind of every word, in terms of the tables: they decide by membership, except for two service words. */
  lemma KindOfWord(value: string)
    ensures ClassifyToken(value) ==
            if AllDigits(value) then Number
            else if value in EnvironmentWords() then Environment
            else if value in RegionWords() then Region
            else if value in CloudWords() then Cloud
            else if value in ServiceWords() && value != "img" && value != "imap" then Service
            else Word
  {
    EnvironmentsAscend();
    RegionsAscend();
    CloudsAscend();
    AscendingFinds(EnvironmentWords(), value);
    AscendingFinds(RegionWords(), value);
    AscendingFinds(CloudWords(), value);
    ServiceFoundIff(value);
  }

  /** A word of the service table is classified as a service iff it is neither "img" nor "imap"; these are plain words. */
  lemma ServiceKindIff(value: string)
    requires value in ServiceWords()
    ensures ClassifyToken(value) == if value == "img" || value == "imap" then Word else Service
  {
    KindOfWord(value);
    ServicesAreNotDigits(value);
    if value == "img" || value == "imap" {
      PairIsApart(value);
    } else {
      ServicesAreApart(value);
    }
  }

  lemma ServicesAreNotDigits(value: string)
    requires value in ServiceWords()
    ensures !AllDigits(value)
  {
    ServicesStartWithLetters(value);
    assert !IsDigit(value[0]);
  }

  method ClassifyByTables(value: string) returns (kind: TokenKind)
    ensures kind == ClassifyToken(value)
  {
    if AllDigits(value) {
      return Number;
    }
    var found := BinarySearch(EnvironmentWords(), value);
    if found {
      return Environment;
    }
    found := BinarySearch(RegionWords(), value);
    if found {
      return Region;
    }
    found := BinarySearch(CloudWords(), value);
    if found {
      return Cloud;
    }
    found := BinarySearch(ServiceWords(), value);
    return if found then Service else Word;
  }

  predicate IsLetter(c: char) { 'a' <= c <= 'z' }

  /** A valid DNS label without upper-case letters. */
  predicate TokenizableLabel(s: string) {
    && 1 <= |s| <= 63
    && (forall i :: 0 <= i < |s| ==> IsLetter(s[i]) || IsDigit(s[i]) || s[i] == '-')
    && s[0] != '-' && s[|s| - 1] != '-'
  }

  // ----- runs -----

  /** A maximal run: non-empty, no hyphen, all digits or no digit. */
  predicate Run(v: string, digits: bool) {
    v != "" && forall i :: 0 <= i < |v| ==> v[i] != '-' && (IsDigit(v[i]) <==> digits)
  }

  predicate DigitRun(v: string) { v != "" && IsDigit(v[0]) }

  /** Every token is a run; without a hyphen in between, digits and letters alternate. */
  predicate Alternating(tokens: seq<LabelToken>) {
    && (forall i :: 0 <= i < |tokens| ==> Run(tokens[i].value, DigitRun(tokens[i].value)))
    && (tokens != [] ==> tokens[0].separatorBefore == "")
    && (forall i :: 0 < i < |tokens| ==> MayFollow(tokens[i - 1], tokens[i]))
  }

  predicate MayFollow(previous: LabelToken, t: LabelToken) {
    || t.separatorBefore == "-"
    || (t.separatorBefore == "" && DigitRun(t.value) != DigitRun(previous.value))
  }

  lemma AlternatingPrefix(tokens: seq<LabelToken>, n: nat)
    requires Alternating(tokens) && n <= |tokens|
    ensures Alternating(tokens[..n])
  {
    forall i | 0 < i < n ensures MayFollow(tokens[..n][i - 1], tokens[..n][i]) {
      assert MayFollow(tokens[i - 1], tokens[i]);
    }
  }

  function Render(tokens: seq<LabelToken>): string {
    if tokens == [] then ""
    else Render(tokens[..|tokens| - 1]) + tokens[|tokens| - 1].separatorBefore + tokens[|tokens| - 1].value
  }

  // ----- segments -----

  function Split(s: string): (segments: seq<string>)
    ensures segments != []
    ensures forall k :: 0 <= k < |segments| ==> '-' !in segments[k] && forall i :: 0 <= i < |segments[k]| ==> segments[k][i] in s
  {
    if s == "" then [""]
    else
      var rest := Split(s[1..]);
      if s[0] == '-' then [""] + rest else [[s[0]] + rest[0]] + rest[1..]
  }

  function JoinAll(segments: seq<string>): string
    requires segments != []
  {
    if |segments| == 1 then segments[0] else segments[0] + "-" + JoinAll(segments[1..])
  }

  lemma {:induction false} JoinUndoesSplit(s: string)
    ensures JoinAll(Split(s)) == s
  {
    if s != "" {
      JoinUndoesSplit(s[1..]);
      var rest := Split(s[1..]);
      if s[0] == '-' {
        assert Split(s)[1..] == rest;
        assert s == "" + "-" + s[1..];
      } else {
        assert Split(s)[1..] == rest[1..];
        assert s == [s[0]] + s[1..];
      }
    }
  }

  /** The label with every run of hyphens reduced to one: its non-empty segments joined. */
  function Collapse(segments: seq<string>): string {
    if segments == [] then ""
    else
      var front, last := Collapse(segments[..|segments| - 1]), segments[|segments| - 1];
      if last == "" then front else if front == "" then last else front + "-" + last
  }

  lemma {:induction false} CollapseIsJoin(segments: seq<string>)
    requires segments != [] && forall i :: 0 <= i < |segments| ==> segments[i] != ""
    ensures Collapse(segments) == JoinAll(segments)
  {
    if |segments| > 1 {
      CollapseIsJoin(segments[..|segments| - 1]);
      JoinSnoc(segments[..|segments| - 1], segments[|segments| - 1]);
      assert segments == segments[..|segments| - 1] + [segments[|segments| - 1]];
    } else {
      assert Collapse(segments[..0]) == "";
    }
  }

  lemma {:induction false} JoinSnoc(segments: seq<string>, last: string)
    requires segments != []
    ensures JoinAll(segments + [last]) == JoinAll(segments) + "-" + last
  {
    if |segments| > 1 {
      JoinSnoc(segments[1..], last);
      assert (segments + [last])[1..] == segments[1..] + [last];
    } else {
      assert (segments + [last])[1..] == [last];
    }
  }

  predicate Classified(tokens: seq<LabelToken>) {
    forall i :: 0 <= i < |tokens| ==> tokens[i].kind == ClassifyToken(tokens[i].value)
  }

  ghost predicate Tokenization(s: string, tokens: seq<LabelToken>) {
    && tokens != []
    && Tokens(tokens)
    && Render(tokens) == Collapse(Split(s))
  }

  lemma RenderSnoc(tokens: seq<LabelToken>, t: LabelToken)
    ensures Render(tokens + [t]) == Render(tokens) + t.separatorBefore + t.value
  {
    assert (tokens + [t])[..|tokens|] == tokens;
  }

  lemma CollapseSnoc(segments: seq<string>, k: nat)
    requires k < |segments|
    ensures Collapse(segments[..k + 1]) ==
            if segments[k] == "" then Collapse(segments[..k])
            else if Collapse(segments[..k]) == "" then segments[k]
            else Collapse(segments[..k]) + "-" + segments[k]
  {
    assert segments[..k + 1][..k] == segments[..k];
  }

  lemma SplitFirst(s: string)
    requires s != "" && s[0] != '-'
    ensures Split(s)[0] != ""
  {
  }

  predicate Tokens(tokens: seq<LabelToken>) {
    Alternating(tokens) && Classified(tokens)
  }

  /** What may stand behind these tokens. */
  predicate MayEnd(tokens: seq<LabelToken>, value: string, separator: string) {
    if tokens == [] then separator == ""
    else separator == "-" || (separator == "" && DigitRun(value) != DigitRun(tokens[|tokens| - 1].value))
  }

  lemma AlternatingMore(tokens: seq<LabelToken>, t: LabelToken)
    requires Alternating(tokens) && Run(t.value, DigitRun(t.value)) && MayEnd(tokens, t.value, t.separatorBefore)
    ensures Alternating(tokens + [t])
  {
    var more := tokens + [t];
    forall i | 0 < i < |more| ensures MayFollow(more[i - 1], more[i]) {
      if i < |tokens| { assert MayFollow(tokens[i - 1], tokens[i]); }
    }
  }

  lemma ClassifiedMore(tokens: seq<LabelToken>, t: LabelToken)
    requires Classified(tokens) && t.kind == ClassifyToken(t.value)
    ensures Classified(tokens + [t])
  {
  }

  lemma AppendRun(tokens: seq<LabelToken>, t: LabelToken)
    requires Tokens(tokens) && Run(t.value, DigitRun(t.value)) && MayEnd(tokens, t.value, t.separatorBefore)
    requires t.kind == ClassifyToken(t.value)
    ensures Tokens(tokens + [t]) && Render(tokens + [t]) == Render(tokens) + t.separatorBefore + t.value
  {
    AlternatingMore(tokens, t);
    ClassifiedMore(tokens, t);
    RenderSnoc(tokens, t);
  }

  /** The end of the run of digits or letters that begins at start. */
  method RunEnd(segment: string, start: nat) returns (end: nat)
    requires start < |segment| && '-' !in segment
    ensures start < end <= |segment|
    ensures Run(segment[start..end], IsDigit(segment[start])) && DigitRun(segment[start..end]) == IsDigit(segment[start])
    ensures end < |segment| ==> IsDigit(segment[end]) != IsDigit(segment[start])
  {
    var numeric := IsDigit(segment[start]);
    end := start + 1;
    while end < |segment| && IsDigit(segment[end]) == numeric
      invariant start < end <= |segment|
      invariant forall i :: start <= i < end ==> IsDigit(segment[i]) == numeric
    {
      end := end + 1;
    }
  }

  method PushRun(tokens: seq<LabelToken>, value: string, separator: string) returns (output: seq<LabelToken>)
    requires Tokens(tokens) && Run(value, DigitRun(value)) && MayEnd(tokens, value, separator)
    ensures Tokens(output) && output != [] && output[|output| - 1].value == value
    ensures Render(output) == Render(tokens) + separator + value
  {
    var kind := ClassifyByTables(value);
    var t := LabelToken(value, kind, separator);
    AppendRun(tokens, t);
    output := tokens + [t];
  }

  /** The runs of segment[..start] have been appended, and the next one is of the other class. */
  ghost predicate RunsUpto(base: string, separator: string, segment: string, start: nat, tokens: seq<LabelToken>) {
    && start <= |segment| && Tokens(tokens)
    && (start == 0 ==> Render(tokens) == base && (separator == if tokens == [] then "" else "-"))
    && (start > 0 ==> tokens != [] && Render(tokens) == Upto(base, separator, segment, start))
    && (0 < start < |segment| ==> IsDigit(segment[start]) != DigitRun(tokens[|tokens| - 1].value))
  }

  /** Appends the run that begins at start; the first run of the segment carries the separator. */
  method NextRun(ghost base: string, separator: string, segment: string, start: nat, tokens: seq<LabelToken>)
    returns (output: seq<LabelToken>, end: nat)
    requires start < |segment| && '-' !in segment && RunsUpto(base, separator, segment, start, tokens)
    ensures start < end && RunsUpto(base, separator, segment, end, output)
  {
    end := RunEnd(segment, start);
    UptoMore(base, separator, segment, start, end);
    output := PushRun(tokens, segment[start..end], if start == 0 then separator else "");
  }

  /** Appends the runs of one segment. */
  method TokenizeSegment(segment: string, separator: string, tokens: seq<LabelToken>) returns (output: seq<LabelToken>)
    requires '-' !in segment && Tokens(tokens)
    requires separator == if tokens == [] then "" else "-"
    ensures Tokens(output)
    ensures Render(output) == if segment == "" then Render(tokens) else Render(tokens) + separator + segment
    ensures if segment == "" then output == tokens else output != []
  {
    output := tokens;
    var start := 0;
    ghost var base := Render(tokens);
    while start < |segment|
      invariant RunsUpto(base, separator, segment, start, output) && (start == 0 ==> output == tokens)
    {
      output, start := NextRun(base, separator, segment, start, output);
    }
    assert segment[..|segment|] == segment;
  }

  function Upto(base: string, separator: string, segment: string, n: nat): string
    requires n <= |segment|
  {
    base + separator + segment[..n]
  }

  lemma UptoMore(base: string, separator: string, segment: string, start: nat, end: nat)
    requires start <= end <= |segment|
    ensures Upto(base, separator, segment, end)
         == (if start == 0 then base + separator else Upto(base, separator, segment, start)) + segment[start..end]
  {
    assert segment[..end] == segment[..start] + segment[start..end];
  }

  method TokenizeLabel(s: string) returns (r: Option<seq<LabelToken>>)
    ensures r.Some? <==> TokenizableLabel(s)
    ensures r.Some? ==> Tokenization(s, r.value)
  {
    if !TokenizableLabel(s) {
      return None;
    }
    var output: seq<LabelToken> := [];
    var segments := Split(s);
    SplitFirst(s);
    for k := 0 to |segments|
      invariant Tokens(output)
      invariant Render(output) == Collapse(segments[..k])
      invariant (k == 0 <==> output == []) && (k == 0 <==> Collapse(segments[..k]) == "")
    {
      CollapseSnoc(segments, k);
      output := TokenizeSegment(segments[k], if k > 0 then "-" else "", output);
    }
    assert segments[..|segments|] == segments;
    return Some(output);
  }

  /** Without "--" the tokens spell the label back. */
  lemma TokensSpellTheLabel(s: string, tokens: seq<LabelToken>)
    requires Tokenization(s, tokens)
    ensures (forall i :: 0 <= i < |Split(s)| ==> Split(s)[i] != "") ==> Render(tokens) == s
  {
    JoinUndoesSplit(s);
    if forall i :: 0 <= i < |Split(s)| ==> Split(s)[i] != "" {
      CollapseIsJoin(Split(s));
    }
  }

  // ----- unique reading -----

  /** p does not end with a character that could belong to a run of this class. */
  predicate Breaks(p: string, digits: bool) {
    p == "" || p[|p| - 1] == '-' || IsDigit(p[|p| - 1]) != digits
  }

  lemma RunStopsHere(p: string, v: string, p': string, v': string, digits: bool)
    requires Run(v, digits) && Breaks(p', digits) && p + v == p' + v'
    ensures |p'| <= |p|
  {
    var whole := p + v;
    assert forall i :: |p| <= i < |whole| ==> whole[i] == v[i - |p|];
    assert p' == "" || whole[|p'| - 1] == p'[|p'| - 1];
  }

  /** A run is the longest suffix of its class, so equal texts split at the same place. */
  lemma SameSplit(p: string, v: string, p': string, v': string, digits: bool)
    requires Run(v, digits) && Run(v', digits) && Breaks(p, digits) && Breaks(p', digits)
    requires p + v == p' + v'
    ensures p == p' && v == v'
  {
    RunStopsHere(p, v, p', v', digits);
    RunStopsHere(p', v', p, v, digits);
    var whole := p + v;
    assert p == whole[..|p|] && p' == whole[..|p|];
    assert v == whole[|p|..] && v' == whole[|p|..];
  }

  lemma {:induction false} RenderEnd(tokens: seq<LabelToken>)
    requires Alternating(tokens) && tokens != []
    ensures var r, last := Render(tokens), tokens[|tokens| - 1].value;
            r != "" && r[|r| - 1] != '-' && (IsDigit(r[|r| - 1]) <==> DigitRun(last))
  {
  }

  lemma SameSeparator(p: string, s: string, q: string, t: string)
    requires p + s == q + t && s in {"", "-"} && t in {"", "-"}
    requires p == "" || p[|p| - 1] != '-'
    requires q == "" || q[|q| - 1] != '-'
    ensures p == q && s == t
  {
    var l, r := p + s, q + t;
    assert s == "-" <==> l != "" && l[|l| - 1] == '-';
    assert t == "-" <==> r != "" && r[|r| - 1] == '-';
    assert p == l[..|l| - |s|] && q == r[..|r| - |t|];
  }

  lemma SameEnd(text: string, p: string, x: LabelToken, q: string, y: LabelToken)
    requires text == p + x.separatorBefore + x.value == q + y.separatorBefore + y.value
    requires Run(x.value, DigitRun(x.value)) && Run(y.value, DigitRun(x.value))
    requires Breaks(p + x.separatorBefore, DigitRun(x.value)) && Breaks(q + y.separatorBefore, DigitRun(x.value))
    requires x.separatorBefore in {"", "-"} && y.separatorBefore in {"", "-"}
    requires (p == "" || p[|p| - 1] != '-') && (q == "" || q[|q| - 1] != '-')
    ensures p == q && x.value == y.value && x.separatorBefore == y.separatorBefore
  {
    SameSplit(p + x.separatorBefore, x.value, q + y.separatorBefore, y.value, DigitRun(x.value));
    SameSeparator(p, x.separatorBefore, q, y.separatorBefore);
  }

  /** What stands before the last token, and the separator, cannot belong to its run. */
  lemma BeforeLast(tokens: seq<LabelToken>)
    requires Alternating(tokens) && tokens != []
    ensures var p, t := Render(tokens[..|tokens| - 1]), tokens[|tokens| - 1];
            && t.separatorBefore in {"", "-"} && Run(t.value, DigitRun(t.value))
            && (p == "" || p[|p| - 1] != '-')
            && Breaks(p + t.separatorBefore, DigitRun(t.value))
  {
    var n := |tokens| - 1;
    if n > 0 {
      AlternatingPrefix(tokens, n);
      RenderEnd(tokens[..n]);
      assert MayFollow(tokens[n - 1], tokens[n]);
    }
  }

  lemma SameLastToken(a: seq<LabelToken>, b: seq<LabelToken>)
    requires Alternating(a) && Alternating(b) && a != [] && b != []
    requires Render(a) == Render(b)
    ensures var x, y := a[|a| - 1], b[|b| - 1];
            x.value == y.value && x.separatorBefore == y.separatorBefore
    ensures Render(a[..|a| - 1]) == Render(b[..|b| - 1])
  {
    var x, y, p, q := a[|a| - 1], b[|b| - 1], Render(a[..|a| - 1]), Render(b[..|b| - 1]);
    RenderEnd(a);
    RenderEnd(b);
    BeforeLast(a);
    BeforeLast(b);
    SameEnd(Render(a), p, x, q, y);
  }

  /** Equal texts consist of the same runs with the same separators. */
  lemma {:induction false} SameRuns(a: seq<LabelToken>, b: seq<LabelToken>)
    requires Alternating(a) && Alternating(b) && Render(a) == Render(b)
    ensures |a| == |b|
    ensures forall i :: 0 <= i < |a| ==> a[i].value == b[i].value && a[i].separatorBefore == b[i].separatorBefore
  {
    if a != [] && b != [] {
      SameLastToken(a, b);
      AlternatingPrefix(a, |a| - 1);
      AlternatingPrefix(b, |b| - 1);
      SameRuns(a[..|a| - 1], b[..|b| - 1]);
    } else if a != [] {
      RenderEnd(a);
    } else if b != [] {
      RenderEnd(b);
    }
  }

  /** A label has at most one tokenization. */
  lemma UniqueReading(a: seq<LabelToken>, b: seq<LabelToken>)
    requires Tokens(a) && Tokens(b) && Render(a) == Render(b)
    ensures a == b
  {
    SameRuns(a, b);
    forall i | 0 <= i < |a| ensures a[i] == b[i] {
      assert a[i].kind == ClassifyToken(a[i].value) && b[i].kind == ClassifyToken(b[i].value);
    }
  }

  // ----- a service that is not seen -----

  lemma ServiceAt(n: nat)
    requires n < |ServiceWords()|
    ensures ServiceWords()[n] in ServiceWords()
  {
  }

  lemma ImapIsAWord()
    ensures ClassifyToken("imap") == Word && ClassifyToken("img") == Word
  {
    MiddleOfServices();
    ServiceAt(23);
    ServiceAt(24);
    ServiceKindIff("img");
    ServiceKindIff("imap");
  }

  lemma ImapIsARun()
    ensures Run("imap", false)
  {
  }

  lemma {:induction false} SplitWithout(s: string)
    requires '-' !in s
    ensures Split(s) == [s]
  {
    if s != "" {
      SplitWithout(s[1..]);
      assert s == [s[0]] + s[1..];
    }
  }

  lemma {:induction false} SplitAtHyphen(a: string, b: string)
    requires '-' !in a && '-' !in b
    ensures Split(a + "-" + b) == [a, b]
  {
    var s := a + "-" + b;
    if a == "" {
      SplitWithout(b);
      assert s[1..] == b;
    } else {
      SplitAtHyphen(a[1..], b);
      assert s[1..] == a[1..] + "-" + b;
      assert a == [a[0]] + a[1..];
    }
  }

  lemma CollapseOfTwo(a: string, b: string)
    requires a != "" && b != ""
    ensures Collapse([a, b]) == a + "-" + b
  {
    assert [a, b][..1] == [a] && [a][..0] == [];
    assert Collapse([a]) == a;
  }

  lemma TwoTokens(first: LabelToken, second: LabelToken)
    requires Tokens([]) && first.separatorBefore == "" && second.separatorBefore == "-"
    requires Run(first.value, DigitRun(first.value)) && Run(second.value, DigitRun(second.value))
    requires first.kind == ClassifyToken(first.value) && second.kind == ClassifyToken(second.value)
    ensures Tokens([first, second])
    ensures Render([first, second]) == first.value + "-" + second.value
  {
    AppendRun([], first);
    AppendRun([first], second);
    assert [] + [first] == [first] && [first] + [second] == [first, second];
    assert Render([first]) == first.value;
  }

  lemma TwoSegments(a: string, b: string)
    requires a != "" && b != "" && '-' !in a && '-' !in b
    ensures Collapse(Split(a + "-" + b)) == a + "-" + b
  {
    SplitAtHyphen(a, b);
    CollapseOfTwo(a, b);
  }

  /** Two runs with a hyphen in between are read as these two tokens and nothing else. */
  lemma ReadAsTwo(first: LabelToken, second: LabelToken, tokens: seq<LabelToken>)
    requires first.separatorBefore == "" && second.separatorBefore == "-"
    requires Run(first.value, DigitRun(first.value)) && Run(second.value, DigitRun(second.value))
    requires first.kind == ClassifyToken(first.value) && second.kind == ClassifyToken(second.value)
    requires Tokenization(first.value + "-" + second.value, tokens)
    ensures tokens == [first, second]
  {
    NoHyphenInRun(first.value, DigitRun(first.value));
    NoHyphenInRun(second.value, DigitRun(second.value));
    TwoSegments(first.value, second.value);
    TwoTokens(first, second);
    UniqueReading(tokens, [first, second]);
  }

  lemma NoHyphenInRun(v: string, digits: bool)
    requires Run(v, digits)
    ensures '-' !in v
  {
  }

  lemma LiteralAndNumber(w: string, d: string, tokens: seq<LabelToken>)
    requires Run(w, false) && Run(d, true) && ClassifyToken(w) == Word
    requires Tokenization(w + "-" + d, tokens)
    ensures tokens == [LabelToken(w, Word, ""), LabelToken(d, Number, "-")]
  {
    assert AllDigits(d);
    ReadAsTwo(LabelToken(w, Word, ""), LabelToken(d, Number, "-"), tokens);
  }

  /** "imap-01" starts with a literal, where "smtp-01" starts with a service. */
  lemma ImapIsALiteral(d: string, tokens: seq<LabelToken>)
    requires Run(d, true) && Tokenization("imap" + "-" + d, tokens)
    ensures tokens == [LabelToken("imap", Word, ""), LabelToken(d, Number, "-")]
  {
    ImapIsARun();
    ImapIsAWord();
    LiteralAndNumber("imap", d, tokens);
  }
}
