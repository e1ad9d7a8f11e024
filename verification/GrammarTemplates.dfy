/** Templates induced from tokenized labels (src/intelligence.rs): their choices always spell distinct texts. */
module GrammarTemplates {
  import opened Basics
  import opened Decimals
  import opened LabelTokens
  import opened BeamSearch
  import opened TokenKinds

  const MAX_VALUES_PER_SLOT: nat := 256
  const U32_LIMIT: nat := 0x1_0000_0000

  /** How many of these tokens became slots. */
  function SlotCount(tokens: seq<LabelToken>): nat {
    if tokens == [] then 0
    else SlotCount(tokens[..|tokens| - 1]) + if tokens[|tokens| - 1].kind == Word then 0 else 1
  }

  /** Unclassified words stay literal; every other token becomes the next slot. */
  function PartsOf(tokens: seq<LabelToken>): seq<TemplatePart> {
    if tokens == [] then []
    else
      var front, t := tokens[..|tokens| - 1], tokens[|tokens| - 1];
      PartsOf(front) + [if t.kind == Word then Literal(t.separatorBefore, t.value)
                        else Slot(t.separatorBefore, t.kind, SlotCount(front))]
  }

  /** v can fill a slot of this kind: it is a run, of digits iff the slot holds numbers. */
  predicate Fills(v: string, kind: TokenKind) {
    Run(v, DigitRun(v)) && (DigitRun(v) <==> kind == Number)
  }

  /** Alternating runs of which exactly the digits are numbers; nothing is said of how words are classified. */
  predicate Shaped(tokens: seq<LabelToken>) {
    Alternating(tokens) && forall i :: 0 <= i < |tokens| ==> Fills(tokens[i].value, tokens[i].kind)
  }

  lemma TokensAreShaped(tokens: seq<LabelToken>)
    requires Tokens(tokens)
    ensures Shaped(tokens)
  {
    forall i | 0 <= i < |tokens| ensures Fills(tokens[i].value, tokens[i].kind) {
      RunKind(tokens[i].value);
    }
  }

  /** The values offered at the slot of every token are distinct and of that token's kind. */
  ghost predicate SlotsFor(tokens: seq<LabelToken>, slots: Slots) {
    forall n :: 0 <= n < |tokens| && tokens[n].kind != Word ==>
      var index := SlotCount(tokens[..n]);
      index in slots ==>
        DistinctValues(slots[index]) && forall i :: 0 <= i < |slots[index]| ==> Fills(slots[index][i].value, tokens[n].kind)
  }

  lemma RunKind(v: string)
    requires Run(v, DigitRun(v))
    ensures DigitRun(v) <==> ClassifyToken(v) == Number
  {
  }

  /** s ends with a digit or a letter, as asked. */
  predicate EndsIn(s: string, digits: bool) {
    s != "" && s[|s| - 1] != '-' && (IsDigit(s[|s| - 1]) <==> digits)
  }

  lemma AppendedEnd(s: string, v: string, digits: bool)
    requires Run(v, digits)
    ensures EndsIn(s + v, digits)
  {
  }

  lemma PartsFront(tokens: seq<LabelToken>)
    requires tokens != []
    ensures |PartsOf(tokens)| == |tokens|
    ensures PartsOf(tokens)[..|tokens| - 1] == PartsOf(tokens[..|tokens| - 1])
  {
    PartsLength(tokens[..|tokens| - 1]);
  }

  lemma {:induction false} PartsLength(tokens: seq<LabelToken>)
    ensures |PartsOf(tokens)| == |tokens|
  {
    if tokens != [] { PartsLength(tokens[..|tokens| - 1]); }
  }

  lemma SlotsForFront(tokens: seq<LabelToken>, slots: Slots)
    requires tokens != [] && SlotsFor(tokens, slots)
    ensures SlotsFor(tokens[..|tokens| - 1], slots)
  {
    var front := tokens[..|tokens| - 1];
    forall n | 0 <= n < |front| ensures front[..n] == tokens[..n] && front[n] == tokens[n] { }
  }

  lemma SlotTexts(f: seq<BeamState>, separator: string, index: nat, values: seq<GrammarValue>, kind: TokenKind, x: BeamState)
    requires forall i :: 0 <= i < |values| ==> Fills(values[i].value, kind)
    requires x in Expand(f, separator, index, values)
    ensures EndsIn(x.text, kind == Number)
  {
    ExpandMember(f, separator, index, values, x);
    var s :| s in f && x in Row(s, separator, index, values);
    var j :| 0 <= j < |values| && x == Extend(s, separator, index, values[j]);
    AppendedEnd(s.text + separator, values[j].value, kind == Number);
  }

  /** Every spelled text ends in the class of the last token, so the next run can be told apart. */
  lemma FullTexts(tokens: seq<LabelToken>, slots: Slots, start: BeamState)
    requires Shaped(tokens) && SlotsFor(tokens, slots) && start.text == ""
    ensures forall x :: x in Full(PartsOf(tokens), slots, start) ==>
              if tokens == [] then x.text == "" else EndsIn(x.text, DigitRun(tokens[|tokens| - 1].value))
  {
    if tokens != [] {
      var n := |tokens| - 1;
      var front, t := tokens[..n], tokens[n];
      PartsFront(tokens);
      var f := Full(PartsOf(front), slots, start);
      forall x | x in Full(PartsOf(tokens), slots, start) ensures EndsIn(x.text, DigitRun(t.value)) {
        if t.kind == Word {
        } else {
          SlotTexts(f, t.separatorBefore, SlotCount(front), slots[SlotCount(front)], t.kind, x);
        }
      }
    }
  }

  lemma TextBreaks(tokens: seq<LabelToken>, s: string)
    requires Shaped(tokens) && tokens != []
    requires var n := |tokens| - 1;
             if n == 0 then s == "" else EndsIn(s, DigitRun(tokens[n - 1].value))
    ensures var t := tokens[|tokens| - 1]; Breaks(s + t.separatorBefore, DigitRun(t.value))
  {
    var n := |tokens| - 1;
    if n > 0 {
      assert MayFollow(tokens[n - 1], tokens[n]);
    }
  }

  /** Equal texts behind the same separator come from the same front and the same value. */
  lemma SameChoice(a: string, b: string, separator: string, v: string, u: string, digits: bool)
    requires Breaks(a + separator, digits) && Breaks(b + separator, digits) && Run(v, digits) && Run(u, digits)
    requires a + separator + v == b + separator + u
    ensures a == b && v == u
  {
    SameSplit(a + separator, v, b + separator, u, digits);
    assert (a + separator)[..|a|] == a && (b + separator)[..|b|] == b;
  }

  /** What fills a slot is a run like the token it came from. */
  lemma FillsLike(v: string, t: LabelToken)
    requires Fills(t.value, t.kind) && Fills(v, t.kind)
    ensures Run(v, DigitRun(t.value))
  {
  }

  /** A text that the tokens before the last one can spell. */
  predicate InFront(tokens: seq<LabelToken>, s: string)
    requires tokens != []
  {
    if |tokens| == 1 then s == "" else EndsIn(s, DigitRun(tokens[|tokens| - 2].value))
  }

  lemma SlotPair(tokens: seq<LabelToken>, a: string, b: string, v: string, u: string)
    requires Shaped(tokens) && tokens != [] && InFront(tokens, a) && InFront(tokens, b)
    requires Fills(v, tokens[|tokens| - 1].kind) && Fills(u, tokens[|tokens| - 1].kind)
    requires a + tokens[|tokens| - 1].separatorBefore + v == b + tokens[|tokens| - 1].separatorBefore + u
    ensures a == b && v == u
  {
    var t := tokens[|tokens| - 1];
    TextBreaks(tokens, a);
    TextBreaks(tokens, b);
    FillsLike(v, t);
    FillsLike(u, t);
    SameChoice(a, b, t.separatorBefore, v, u, DigitRun(t.value));
  }

  lemma FrontTexts(tokens: seq<LabelToken>, slots: Slots, start: BeamState)
    requires Shaped(tokens) && SlotsFor(tokens, slots) && start.text == "" && tokens != []
    ensures forall a :: a in Texts(Full(PartsOf(tokens[..|tokens| - 1]), slots, start)) ==> InFront(tokens, a)
  {
    AlternatingPrefix(tokens, |tokens| - 1);
    SlotsForFront(tokens, slots);
    FullTexts(tokens[..|tokens| - 1], slots, start);
  }

  lemma SlotFills(tokens: seq<LabelToken>, slots: Slots)
    requires SlotsFor(tokens, slots) && tokens != [] && tokens[|tokens| - 1].kind != Word && SlotCount(tokens[..|tokens| - 1]) in slots
    ensures var values := slots[SlotCount(tokens[..|tokens| - 1])];
            DistinctValues(values) && forall i :: 0 <= i < |values| ==> Fills(values[i].value, tokens[|tokens| - 1].kind)
  {
  }

  lemma SlotIsUnambiguous(tokens: seq<LabelToken>, slots: Slots, start: BeamState)
    requires Shaped(tokens) && SlotsFor(tokens, slots) && start.text == ""
    requires tokens != [] && tokens[|tokens| - 1].kind != Word && SlotCount(tokens[..|tokens| - 1]) in slots
    ensures Unambiguous(Texts(Full(PartsOf(tokens[..|tokens| - 1]), slots, start)), tokens[|tokens| - 1].separatorBefore,
                        slots[SlotCount(tokens[..|tokens| - 1])])
  {
    var texts, values := Texts(Full(PartsOf(tokens[..|tokens| - 1]), slots, start)), slots[SlotCount(tokens[..|tokens| - 1])];
    FrontTexts(tokens, slots, start);
    SlotFills(tokens, slots);
    AllPairs(tokens, texts, values);
  }

  lemma AllPairs(tokens: seq<LabelToken>, texts: set<string>, values: seq<GrammarValue>)
    requires Shaped(tokens) && tokens != [] && DistinctValues(values)
    requires forall a :: a in texts ==> InFront(tokens, a)
    requires forall i :: 0 <= i < |values| ==> Fills(values[i].value, tokens[|tokens| - 1].kind)
    ensures Unambiguous(texts, tokens[|tokens| - 1].separatorBefore, values)
  {
    var separator := tokens[|tokens| - 1].separatorBefore;
    forall a, b, i, j | a in texts && b in texts && 0 <= i < |values| && 0 <= j < |values|
                        && a + separator + values[i].value == b + separator + values[j].value
      ensures a == b && i == j
    {
      SlotPair(tokens, a, b, values[i].value, values[j].value);
    }
  }

  lemma {:induction false} GrammarSpellsDistinctly(tokens: seq<LabelToken>, slots: Slots, start: BeamState)
    requires Shaped(tokens) && SlotsFor(tokens, slots) && start.text == ""
    ensures SpellsDistinctly(PartsOf(tokens), slots, start)
  {
    if tokens != [] {
      var n := |tokens| - 1;
      PartsFront(tokens);
      AlternatingPrefix(tokens, n);
      SlotsForFront(tokens, slots);
      GrammarSpellsDistinctly(tokens[..n], slots, start);
      if tokens[n].kind != Word && SlotCount(tokens[..n]) in slots {
        SlotIsUnambiguous(tokens, slots, start);
      }
    }
  }

  function TemplateScore(support: nat, temporalScoreMilli: nat): int
    requires temporalScoreMilli < 0x1_0000
  {
    SaturatingAdd(SaturatingMul(if support > MAX_I64 then MAX_I64 else support, 100_000), temporalScoreMilli * 100)
  }

  /** On shaped tokens whose slots offer distinct values of their kinds the beam is exact. */
  lemma GrammarBeamIsExact(tokens: seq<LabelToken>, slots: Slots, w: nat, support: nat, temporal: nat)
    requires Shaped(tokens) && SlotsFor(tokens, slots) && temporal < 0x1_0000
    requires w > 0
    ensures var start := BeamState("", TemplateScore(support, temporal), []);
            Scores(Beam(PartsOf(tokens), slots, w, start)) == TopScores(w, Full(PartsOf(tokens), slots, start))
  {
    var start := BeamState("", TemplateScore(support, temporal), []);
    GrammarSpellsDistinctly(tokens, slots, start);
    BeamIsExact(PartsOf(tokens), slots, w, start);
  }

  // ----- numeric slots -----

  predicate ParsesU32(v: string) { Numeral(v) && Value(v) < U32_LIMIT }

  predicate AllFill(values: seq<GrammarValue>) {
    forall i :: 0 <= i < |values| ==> Fills(values[i].value, Number)
  }

  lemma PaddedFills(n: nat, width: nat)
    ensures Fills(Padded(n, width), Number)
  {
    PaddedNumeral(n, width);
  }

  lemma AppendValue(values: seq<GrammarValue>, v: GrammarValue)
    requires DistinctValues(values) && AllFill(values) && Fills(v.value, Number)
    requires forall i :: 0 <= i < |values| ==> values[i].value != v.value
    ensures DistinctValues(values + [v]) && AllFill(values + [v])
  {
  }

  /** The numbers parsed from the slot's values, with their widths. */
  function Parsed(values: seq<GrammarValue>): seq<(nat, nat)> {
    if values == [] then []
    else
      var last := values[|values| - 1].value;
      Parsed(values[..|values| - 1]) + if ParsesU32(last) then [(Value(last), |last|)] else []
  }

  function Least(parsed: seq<(nat, nat)>): nat
    requires parsed != []
  {
    if |parsed| == 1 then parsed[0].0 else Min(Least(parsed[..|parsed| - 1]), parsed[|parsed| - 1].0)
  }

  function Greatest(parsed: seq<(nat, nat)>): nat
    requires parsed != []
  {
    if |parsed| == 1 then parsed[0].0 else Max(Greatest(parsed[..|parsed| - 1]), parsed[|parsed| - 1].0)
  }

  lemma {:induction false} LeastAndGreatest(parsed: seq<(nat, nat)>)
    requires parsed != []
    ensures forall p :: p in parsed ==> Least(parsed) <= p.0 <= Greatest(parsed)
  {
    if |parsed| > 1 {
      LeastAndGreatest(parsed[..|parsed| - 1]);
    }
  }

  method ParsedValues(values: seq<GrammarValue>) returns (parsed: seq<(nat, nat)>)
    ensures parsed == Parsed(values)
  {
    parsed := [];
    for i := 0 to |values|
      invariant parsed == Parsed(values[..i])
    {
      assert values[..i + 1][..i] == values[..i];
      if ParsesU32(values[i].value) {
        parsed := parsed + [(Value(values[i].value), |values[i].value|)];
      }
    }
    assert values[..|values|] == values;
  }

  method Bounds(parsed: seq<(nat, nat)>) returns (minimum: nat, maximum: nat)
    requires parsed != []
    ensures minimum == Least(parsed) && maximum == Greatest(parsed) && minimum <= maximum
  {
    minimum, maximum := parsed[0].0, parsed[0].0;
    for i := 1 to |parsed|
      invariant minimum == Least(parsed[..i]) && maximum == Greatest(parsed[..i]) && minimum <= maximum
    {
      assert parsed[..i + 1][..i] == parsed[..i];
      if parsed[i].0 < minimum { minimum := parsed[i].0; }
      if parsed[i].0 > maximum { maximum := parsed[i].0; }
    }
    assert parsed[..|parsed|] == parsed;
  }

  /** At least two numbers, all of one width, that do not lie too far apart. */
  predicate Extensible(parsed: seq<(nat, nat)>, maxSpan: nat) {
    |parsed| >= 2 && (forall p :: p in parsed ==> p.1 == parsed[0].1) && Monus(Greatest(parsed), Least(parsed)) <= maxSpan
  }

  /** The numbers from lo to hi at a common width. */
  datatype Span = Span(lo: nat, hi: nat, width: nat)

  function SpanOf(parsed: seq<(nat, nat)>, radius: nat): Span
    requires parsed != []
  {
    Span(Monus(Least(parsed), radius), Min(Greatest(parsed) + radius, U32_LIMIT - 1), parsed[0].1)
  }

  /** v is one of the span's numbers below the bound, freshly added. */
  predicate AddedFrom(v: GrammarValue, span: Span, below: nat) {
    && v == GrammarValue(v.value, 0, false, 0)
    && exists n :: span.lo <= n < below && n <= span.hi && v.value == Padded(n, span.width)
  }

  predicate HasText(values: seq<GrammarValue>, text: string) {
    exists i :: 0 <= i < |values| && values[i].value == text
  }

  /** values, then numbers of the span below the bound; none of those is missing. */
  ghost predicate ExtendedBy(values: seq<GrammarValue>, out: seq<GrammarValue>, span: Span, below: nat) {
    && values <= out && DistinctValues(out) && AllFill(out)
    && (forall i :: |values| <= i < |out| ==> AddedFrom(out[i], span, below))
    && (forall n {:trigger Padded(n, span.width)} :: span.lo <= n < below && n <= span.hi ==> HasText(out, Padded(n, span.width)))
  }

  lemma OneMoreNumber(values: seq<GrammarValue>, out: seq<GrammarValue>, span: Span, n: nat)
    requires ExtendedBy(values, out, span, n) && span.lo <= n <= span.hi
    ensures HasText(out, Padded(n, span.width)) ==> ExtendedBy(values, out, span, n + 1)
    ensures !HasText(out, Padded(n, span.width)) ==>
              ExtendedBy(values, out + [GrammarValue(Padded(n, span.width), 0, false, 0)], span, n + 1)
  {
    var text := Padded(n, span.width);
    if !HasText(out, text) {
      var v := GrammarValue(text, 0, false, 0);
      PaddedFills(n, span.width);
      AppendValue(out, v);
      HasTextMore(out, v);
      assert AddedFrom(v, span, n + 1);
    }
  }

  lemma HasTextMore(out: seq<GrammarValue>, v: GrammarValue)
    ensures HasText(out + [v], v.value)
    ensures forall text :: HasText(out, text) ==> HasText(out + [v], text)
  {
    assert (out + [v])[|out|] == v;
    forall text | HasText(out, text) ensures HasText(out + [v], text) {
      var i :| 0 <= i < |out| && out[i].value == text;
      assert (out + [v])[i].value == text;
    }
  }

  /** The loop over the span, left as soon as there is no room. */
  method AddNumbers(values: seq<GrammarValue>, span: Span, room: nat) returns (out: seq<GrammarValue>, ghost below: nat)
    requires DistinctValues(values) && AllFill(values) && room > 0
    ensures ExtendedBy(values, out, span, below) && |out| <= |values| + room
    ensures below > span.hi || |out| == |values| + room
  {
    out := values;
    var remaining, number := room, span.lo;
    while number <= span.hi
      invariant ExtendedBy(values, out, span, number)
      invariant |out| + remaining == |values| + room && remaining > 0
      decreases span.hi + 1 - number
    {
      OneMoreNumber(values, out, span, number);
      var text := Padded(number, span.width);
      number := number + 1;
      if HasText(out, text) {
        continue;
      }
      out := out + [GrammarValue(text, 0, false, 0)];
      remaining := remaining - 1;
      if remaining == 0 {
        return out, number;
      }
    }
    return out, number;
  }

  /**
   What extrapolation makes of a slot: every missing number from the least minus the radius to the greatest plus the
   radius, at the common width and in ascending order, up to the end or up to the one that fills the slot, behind the
   existing values; a slot that is full or not extensible stays as it is.
   */
  ghost predicate Extrapolated(values: seq<GrammarValue>, out: seq<GrammarValue>, limit: nat, radius: nat, maxSpan: nat) {
    && DistinctValues(out) && AllFill(out) && (|out| == |values| || |out| <= limit)
    && (!Extensible(Parsed(values), maxSpan) || |values| >= limit ==> out == values)
    && (Extensible(Parsed(values), maxSpan) && |values| < limit ==>
          var span := SpanOf(Parsed(values), radius);
          exists below: nat :: ExtendedBy(values, out, span, below) && (below > span.hi || |out| == limit))
  }

  method ExtendNumericValues(values: seq<GrammarValue>, maxValuesPerSlot: nat, radius: nat, maxSpan: nat)
    returns (out: seq<GrammarValue>)
    requires DistinctValues(values) && AllFill(values)
    ensures Extrapolated(values, out, Min(maxValuesPerSlot, MAX_VALUES_PER_SLOT), radius, maxSpan)
  {
    out := values;
    var limit := Min(maxValuesPerSlot, MAX_VALUES_PER_SLOT);
    if |values| >= limit {
      return;
    }
    var remaining := limit - |values|;
    var parsed := ParsedValues(values);
    if |parsed| < 2 {
      return;
    }
    var width := parsed[0].1;
    if exists p :: p in parsed && p.1 != width {
      return;
    }
    var minimum, maximum := Bounds(parsed);
    if maximum - minimum > maxSpan {
      return;
    }
    var number := if minimum >= radius then minimum - radius else 0;
    var end := Min(maximum + radius, U32_LIMIT - 1);
    ghost var below;
    out, below := AddNumbers(values, Span(number, end, width), remaining);
    assert Span(number, end, width) == SpanOf(parsed, radius);
  }
}
