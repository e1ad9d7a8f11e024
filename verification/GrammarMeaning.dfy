/**
 What the values of an induced grammar say about the observed names (src/intelligence.rs): how often and when they were
 seen, and which numbers are added to a series.
 */
module GrammarMeaning {
  import opened Basics
  import opened Decimals
  import opened Ranking
  import opened TokenKinds
  import opened Tallies
  import opened LabelTokens
  import opened BeamSearch
  import opened GrammarTemplates
  import opened TemplateLanguage
  import opened SlotValues
  import opened GrammarInduction
  import HostnameRules

  // ----- the vocabulary -----

  /** How many tokens have this kind and text. */
  function Mentions(tokens: seq<LabelToken>, kind: TokenKind, value: string): nat {
    if tokens == [] then 0
    else
      var t := tokens[|tokens| - 1];
      Mentions(tokens[..|tokens| - 1], kind, value) + if t.kind == kind && t.value == value then 1 else 0
  }

  function MentionsIn(readings: seq<Reading>, kind: TokenKind, value: string): nat {
    if readings == [] then 0
    else MentionsIn(readings[..|readings| - 1], kind, value) + Mentions(readings[|readings| - 1].tokens, kind, value)
  }

  lemma {:induction false} TimesJoin<K>(a: seq<Sighting<K>>, b: seq<Sighting<K>>, key: K)
    ensures Times(a + b, key) == Times(a, key) + Times(b, key)
  {
    if b == [] {
      assert a + b == a;
    } else {
      TimesJoin(a, b[..|b| - 1], key);
      assert (a + b)[..|a + b| - 1] == a + b[..|b| - 1];
    }
  }

  lemma TimesMore<K>(s: seq<Sighting<K>>, x: Sighting<K>, key: K)
    ensures Times(s + [x], key) == Times(s, key) + if x.key == key then 1 else 0
  {
    assert (s + [x])[..|s|] == s;
  }

  lemma {:induction false} TokensAreCounted(tokens: seq<LabelToken>, at: Option<int>, kind: TokenKind, value: string)
    ensures Times(TokenSightings(tokens, at), (kind, value)) == if kind == Word then 0 else Mentions(tokens, kind, value)
  {
    if tokens != [] {
      var front, t := tokens[..|tokens| - 1], tokens[|tokens| - 1];
      TokensAreCounted(front, at, kind, value);
      assert Mentions(tokens, kind, value) == Mentions(front, kind, value) + if t.kind == kind && t.value == value then 1 else 0;
      TimesMore(TokenSightings(front, at), Sighting((t.kind, t.value), at), (kind, value));
    }
  }

  lemma {:induction false} ReadingsAreCounted(readings: seq<Reading>, kind: TokenKind, value: string)
    ensures Times(AllSightings(readings), (kind, value)) == if kind == Word then 0 else MentionsIn(readings, kind, value)
  {
    if readings != [] {
      var front, last := readings[..|readings| - 1], readings[|readings| - 1];
      ReadingsAreCounted(front, kind, value);
      TokensAreCounted(last.tokens, last.name.at, kind, value);
      TimesJoin(AllSightings(front), TokenSightings(last.tokens, last.name.at), (kind, value));
    }
  }

  /** The vocabulary holds every classified token and number of the readings, with the number of its mentions, and no word. */
  lemma VocabularyCounts(readings: seq<Reading>, kind: TokenKind, value: string)
    ensures (kind, value) in VocabularyOf(readings) <==> kind != Word && MentionsIn(readings, kind, value) > 0
    ensures (kind, value) in VocabularyOf(readings) ==>
              VocabularyOf(readings)[(kind, value)].observations == Min(MentionsIn(readings, kind, value), USIZE_MAX)
  {
    TallyMeans(AllSightings(readings), (kind, value));
    NeverSeen(AllSightings(readings), (kind, value));
    ReadingsAreCounted(readings, kind, value);
  }

  // ----- the templates -----

  /** Exactly the labels that host names are made of are learned from. */
  lemma LearnedFromHostLabels(s: string)
    ensures TokenizableLabel(s) <==> HostnameRules.HostLabel(s)
  {
    if TokenizableLabel(s) { assert forall i :: 0 <= i < |s| ==> IsLetter(s[i]) || IsDigit(s[i]) || s[i] == '-'; }
  }

  /** A key has a template iff its readings have the configured number of different labels, and at least one. */
  lemma TemplateIff(
      readings: seq<Reading>, config: Config, templates: map<string, Template>, vocabulary: seq<VocabularyEntry>, key: string)
    requires GrammarOf(readings, config, templates, vocabulary)
    ensures var g := Group(readings, key);
            && (key in templates <==> g != [] && |set r | r in g :: r.name.leaf| >= config.minTemplateSupport)
            && (key in templates ==> templates[key].support == |set r | r in g :: r.name.leaf|)
  {
    var g := Group(readings, key);
    if g != [] { assert g[0].name.leaf in Labels(g); }
  }

  // ----- the values of a slot -----

  /** How many readings choose v at slot i. */
  function Choosing(g: seq<Reading>, i: nat, v: string): nat {
    if g == [] then 0 else Choosing(g[..|g| - 1], i, v) + if ChoiceOf(g[|g| - 1], i) == v then 1 else 0
  }

  lemma {:induction false} ChoicesAreCounted(g: seq<Reading>, i: nat, v: string)
    ensures Times(SlotSightings(g, i), v) == Choosing(g, i, v)
  {
    if g != [] {
      ChoicesAreCounted(g[..|g| - 1], i, v);
      assert SlotSightings(g, i)[..|g| - 1] == SlotSightings(g[..|g| - 1], i);
    }
  }

  /** latest is the greatest known time of the readings that choose v at slot i. */
  ghost predicate LatestChoice(g: seq<Reading>, i: nat, v: string, latest: Option<int>) {
    && (forall j :: 0 <= j < |g| && ChoiceOf(g[j], i) == v && g[j].name.at.Some? ==> latest.Some? && g[j].name.at.value <= latest.value)
    && (latest.Some? ==> exists j :: 0 <= j < |g| && ChoiceOf(g[j], i) == v && g[j].name.at == latest)
  }

  lemma SlotTallyCounts(g: seq<Reading>, i: nat, v: string)
    ensures v in SlotTally(g, i) <==> Choosing(g, i, v) > 0
    ensures v in SlotTally(g, i) ==>
              && SlotTally(g, i)[v].observations == Min(Choosing(g, i, v), USIZE_MAX)
              && LatestChoice(g, i, v, SlotTally(g, i)[v].latest)
  {
    var s := SlotSightings(g, i);
    TallyMeans(s, v);
    NeverSeen(s, v);
    ChoicesAreCounted(g, i, v);
    if v in SlotTally(g, i) {
      var latest := SlotTally(g, i)[v].latest;
      forall j | 0 <= j < |g| && ChoiceOf(g[j], i) == v && g[j].name.at.Some? ensures latest.Some? && g[j].name.at.value <= latest.value {
        assert s[j].key == v;
      }
      if latest.Some? {
        var j :| 0 <= j < |s| && s[j] == Sighting(v, latest);
      }
    }
  }

  lemma OfferedValue(
      kind: TokenKind, tally: map<string, Stats>, global: Vocabulary, config: Config, values: seq<GrammarValue>, x: GrammarValue)
    requires OffersBest(kind, tally, global, config, values) && x in values && kind != Number
    ensures x in LocalValues(tally, config.temporal) || (kind != Word && x in TransferredValues(kind, tally, global, config.temporal))
  {
    var offered :| Offer(kind, tally, global, config, offered) && values == Take(Sort(ValueBefore, offered), SlotLimit(config));
    KeptFromOffer(offered, SlotLimit(config));
    assert x in Elements(values);
  }

  /**
   A value of a slot that is not for numbers: seen here, it carries the number of readings of the template that choose it,
   and the score of the latest of them; otherwise no reading here chooses it, and it carries the mentions of its kind anywhere.
   */
  lemma SlotValueMeans(readings: seq<Reading>, key: string, t: Template, config: Config, i: nat, x: GrammarValue)
    requires Induced(t, Group(readings, key), VocabularyOf(readings), config)
    requires i < |SlotKinds(t.parts)| && SlotKinds(t.parts)[i] != Number && i in t.slots && x in t.slots[i]
    ensures var g, kind := Group(readings, key), SlotKinds(t.parts)[i];
            && (x.observedInTemplate <==> Choosing(g, i, x.value) > 0)
            && (x.observedInTemplate ==>
                  && x.observations == Min(Choosing(g, i, x.value), USIZE_MAX)
                  && exists latest :: LatestChoice(g, i, x.value, latest) && x.temporalScoreMilli == config.temporal(latest))
            && (!x.observedInTemplate ==> x.observations == Min(MentionsIn(readings, kind, x.value), USIZE_MAX) && x.observations > 0)
  {
    var g, kind := Group(readings, key), SlotKinds(t.parts)[i];
    OfferedValue(kind, SlotTally(g, i), VocabularyOf(readings), config, t.slots[i], x);
    SlotTallyCounts(g, i, x.value);
    VocabularyCounts(readings, kind, x.value);
    if x in LocalValues(SlotTally(g, i), config.temporal) {
      assert x.value in SlotTally(g, i);
    } else {
      assert x.value !in SlotTally(g, i) && (kind, x.value) in VocabularyOf(readings);
    }
  }

  /** Every value that some reading of the template chooses is in its slot, or the slot is full. */
  lemma ChosenIsOffered(readings: seq<Reading>, key: string, t: Template, config: Config, i: nat, v: string)
    requires Induced(t, Group(readings, key), VocabularyOf(readings), config)
    requires i < |SlotKinds(t.parts)| && i in t.slots && Choosing(Group(readings, key), i, v) > 0
    ensures HasText(t.slots[i], v) || |t.slots[i]| == Max(1, Min(config.maxValuesPerSlot, 256))
  {
    var tally := SlotTally(Group(readings, key), i);
    SlotTallyCounts(Group(readings, key), i, v);
    var x := ValueOf(v, tally[v], true, config.temporal);
    assert x in LocalValues(tally, config.temporal);
    InSlotOrFull(SlotKinds(t.parts)[i], tally, VocabularyOf(readings), config, t.slots[i], x);
  }

  /** Where a service, environment, region or cloud stands, so may every other one that any reading mentions. */
  lemma MentionedIsOffered(readings: seq<Reading>, key: string, t: Template, config: Config, i: nat, v: string)
    requires Induced(t, Group(readings, key), VocabularyOf(readings), config)
    requires i < |SlotKinds(t.parts)| && i in t.slots
    requires SlotKinds(t.parts)[i] in {Service, Environment, Region, Cloud} && MentionsIn(readings, SlotKinds(t.parts)[i], v) > 0
    ensures HasText(t.slots[i], v) || |t.slots[i]| == Max(1, Min(config.maxValuesPerSlot, 256))
  {
    var g, kind, global := Group(readings, key), SlotKinds(t.parts)[i], VocabularyOf(readings);
    var tally := SlotTally(g, i);
    VocabularyCounts(readings, kind, v);
    if v in tally {
      SlotTallyCounts(g, i, v);
      ChosenIsOffered(readings, key, t, config, i, v);
    } else {
      var x := ValueOf(v, global[(kind, v)], false, config.temporal);
      assert (kind, v) in global && x in TransferredValues(kind, tally, global, config.temporal);
      InSlotOrFull(kind, tally, global, config, t.slots[i], x);
    }
  }

  lemma InSlotOrFull(kind: TokenKind, tally: map<string, Stats>, global: Vocabulary, config: Config, values: seq<GrammarValue>, x: GrammarValue)
    requires OffersBest(kind, tally, global, config, values)
    requires x in LocalValues(tally, config.temporal)
             || (kind in {Service, Environment, Region, Cloud} && x in TransferredValues(kind, tally, global, config.temporal))
    ensures HasText(values, x.value) || |values| == SlotLimit(config)
  {
    var offered :| Offer(kind, tally, global, config, offered) && values == Take(Sort(ValueBefore, offered), SlotLimit(config));
    assert x in Elements(offered);
    KeptUnlessFull(offered, SlotLimit(config), x);
  }

  lemma KeptUnlessFull(offered: seq<GrammarValue>, k: nat, x: GrammarValue)
    requires DistinctValues(offered) && x in offered
    ensures HasText(Take(Sort(ValueBefore, offered), k), x.value) || |Take(Sort(ValueBefore, offered), k)| == k
  {
    var s := Sort(ValueBefore, offered);
    KeptFromOffer(offered, k);
    assert x in Elements(s);
    var j :| 0 <= j < |s| && s[j] == x;
    if |s| <= k { assert Take(s, k)[j].value == x.value; }
  }

  // ----- numbers -----

  /** At least two numbers were seen, all of one width and within the greatest span of each other. */
  ghost predicate Series(tally: map<string, Stats>, maxSpan: nat) {
    && (exists u, v :: u in tally && v in tally && u != v && ParsesU32(u) && ParsesU32(v))
    && (forall u, v :: u in tally && v in tally && ParsesU32(u) && ParsesU32(v) ==> |u| == |v| && Value(u) <= Value(v) + maxSpan)
  }

  /** n lies between two numbers seen, or at most the radius beside one of them. */
  ghost predicate Around(tally: map<string, Stats>, radius: nat, n: nat) {
    && n < U32_LIMIT
    && (exists u :: u in tally && ParsesU32(u) && Value(u) <= n + radius)
    && (exists u :: u in tally && ParsesU32(u) && n <= Value(u) + radius)
  }

  /** The text of n at the width of the numbers seen. */
  ghost predicate SpelledLike(tally: map<string, Stats>, n: nat, text: string) {
    exists u :: u in tally && ParsesU32(u) && text == Padded(n, |u|)
  }

  lemma {:induction false} ParsedMeans(values: seq<GrammarValue>, i: nat)
    requires i < |values| && ParsesU32(values[i].value)
    ensures (Value(values[i].value), |values[i].value|) in Parsed(values)
  {
    if i < |values| - 1 {
      ParsedMeans(values[..|values| - 1], i);
    }
  }

  lemma {:induction false} ParsedComes(values: seq<GrammarValue>, p: (nat, nat)) returns (i: nat)
    requires p in Parsed(values)
    ensures i < |values| && ParsesU32(values[i].value) && p == (Value(values[i].value), |values[i].value|)
  {
    var n := |values| - 1;
    if ParsesU32(values[n].value) && p == (Value(values[n].value), |values[n].value|) {
      i := n;
    } else {
      i := ParsedComes(values[..n], p);
    }
  }

  lemma {:induction false} TwoParsed(values: seq<GrammarValue>, i: nat, j: nat)
    requires i < j < |values| && ParsesU32(values[i].value) && ParsesU32(values[j].value)
    ensures |Parsed(values)| >= 2
  {
    var front := values[..|values| - 1];
    if j < |values| - 1 {
      TwoParsed(front, i, j);
    } else {
      ParsedMeans(front, i);
      assert |Parsed(front)| >= 1;
    }
  }

  lemma {:induction false} TwoComeFrom(values: seq<GrammarValue>) returns (i: nat, j: nat)
    requires |Parsed(values)| >= 2
    ensures i < j < |values| && ParsesU32(values[i].value) && ParsesU32(values[j].value)
  {
    var front := values[..|values| - 1];
    if ParsesU32(values[|values| - 1].value) {
      j := |values| - 1;
      i := ParsedComes(front, Parsed(front)[0]);
    } else {
      i, j := TwoComeFrom(front);
    }
  }

  lemma {:induction false} BoundsAreReached(parsed: seq<(nat, nat)>)
    requires parsed != []
    ensures exists p :: p in parsed && p.0 == Least(parsed)
    ensures exists p :: p in parsed && p.0 == Greatest(parsed)
  {
    var last := parsed[|parsed| - 1];
    if |parsed| > 1 {
      var front := parsed[..|parsed| - 1];
      BoundsAreReached(front);
      var a :| a in front && a.0 == Least(front);
      var b :| b in front && b.0 == Greatest(front);
      assert a in parsed && b in parsed && last in parsed;
    } else {
      assert last in parsed;
    }
  }

  /** These are the values seen. */
  ghost predicate Shows(local: seq<GrammarValue>, tally: map<string, Stats>) {
    && DistinctValues(local)
    && (forall j :: 0 <= j < |local| ==> local[j].value in tally)
    && (forall v :: v in tally ==> HasText(local, v))
  }

  lemma LocalLists(local: seq<GrammarValue>, tally: map<string, Stats>, temporal: Option<int> -> nat)
    requires DistinctValues(local) && Elements(local) == LocalValues(tally, temporal)
    ensures Shows(local, tally)
  {
    forall j | 0 <= j < |local| ensures local[j].value in tally { assert local[j] in Elements(local); }
    LocalTexts(local, tally, temporal);
  }

  lemma SeriesIff(local: seq<GrammarValue>, tally: map<string, Stats>, maxSpan: nat)
    requires Shows(local, tally)
    ensures Extensible(Parsed(local), maxSpan) <==> Series(tally, maxSpan)
  {
    if Series(tally, maxSpan) { SeriesExtends(local, tally, maxSpan); }
    if Extensible(Parsed(local), maxSpan) { ExtensibleIsSeries(local, tally, maxSpan); }
  }

  lemma SeriesIsParsed(local: seq<GrammarValue>, tally: map<string, Stats>, maxSpan: nat)
    requires Shows(local, tally) && Series(tally, maxSpan)
    ensures |Parsed(local)| >= 2
  {
    var u, v :| u in tally && v in tally && u != v && ParsesU32(u) && ParsesU32(v);
    var i :| 0 <= i < |local| && local[i].value == u;
    var j :| 0 <= j < |local| && local[j].value == v;
    if i < j { TwoParsed(local, i, j); } else { TwoParsed(local, j, i); }
  }

  lemma SeriesExtends(local: seq<GrammarValue>, tally: map<string, Stats>, maxSpan: nat)
    requires Shows(local, tally) && Series(tally, maxSpan)
    ensures Extensible(Parsed(local), maxSpan)
  {
    var parsed := Parsed(local);
    SeriesIsParsed(local, tally, maxSpan);
    BoundsAreReached(parsed);
    var least :| least in parsed && least.0 == Least(parsed);
    var greatest :| greatest in parsed && greatest.0 == Greatest(parsed);
    InSeries(local, tally, maxSpan, greatest, least);
    forall p | p in parsed ensures p.1 == parsed[0].1 { InSeries(local, tally, maxSpan, p, parsed[0]); }
  }

  lemma InSeries(local: seq<GrammarValue>, tally: map<string, Stats>, maxSpan: nat, p: (nat, nat), q: (nat, nat))
    requires Shows(local, tally) && Series(tally, maxSpan) && p in Parsed(local) && q in Parsed(local)
    ensures p.1 == q.1 && p.0 <= q.0 + maxSpan
  {
    var i := ParsedComes(local, p);
    var j := ParsedComes(local, q);
    var u, v := local[i].value, local[j].value;
    assert u in tally && v in tally && ParsesU32(u) && ParsesU32(v);
  }

  lemma ExtensibleIsSeries(local: seq<GrammarValue>, tally: map<string, Stats>, maxSpan: nat)
    requires Shows(local, tally) && Extensible(Parsed(local), maxSpan)
    ensures Series(tally, maxSpan)
  {
    var i, j := TwoComeFrom(local);
    assert local[i].value != local[j].value;
    LeastAndGreatest(Parsed(local));
    forall u, v | u in tally && v in tally && ParsesU32(u) && ParsesU32(v) ensures |u| == |v| && Value(u) <= Value(v) + maxSpan {
      IsParsed(local, tally, u);
      IsParsed(local, tally, v);
    }
  }

  lemma IsParsed(local: seq<GrammarValue>, tally: map<string, Stats>, u: string)
    requires Shows(local, tally) && u in tally && ParsesU32(u)
    ensures (Value(u), |u|) in Parsed(local)
  {
    var a :| 0 <= a < |local| && local[a].value == u;
    ParsedMeans(local, a);
  }

  lemma AroundIsInSpan(local: seq<GrammarValue>, tally: map<string, Stats>, radius: nat, n: nat)
    requires Shows(local, tally) && Parsed(local) != [] && Around(tally, radius, n)
    ensures var span := SpanOf(Parsed(local), radius); span.lo <= n <= span.hi
  {
    LeastAndGreatest(Parsed(local));
    var u :| u in tally && ParsesU32(u) && Value(u) <= n + radius;
    var v :| v in tally && ParsesU32(v) && n <= Value(v) + radius;
    IsParsed(local, tally, u);
    IsParsed(local, tally, v);
  }

  lemma InSpanIsAround(local: seq<GrammarValue>, tally: map<string, Stats>, radius: nat, n: nat)
    requires Shows(local, tally) && Parsed(local) != []
    requires var span := SpanOf(Parsed(local), radius); span.lo <= n <= span.hi
    ensures Around(tally, radius, n)
  {
    var parsed := Parsed(local);
    BoundsAreReached(parsed);
    var least :| least in parsed && least.0 == Least(parsed);
    var greatest :| greatest in parsed && greatest.0 == Greatest(parsed);
    var a := ParsedComes(local, least);
    var b := ParsedComes(local, greatest);
    assert local[a].value in tally && local[b].value in tally;
  }

  lemma AroundIff(local: seq<GrammarValue>, tally: map<string, Stats>, radius: nat, n: nat)
    requires Shows(local, tally) && Parsed(local) != []
    ensures var span := SpanOf(Parsed(local), radius); Around(tally, radius, n) <==> span.lo <= n <= span.hi
  {
    var span := SpanOf(Parsed(local), radius);
    if Around(tally, radius, n) { AroundIsInSpan(local, tally, radius, n); }
    if span.lo <= n <= span.hi { InSpanIsAround(local, tally, radius, n); }
  }

  lemma WidthIsCommon(local: seq<GrammarValue>, tally: map<string, Stats>, maxSpan: nat, n: nat, text: string)
    requires Shows(local, tally) && Extensible(Parsed(local), maxSpan)
    ensures SpelledLike(tally, n, text) <==> text == Padded(n, Parsed(local)[0].1)
  {
    var k := ParsedComes(local, Parsed(local)[0]);
    forall u | u in tally && ParsesU32(u) ensures |u| == Parsed(local)[0].1 {
      IsParsed(local, tally, u);
    }
    assert local[k].value in tally;
  }

  /**
   A slot of numbers also offers, with a length of at least theirs and never as seen, every number around a series of
   numbers seen, unless it is full; and nothing else.
   */
  lemma NumbersAround(tally: map<string, Stats>, global: Vocabulary, config: Config, values: seq<GrammarValue>)
    requires OffersBest(Number, tally, global, config, values)
    ensures Series(tally, config.maxNumericSpan) && |values| < SlotLimit(config) ==>
              forall n, text :: Around(tally, config.numericRadius, n) && SpelledLike(tally, n, text) ==> HasText(values, text)
    ensures forall x :: x in values && x.value !in tally ==>
              && x == GrammarValue(x.value, 0, false, 0) && Series(tally, config.maxNumericSpan)
              && exists n :: Around(tally, config.numericRadius, n) && SpelledLike(tally, n, x.value)
  {
    var offered :| Offer(Number, tally, global, config, offered) && values == Take(Sort(ValueBefore, offered), SlotLimit(config));
    var limit := Min(config.maxValuesPerSlot, MAX_VALUES_PER_SLOT);
    var local :|
      && DistinctValues(local) && Elements(local) == LocalValues(tally, config.temporal)
      && Extrapolated(local, offered, limit, config.numericRadius, config.maxNumericSpan);
    LocalLists(local, tally, config.temporal);
    SeriesIff(local, tally, config.maxNumericSpan);
    ExtrapolationKeeps(local, offered, limit, config.numericRadius, config.maxNumericSpan);
    KeptFromOffer(offered, SlotLimit(config));
    forall x | x in values && x.value !in tally
      ensures x == GrammarValue(x.value, 0, false, 0) && Series(tally, config.maxNumericSpan)
      ensures exists n :: Around(tally, config.numericRadius, n) && SpelledLike(tally, n, x.value)
    {
      assert x in Elements(values);
      AddedIsAround(local, offered, tally, config, x);
    }
    if Series(tally, config.maxNumericSpan) && |values| < SlotLimit(config) {
      forall n, text | Around(tally, config.numericRadius, n) && SpelledLike(tally, n, text) ensures HasText(values, text) {
        AroundIsAdded(local, offered, tally, config, values, n, text);
      }
    }
  }

  lemma AddedIsAround(local: seq<GrammarValue>, offered: seq<GrammarValue>, tally: map<string, Stats>, config: Config, x: GrammarValue)
    requires Shows(local, tally) && local <= offered
    requires Extrapolated(local, offered, Min(config.maxValuesPerSlot, MAX_VALUES_PER_SLOT), config.numericRadius, config.maxNumericSpan)
    requires x in offered && x.value !in tally
    ensures x == GrammarValue(x.value, 0, false, 0) && Series(tally, config.maxNumericSpan)
    ensures exists n :: Around(tally, config.numericRadius, n) && SpelledLike(tally, n, x.value)
  {
    var i :| 0 <= i < |offered| && offered[i] == x;
    BehindLocal(local, offered, tally, i);
    SeriesIff(local, tally, config.maxNumericSpan);
    var span := SpanOf(Parsed(local), config.numericRadius);
    var below: nat :| ExtendedBy(local, offered, span, below);
    assert AddedFrom(offered[i], span, below);
    var n :| span.lo <= n < below && n <= span.hi && x.value == Padded(n, span.width);
    AroundIff(local, tally, config.numericRadius, n);
    WidthIsCommon(local, tally, config.maxNumericSpan, n, x.value);
  }

  lemma BehindLocal(local: seq<GrammarValue>, offered: seq<GrammarValue>, tally: map<string, Stats>, i: nat)
    requires Shows(local, tally) && local <= offered && i < |offered| && offered[i].value !in tally
    ensures i >= |local|
  {
  }

  lemma AroundIsAdded(
      local: seq<GrammarValue>, offered: seq<GrammarValue>, tally: map<string, Stats>, config: Config, values: seq<GrammarValue>, n: nat,
      text: string)
    requires Shows(local, tally) && local <= offered && DistinctValues(offered)
    requires Extrapolated(local, offered, Min(config.maxValuesPerSlot, MAX_VALUES_PER_SLOT), config.numericRadius, config.maxNumericSpan)
    requires values == Take(Sort(ValueBefore, offered), SlotLimit(config)) && |values| < SlotLimit(config)
    requires Series(tally, config.maxNumericSpan) && Around(tally, config.numericRadius, n) && SpelledLike(tally, n, text)
    ensures HasText(values, text)
  {
    SeriesIff(local, tally, config.maxNumericSpan);
    AroundIff(local, tally, config.numericRadius, n);
    WidthIsCommon(local, tally, config.maxNumericSpan, n, text);
    AllAreKept(offered, SlotLimit(config));
    var i, j := TwoComeFrom(local);
    SpanIsComplete(local, offered, config, n);
    var k :| 0 <= k < |offered| && offered[k].value == text;
    KeptUnlessFull(offered, SlotLimit(config), offered[k]);
  }

  lemma AllAreKept(offered: seq<GrammarValue>, k: nat)
    requires DistinctValues(offered) && |Take(Sort(ValueBefore, offered), k)| < k
    ensures |offered| < k
  {
    ValueOrderIsStrict();
    Distinct(offered);
    SortAscends(ValueBefore, offered);
    AscendingIsDistinct(ValueBefore, Sort(ValueBefore, offered));
    DistinctCardinality(offered);
    DistinctCardinality(Sort(ValueBefore, offered));
  }

  lemma {:induction false} SpanIsComplete(local: seq<GrammarValue>, offered: seq<GrammarValue>, config: Config, n: nat)
    requires Extrapolated(local, offered, Min(config.maxValuesPerSlot, MAX_VALUES_PER_SLOT), config.numericRadius, config.maxNumericSpan)
    requires |offered| < SlotLimit(config) && Extensible(Parsed(local), config.maxNumericSpan) && |local| >= 2 && |local| <= |offered|
    requires var span := SpanOf(Parsed(local), config.numericRadius); span.lo <= n <= span.hi
    ensures HasText(offered, Padded(n, Parsed(local)[0].1))
  {
    var span := SpanOf(Parsed(local), config.numericRadius);
    var below: nat :| ExtendedBy(local, offered, span, below) && (below > span.hi || |offered| == Min(config.maxValuesPerSlot, MAX_VALUES_PER_SLOT));
    assert n < below;
  }
}
