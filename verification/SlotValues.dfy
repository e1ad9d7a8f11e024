/** The values that an induced template offers at a slot (src/intelligence.rs). */
module SlotValues {
  import opened Basics
  import opened Orders
  import opened Ranking
  import opened TokenKinds
  import opened Tallies
  import opened BeamSearch
  import opened GrammarTemplates

  type Vocabulary = map<(TokenKind, string), Stats>

  datatype VocabularyEntry = VocabularyEntry(kind: TokenKind, value: string, stats: Stats)

  /** The limits of the configuration, and how a last sighting is scored. */
  datatype Config = Config(
    minTemplateSupport: nat, maxValuesPerSlot: nat, numericRadius: nat, maxNumericSpan: nat, temporal: Option<int> -> nat)

  function ValueOf(value: string, stats: Stats, local: bool, temporal: Option<int> -> nat): GrammarValue {
    GrammarValue(value, stats.observations, local, temporal(stats.latest))
  }

  // ----- order -----

  /** Observed values first, then by sightings, recency and text. */
  predicate ValueBefore(l: GrammarValue, r: GrammarValue) {
    if l.observedInTemplate != r.observedInTemplate then l.observedInTemplate
    else if l.observations != r.observations then l.observations > r.observations
    else if l.temporalScoreMilli != r.temporalScoreMilli then l.temporalScoreMilli > r.temporalScoreMilli
    else CompareStrings(l.value, r.value) == Less
  }

  lemma ValueOrderIsStrict()
    ensures StrictOrder(ValueBefore)
  {
    StringsTotal();
    forall x, y, z | ValueBefore(x, y) && ValueBefore(y, z) ensures ValueBefore(x, z) {
      assert CompareStrings(x.value, y.value) == Less && CompareStrings(y.value, z.value) == Less ==>
          CompareStrings(x.value, z.value) == Less;
    }
    forall x, y ensures ValueBefore(x, y) || ValueBefore(y, x) || x == y {
      assert CompareStrings(x.value, y.value) == CompareStrings(y.value, x.value).Reverse();
    }
    forall x, y | ValueBefore(x, y) ensures !ValueBefore(y, x) {
      assert CompareStrings(x.value, y.value) == CompareStrings(y.value, x.value).Reverse();
    }
  }

  predicate StringBefore(a: string, b: string) { CompareStrings(a, b) == Less }

  function Rank(kind: TokenKind): nat {
    match kind
    case Service => 0
    case Environment => 1
    case Region => 2
    case Cloud => 3
    case Number => 4
    case Word => 5
  }

  predicate EntryBefore(a: (TokenKind, string), b: (TokenKind, string)) {
    Rank(a.0) < Rank(b.0) || (a.0 == b.0 && StringBefore(a.1, b.1))
  }

  lemma StringOrderIsStrict()
    ensures StrictOrder(StringBefore)
  {
    StringsTotal();
    forall a, b ensures CompareStrings(a, b) == CompareStrings(b, a).Reverse() { }
  }

  lemma EntryOrderIsStrict()
    ensures StrictOrder(EntryBefore)
  {
    StringOrderIsStrict();
    forall k: TokenKind, l: TokenKind ensures Rank(k) == Rank(l) <==> k == l { }
  }

  // ----- offers -----

  function LocalValues(tally: map<string, Stats>, temporal: Option<int> -> nat): set<GrammarValue> {
    set v | v in tally :: ValueOf(v, tally[v], true, temporal)
  }

  /** What the other templates know of this kind and this slot did not see. */
  function TransferredValues(kind: TokenKind, tally: map<string, Stats>, global: Vocabulary, temporal: Option<int> -> nat): set<GrammarValue> {
    set p | p in global && p.0 == kind && p.1 !in tally :: ValueOf(p.1, global[p], false, temporal)
  }

  function SlotLimit(config: Config): nat { Max(1, Min(config.maxValuesPerSlot, MAX_VALUES_PER_SLOT)) }

  /** offered is what a slot of this kind can choose from before it is cut to the limit. */
  ghost predicate Offer(kind: TokenKind, tally: map<string, Stats>, global: Vocabulary, config: Config, offered: seq<GrammarValue>) {
    && DistinctValues(offered)
    && LocalValues(tally, config.temporal) <= Elements(offered)
    && (kind != Number ==>
          Elements(offered) == LocalValues(tally, config.temporal)
                               + if kind.IsSemantic() then TransferredValues(kind, tally, global, config.temporal) else {})
    && (kind == Number ==>
          exists local ::
            && DistinctValues(local) && Elements(local) == LocalValues(tally, config.temporal)
            && Extrapolated(local, offered, Min(config.maxValuesPerSlot, MAX_VALUES_PER_SLOT), config.numericRadius,
                            config.maxNumericSpan))
  }

  /** values are the best of an offer, best first. */
  ghost predicate OffersBest(kind: TokenKind, tally: map<string, Stats>, global: Vocabulary, config: Config, values: seq<GrammarValue>) {
    exists offered :: Offer(kind, tally, global, config, offered) && values == Take(Sort(ValueBefore, offered), SlotLimit(config))
  }

  lemma Distinct(values: seq<GrammarValue>)
    requires DistinctValues(values)
    ensures forall i, j :: 0 <= i < j < |values| ==> values[i] != values[j]
  {
  }

  method LocalListing(tally: map<string, Stats>, temporal: Option<int> -> nat) returns (values: seq<GrammarValue>)
    ensures DistinctValues(values) && Elements(values) == LocalValues(tally, temporal)
    ensures forall i :: 0 <= i < |values| ==> values[i].value in tally
    ensures forall v :: v in tally ==> HasText(values, v)
  {
    StringOrderIsStrict();
    var keys := Listing(StringBefore, tally.Keys);
    AscendingIsDistinct(StringBefore, keys);
    values := [];
    for n := 0 to |keys|
      invariant |values| == n
      invariant forall i :: 0 <= i < n ==> keys[i] in tally && values[i] == ValueOf(keys[i], tally[keys[i]], true, temporal)
    {
      assert keys[n] in Elements(keys);
      values := values + [ValueOf(keys[n], tally[keys[n]], true, temporal)];
    }
    forall v | v in tally ensures HasText(values, v) && ValueOf(v, tally[v], true, temporal) in values {
      assert v in Elements(keys);
      var i :| 0 <= i < |keys| && keys[i] == v;
      assert values[i].value == v;
    }
  }

  // ----- vocabulary -----

  ghost predicate Lists(vocabulary: seq<VocabularyEntry>, global: Vocabulary) {
    && (forall i :: 0 <= i < |vocabulary| ==>
          (vocabulary[i].kind, vocabulary[i].value) in global && vocabulary[i].stats == global[(vocabulary[i].kind, vocabulary[i].value)])
    && (forall p :: p in global ==> VocabularyEntry(p.0, p.1, global[p]) in vocabulary)
  }

  method ListVocabulary(global: Vocabulary) returns (vocabulary: seq<VocabularyEntry>)
    ensures Lists(vocabulary, global)
  {
    EntryOrderIsStrict();
    var keys := Listing(EntryBefore, global.Keys);
    vocabulary := [];
    for n := 0 to |keys|
      invariant |vocabulary| == n
      invariant forall i :: 0 <= i < n ==>
                  keys[i] in global && vocabulary[i] == VocabularyEntry(keys[i].0, keys[i].1, global[keys[i]])
    {
      assert keys[n] in Elements(keys);
      vocabulary := vocabulary + [VocabularyEntry(keys[n].0, keys[n].1, global[keys[n]])];
    }
    forall p | p in global ensures VocabularyEntry(p.0, p.1, global[p]) in vocabulary {
      assert p in Elements(keys);
      var i :| 0 <= i < |keys| && keys[i] == p;
      assert vocabulary[i] == VocabularyEntry(p.0, p.1, global[p]);
    }
  }

  /** A transferred value is determined by its text. */
  lemma TransferredByText(kind: TokenKind, tally: map<string, Stats>, global: Vocabulary, temporal: Option<int> -> nat, x: GrammarValue)
    requires x in LocalValues(tally, temporal) + TransferredValues(kind, tally, global, temporal) && x.value !in tally
    ensures (kind, x.value) in global && x == ValueOf(x.value, global[(kind, x.value)], false, temporal)
  {
  }

  lemma AllTransferred(kind: TokenKind, tally: map<string, Stats>, global: Vocabulary, temporal: Option<int> -> nat, values: seq<GrammarValue>)
    requires LocalValues(tally, temporal) <= Elements(values) <= LocalValues(tally, temporal) + TransferredValues(kind, tally, global, temporal)
    requires forall p :: p in global && p.0 == kind ==> HasText(values, p.1)
    ensures Elements(values) == LocalValues(tally, temporal) + TransferredValues(kind, tally, global, temporal)
  {
    forall x | x in TransferredValues(kind, tally, global, temporal) ensures x in values {
      var p :| p in global && p.0 == kind && p.1 !in tally && x == ValueOf(p.1, global[p], false, temporal);
      var i :| 0 <= i < |values| && values[i].value == p.1;
      assert values[i] in Elements(values);
      TransferredByText(kind, tally, global, temporal, values[i]);
      assert p == (kind, p.1);
    }
  }

  lemma OneMoreValue(values: seq<GrammarValue>, v: GrammarValue)
    requires DistinctValues(values) && !HasText(values, v.value)
    ensures DistinctValues(values + [v]) && Elements(values + [v]) == Elements(values) + {v}
  {
    assert forall x :: x in values + [v] <==> x in values || x == v;
  }

  lemma LocalTexts(values: seq<GrammarValue>, tally: map<string, Stats>, temporal: Option<int> -> nat)
    requires LocalValues(tally, temporal) <= Elements(values)
    ensures forall v :: v in tally ==> HasText(values, v)
  {
    forall v | v in tally ensures HasText(values, v) {
      var x := ValueOf(v, tally[v], true, temporal);
      assert x in LocalValues(tally, temporal) && x in values;
      var i :| 0 <= i < |values| && values[i] == x;
    }
  }

  lemma EntryIsTransferred(
      entry: VocabularyEntry, values: seq<GrammarValue>, kind: TokenKind, tally: map<string, Stats>, global: Vocabulary,
      temporal: Option<int> -> nat)
    requires entry.kind == kind && (kind, entry.value) in global && entry.stats == global[(kind, entry.value)]
    requires LocalValues(tally, temporal) <= Elements(values) && !HasText(values, entry.value)
    ensures ValueOf(entry.value, entry.stats, false, temporal) in TransferredValues(kind, tally, global, temporal)
  {
    LocalTexts(values, tally, temporal);
    assert (kind, entry.value) in global;
  }

  /** Adds what the vocabulary knows of this kind, unless the text is there already. */
  method Transfer(
      local: seq<GrammarValue>, kind: TokenKind, ghost tally: map<string, Stats>, vocabulary: seq<VocabularyEntry>,
      ghost global: Vocabulary, temporal: Option<int> -> nat)
    returns (values: seq<GrammarValue>)
    requires Lists(vocabulary, global) && DistinctValues(local) && Elements(local) == LocalValues(tally, temporal)
    ensures DistinctValues(values)
    ensures Elements(values) == LocalValues(tally, temporal) + TransferredValues(kind, tally, global, temporal)
  {
    values := local;
    for n := 0 to |vocabulary|
      invariant DistinctValues(values)
      invariant LocalValues(tally, temporal) <= Elements(values) <= LocalValues(tally, temporal) + TransferredValues(kind, tally, global, temporal)
      invariant forall m :: 0 <= m < n && vocabulary[m].kind == kind ==> HasText(values, vocabulary[m].value)
    {
      var entry := vocabulary[n];
      if entry.kind == kind && !HasText(values, entry.value) {
        var v := ValueOf(entry.value, entry.stats, false, temporal);
        EntryIsTransferred(entry, values, kind, tally, global, temporal);
        OneMoreValue(values, v);
        HasTextMore(values, v);
        values := values + [v];
      }
    }
    forall p | p in global && p.0 == kind ensures HasText(values, p.1) {
      assert VocabularyEntry(p.0, p.1, global[p]) in vocabulary;
    }
    AllTransferred(kind, tally, global, temporal, values);
  }

  // ----- the slot -----

  method Offered(
      kind: TokenKind, tally: map<string, Stats>, vocabulary: seq<VocabularyEntry>, ghost global: Vocabulary, config: Config)
    returns (offered: seq<GrammarValue>)
    requires Lists(vocabulary, global) && forall v :: v in tally ==> Fills(v, kind)
    ensures Offer(kind, tally, global, config, offered)
  {
    var local := LocalListing(tally, config.temporal);
    if kind.IsSemantic() {
      offered := Transfer(local, kind, tally, vocabulary, global, config.temporal);
    } else if kind == Number {
      offered := ExtendNumericValues(local, config.maxValuesPerSlot, config.numericRadius, config.maxNumericSpan);
      ExtrapolationKeeps(local, offered, Min(config.maxValuesPerSlot, MAX_VALUES_PER_SLOT), config.numericRadius, config.maxNumericSpan);
    } else {
      offered := local;
    }
  }

  lemma ExtrapolationKeeps(values: seq<GrammarValue>, out: seq<GrammarValue>, limit: nat, radius: nat, maxSpan: nat)
    requires Extrapolated(values, out, limit, radius, maxSpan)
    ensures values <= out && Elements(values) <= Elements(out)
  {
    assert values <= out;
    forall x | x in values ensures x in out {
      var i :| 0 <= i < |values| && values[i] == x;
      assert out[i] == x;
    }
  }

  method SlotValues(
      kind: TokenKind, tally: map<string, Stats>, vocabulary: seq<VocabularyEntry>, ghost global: Vocabulary, config: Config)
    returns (values: seq<GrammarValue>)
    requires Lists(vocabulary, global) && forall v :: v in tally ==> Fills(v, kind)
    ensures OffersBest(kind, tally, global, config, values)
  {
    var offered := Offered(kind, tally, vocabulary, global, config);
    values := Take(Sort(ValueBefore, offered), SlotLimit(config));
  }

  // ----- what a slot holds -----

  /** What is kept comes from the offer, best first, and texts do not repeat. */
  lemma KeptFromOffer(offered: seq<GrammarValue>, k: nat)
    requires DistinctValues(offered)
    ensures Ascending(ValueBefore, Sort(ValueBefore, offered)) && Elements(Sort(ValueBefore, offered)) == Elements(offered)
    ensures DistinctValues(Take(Sort(ValueBefore, offered), k))
    ensures Elements(Take(Sort(ValueBefore, offered), k)) <= Elements(offered)
  {
    ValueOrderIsStrict();
    Distinct(offered);
    SortAscends(ValueBefore, offered);
    var s := Sort(ValueBefore, offered);
    forall i | 0 <= i < |s| ensures s[i] in offered { assert s[i] in Elements(s); }
    forall i, j | 0 <= i < j < |s| ensures s[i].value != s[j].value {
      assert ValueBefore(s[i], s[j]);
      DifferentTexts(offered, s[i], s[j]);
    }
  }

  lemma DifferentTexts(offered: seq<GrammarValue>, x: GrammarValue, y: GrammarValue)
    requires DistinctValues(offered) && x in offered && y in offered && x != y
    ensures x.value != y.value
  {
    var i :| 0 <= i < |offered| && offered[i] == x;
    var j :| 0 <= j < |offered| && offered[j] == y;
  }

  ghost predicate AllOfKind(values: seq<GrammarValue>, kind: TokenKind) {
    forall i :: 0 <= i < |values| ==> Fills(values[i].value, kind)
  }

  lemma OfferFills(kind: TokenKind, tally: map<string, Stats>, global: Vocabulary, config: Config, offered: seq<GrammarValue>)
    requires Offer(kind, tally, global, config, offered)
    requires forall v :: v in tally ==> Fills(v, kind)
    requires forall p :: p in global ==> Fills(p.1, p.0)
    ensures AllOfKind(offered, kind)
  {
    if kind != Number {
      forall i | 0 <= i < |offered| ensures Fills(offered[i].value, kind) {
        assert offered[i] in Elements(offered);
      }
    }
  }

  /** Whatever a slot holds is of its kind, once. */
  lemma SlotFits(kind: TokenKind, tally: map<string, Stats>, global: Vocabulary, config: Config, values: seq<GrammarValue>)
    requires OffersBest(kind, tally, global, config, values)
    requires forall v :: v in tally ==> Fills(v, kind)
    requires forall p :: p in global ==> Fills(p.1, p.0)
    ensures DistinctValues(values) && AllOfKind(values, kind)
  {
    var offered :| Offer(kind, tally, global, config, offered) && values == Take(Sort(ValueBefore, offered), SlotLimit(config));
    KeptFromOffer(offered, SlotLimit(config));
    OfferFills(kind, tally, global, config, offered);
    forall i | 0 <= i < |values| ensures Fills(values[i].value, kind) {
      assert values[i] in Elements(values);
    }
  }

  // ----- the order of what a slot holds -----

  /** l is seen here when r is; if both are or neither is, it has more sightings, or as many and it is as recent; ties go by text. */
  predicate Outranks(l: GrammarValue, r: GrammarValue) {
    && (r.observedInTemplate ==> l.observedInTemplate)
    && (l.observedInTemplate == r.observedInTemplate ==>
          && l.observations >= r.observations
          && (l.observations == r.observations ==>
                && l.temporalScoreMilli >= r.temporalScoreMilli
                && (l.temporalScoreMilli == r.temporalScoreMilli ==> CompareStrings(l.value, r.value) == Less)))
  }

  lemma EarlierIsBetter(s: seq<GrammarValue>, k: nat, x: GrammarValue, y: GrammarValue)
    requires Ascending(ValueBefore, s) && y in Take(s, k) && x in s && x !in Take(s, k)
    ensures ValueBefore(y, x) && |Take(s, k)| == k
  {
    var i :| 0 <= i < |Take(s, k)| && Take(s, k)[i] == y;
    var j :| 0 <= j < |s| && s[j] == x;
    assert forall n :: 0 <= n < |Take(s, k)| ==> Take(s, k)[n] == s[n] && Take(s, k)[n] in Take(s, k);
  }

  /** A slot lists the better values first, and every value that was left out is worse than all it holds. */
  lemma SlotHoldsTheBest(
      kind: TokenKind, tally: map<string, Stats>, global: Vocabulary, config: Config, values: seq<GrammarValue>)
    requires OffersBest(kind, tally, global, config, values)
    ensures forall i, j :: 0 <= i < j < |values| ==> Outranks(values[i], values[j])
    ensures forall x, y :: x in LocalValues(tally, config.temporal) && y in values && x !in values ==> Outranks(y, x) && |values| == SlotLimit(config)
    ensures forall x, y :: kind.IsSemantic() && x in TransferredValues(kind, tally, global, config.temporal) && y in values && x !in values ==>
              Outranks(y, x) && |values| == SlotLimit(config)
  {
    var offered :| Offer(kind, tally, global, config, offered) && values == Take(Sort(ValueBefore, offered), SlotLimit(config));
    KeptFromOffer(offered, SlotLimit(config));
    var s := Sort(ValueBefore, offered);
    forall i, j | 0 <= i < j < |values| ensures Outranks(values[i], values[j]) { assert ValueBefore(s[i], s[j]); }
    forall x, y | x in Elements(offered) && y in values && x !in values ensures Outranks(y, x) && |values| == SlotLimit(config) {
      assert x in Elements(s);
      EarlierIsBetter(s, SlotLimit(config), x, y);
    }
  }

  /** The observed values of a slot that rank before v. */
  function RankedBefore(tally: map<string, Stats>, temporal: Option<int> -> nat, v: string): set<string>
    requires v in tally
  {
    set u | u in tally && ValueBefore(ValueOf(u, tally[u], true, temporal), ValueOf(v, tally[v], true, temporal))
  }

  /** Only observed values come before an observed value. */
  lemma OnlyLocalBefore(
      kind: TokenKind, tally: map<string, Stats>, global: Vocabulary, config: Config, offered: seq<GrammarValue>, v: string, y: GrammarValue)
    requires Offer(kind, tally, global, config, offered) && v in tally && y in offered
    requires ValueBefore(y, ValueOf(v, tally[v], true, config.temporal))
    ensures y in LocalValues(tally, config.temporal)
  {
    if kind == Number {
      var local :|
        && DistinctValues(local) && Elements(local) == LocalValues(tally, config.temporal)
        && Extrapolated(local, offered, Min(config.maxValuesPerSlot, MAX_VALUES_PER_SLOT), config.numericRadius, config.maxNumericSpan);
      var i :| 0 <= i < |offered| && offered[i] == y;
      ExtrapolationKeeps(local, offered, Min(config.maxValuesPerSlot, MAX_VALUES_PER_SLOT), config.numericRadius, config.maxNumericSpan);
      if i < |local| {
        assert y == local[i] && y in Elements(local);
      }
    } else {
      assert y in Elements(offered);
    }
  }

  lemma SizesAgree(tally: map<string, Stats>, temporal: Option<int> -> nat, us: set<string>, ys: set<GrammarValue>)
    requires us <= tally.Keys && ys == set u | u in us :: ValueOf(u, tally[u], true, temporal)
    ensures |us| == |ys|
  {
    if us == {} {
      assert ys == {};
    } else {
      var u :| u in us;
      var y := ValueOf(u, tally[u], true, temporal);
      var fewer := set w | w in us - {u} :: ValueOf(w, tally[w], true, temporal);
      assert ys == fewer + {y} && y !in fewer;
      SizesAgree(tally, temporal, us - {u}, fewer);
    }
  }

  lemma KeptIffFew(offered: seq<GrammarValue>, k: nat, x: GrammarValue)
    requires DistinctValues(offered) && x in offered
    ensures HasText(Take(Sort(ValueBefore, offered), k), x.value) <==> |Preceding(ValueBefore, offered, x)| < k
  {
    var s := Sort(ValueBefore, offered);
    KeptFromOffer(offered, k);
    ValueOrderIsStrict();
    InBoth(offered, s, x);
    PrecedingSame(ValueBefore, s, offered, x);
    KeptIffFewBefore(ValueBefore, s, k, x);
    TextMeansValue(offered, Take(s, k), x);
  }

  lemma InBoth(offered: seq<GrammarValue>, s: seq<GrammarValue>, x: GrammarValue)
    requires Elements(s) == Elements(offered) && x in offered
    ensures x in s
  {
    assert x in Elements(s);
  }

  lemma RankIsSize(kind: TokenKind, tally: map<string, Stats>, global: Vocabulary, config: Config, offered: seq<GrammarValue>, v: string)
    requires Offer(kind, tally, global, config, offered) && v in tally
    ensures |Preceding(ValueBefore, offered, ValueOf(v, tally[v], true, config.temporal))| == |RankedBefore(tally, config.temporal, v)|
  {
    var ys := Preceding(ValueBefore, offered, ValueOf(v, tally[v], true, config.temporal));
    forall y ensures y in offered <==> y in Elements(offered) { }
    BeforeAreRanked(kind, tally, global, config, offered, v, ys);
    SizesAgree(tally, config.temporal, RankedBefore(tally, config.temporal, v), ys);
  }

  /** An observed value stays in its slot iff fewer observed values than the limit rank before it. */
  lemma ObservedIsKeptIff(
      kind: TokenKind, tally: map<string, Stats>, global: Vocabulary, config: Config, values: seq<GrammarValue>, v: string)
    requires OffersBest(kind, tally, global, config, values) && v in tally
    ensures HasText(values, v) <==> |RankedBefore(tally, config.temporal, v)| < SlotLimit(config)
  {
    var offered :| Offer(kind, tally, global, config, offered) && values == Take(Sort(ValueBefore, offered), SlotLimit(config));
    var x := ValueOf(v, tally[v], true, config.temporal);
    assert x in LocalValues(tally, config.temporal);
    assert x in Elements(offered);
    RankIsSize(kind, tally, global, config, offered, v);
    KeptIffFew(offered, SlotLimit(config), x);
  }

  lemma BeforeAreRanked(
      kind: TokenKind, tally: map<string, Stats>, global: Vocabulary, config: Config, offered: seq<GrammarValue>, v: string,
      ys: set<GrammarValue>)
    requires Offer(kind, tally, global, config, offered) && v in tally
    requires forall y :: y in ys <==> y in Elements(offered) && ValueBefore(y, ValueOf(v, tally[v], true, config.temporal))
    ensures ys == set u | u in RankedBefore(tally, config.temporal, v) :: ValueOf(u, tally[u], true, config.temporal)
  {
    forall y | y in ys
      ensures exists u :: u in RankedBefore(tally, config.temporal, v) && y == ValueOf(u, tally[u], true, config.temporal)
    {
      OnlyLocalBefore(kind, tally, global, config, offered, v, y);
      assert y.value in RankedBefore(tally, config.temporal, v);
    }
    forall u | u in RankedBefore(tally, config.temporal, v) ensures ValueOf(u, tally[u], true, config.temporal) in ys {
      assert ValueOf(u, tally[u], true, config.temporal) in LocalValues(tally, config.temporal);
    }
  }

  lemma TextMeansValue(offered: seq<GrammarValue>, values: seq<GrammarValue>, x: GrammarValue)
    requires DistinctValues(offered) && Elements(values) <= Elements(offered) && x in offered
    ensures HasText(values, x.value) <==> x in values
  {
    if HasText(values, x.value) {
      var i :| 0 <= i < |values| && values[i].value == x.value;
      assert values[i] in Elements(values);
      SameText(offered, values[i], x);
    }
  }

  lemma SameText(offered: seq<GrammarValue>, x: GrammarValue, y: GrammarValue)
    requires DistinctValues(offered) && x in offered && y in offered && x.value == y.value
    ensures x == y
  {
    if x != y { DifferentTexts(offered, x, y); }
  }
}
