/** How observed names become templates (src/intelligence.rs): gathering by key, and the slots of each template. */
module GrammarInduction {
  import opened Basics
  import opened Ranking
  import opened TokenKinds
  import opened Tallies
  import opened LabelTokens
  import opened BeamSearch
  import opened GrammarTemplates
  import opened TemplateKeys
  import opened TemplateLanguage
  import opened SlotValues

  /** The first label of an observed name, what stands between it and the root, and when it was last seen. */
  datatype Name = Name(leaf: string, parent: string, at: Option<int>)

  datatype Reading = Reading(name: Name, tokens: seq<LabelToken>)

  /** Host names hold no bar. */
  ghost predicate Sound(r: Reading) {
    '|' !in r.name.parent && TokenizableLabel(r.name.leaf) && Tokenization(r.name.leaf, r.tokens)
  }

  ghost predicate AllSound(readings: seq<Reading>) {
    forall i :: 0 <= i < |readings| ==> Sound(readings[i])
  }

  /** The readings of the names that can be tokenized, in order. */
  ghost predicate Readings(names: seq<Name>, readings: seq<Reading>) {
    if names == [] then readings == []
    else
      var front, last := names[..|names| - 1], names[|names| - 1];
      if TokenizableLabel(last.leaf) then
        readings != [] && readings[|readings| - 1].name == last && Readings(front, readings[..|readings| - 1])
      else Readings(front, readings)
  }

  // ----- plain parts -----

  lemma {:induction false} RenderHolds(tokens: seq<LabelToken>, n: nat, c: char)
    requires n < |tokens| && c in tokens[n].value
    ensures c in Render(tokens)
  {
    if n < |tokens| - 1 {
      RenderHolds(tokens[..|tokens| - 1], n, c);
    }
  }

  lemma {:induction false} CollapseAvoids(segments: seq<string>, c: char)
    requires c != '-' && forall k :: 0 <= k < |segments| ==> c !in segments[k]
    ensures c !in Collapse(segments)
  {
    if segments != [] {
      CollapseAvoids(segments[..|segments| - 1], c);
    }
  }

  lemma TokensAvoid(leaf: string, tokens: seq<LabelToken>, c: char)
    requires Tokenization(leaf, tokens) && c != '-' && c !in leaf
    ensures forall n :: 0 <= n < |tokens| ==> c !in tokens[n].value
  {
    CollapseAvoids(Split(leaf), c);
    forall n | 0 <= n < |tokens| ensures c !in tokens[n].value {
      if c in tokens[n].value { RenderHolds(tokens, n, c); }
    }
  }

  lemma {:induction false} PlainPartsOf(tokens: seq<LabelToken>)
    requires Alternating(tokens) && forall n :: 0 <= n < |tokens| ==> '|' !in tokens[n].value
    ensures PlainParts(PartsOf(tokens))
  {
    if tokens != [] {
      var n := |tokens| - 1;
      AlternatingPrefix(tokens, n);
      PlainPartsOf(tokens[..n]);
      PartsFront(tokens);
      if n > 0 { assert MayFollow(tokens[n - 1], tokens[n]); }
    }
  }

  lemma SoundIsPlain(r: Reading)
    requires Sound(r)
    ensures PlainParts(PartsOf(r.tokens)) && Shaped(r.tokens)
  {
    assert forall i :: 0 <= i < |r.name.leaf| ==> r.name.leaf[i] != '|';
    TokensAvoid(r.name.leaf, r.tokens, '|');
    PlainPartsOf(r.tokens);
    TokensAreShaped(r.tokens);
  }

  // ----- gathering by key -----

  function KeyOf(r: Reading): string { KeyText(r.name.parent, PartsOf(r.tokens)) }

  /** The readings that have a slot and this key. */
  function Group(readings: seq<Reading>, key: string): seq<Reading> {
    if readings == [] then []
    else
      var front, last := Group(readings[..|readings| - 1], key), readings[|readings| - 1];
      if SlotCount(last.tokens) > 0 && KeyOf(last) == key then front + [last] else front
  }

  lemma GroupMore(readings: seq<Reading>, r: Reading, key: string)
    ensures Group(readings + [r], key) == Group(readings, key) + if SlotCount(r.tokens) > 0 && KeyOf(r) == key then [r] else []
  {
    assert (readings + [r])[..|readings|] == readings;
  }

  lemma {:induction false} GroupMembers(readings: seq<Reading>, key: string)
    ensures forall i :: 0 <= i < |Group(readings, key)| ==>
              Group(readings, key)[i] in readings && KeyOf(Group(readings, key)[i]) == key && SlotCount(Group(readings, key)[i].tokens) > 0
  {
    if readings != [] {
      GroupMembers(readings[..|readings| - 1], key);
    }
  }

  /** Readings of one template: the same parent and the same parts. */
  ghost predicate Alike(a: Reading, b: Reading) {
    a.name.parent == b.name.parent && PartsOf(a.tokens) == PartsOf(b.tokens)
  }

  /** Labels share a key exactly when they share a template. */
  lemma SameKeyIff(a: Reading, b: Reading)
    requires Sound(a) && Sound(b)
    ensures KeyOf(a) == KeyOf(b) <==> Alike(a, b)
  {
    SoundIsPlain(a);
    SoundIsPlain(b);
    KeyIff(a.name.parent, PartsOf(a.tokens), b.name.parent, PartsOf(b.tokens));
  }

  /** All readings of a group are sound and alike. */
  ghost predicate Uniform(g: seq<Reading>) {
    forall i :: 0 <= i < |g| ==> Sound(g[i]) && Alike(g[i], g[0])
  }

  lemma GroupIsUniform(readings: seq<Reading>, key: string)
    requires AllSound(readings)
    ensures Uniform(Group(readings, key))
  {
    var g := Group(readings, key);
    GroupMembers(readings, key);
    forall i | 0 <= i < |g| ensures Sound(g[i]) { assert g[i] in readings; }
    forall i | 0 <= i < |g| ensures Alike(g[i], g[0]) { SameKeyIff(g[i], g[0]); }
  }

  // ----- what a group says -----

  function Labels(g: seq<Reading>): set<string> { set r | r in g :: r.name.leaf }

  function LatestOf(g: seq<Reading>): Option<int> {
    if g == [] then None else Later(LatestOf(g[..|g| - 1]), g[|g| - 1].name.at)
  }

  function ChoiceOf(r: Reading, i: nat): string {
    var choices := Choices(r.tokens);
    if i < |choices| then choices[i] else ""
  }

  /** What the readings choose for slot i. */
  function SlotSightings(g: seq<Reading>, i: nat): seq<Sighting<string>> {
    seq(|g|, j requires 0 <= j < |g| => Sighting(ChoiceOf(g[j], i), g[j].name.at))
  }

  function SlotTally(g: seq<Reading>, i: nat): map<string, Stats> { Tally(SlotSightings(g, i)) }

  lemma SlotTallyMore(g: seq<Reading>, r: Reading, i: nat)
    ensures SlotTally(g + [r], i) == See(SlotTally(g, i), ChoiceOf(r, i), r.name.at)
  {
    TallySnoc(SlotSightings(g, i), ChoiceOf(r, i), r.name.at);
    assert SlotSightings(g + [r], i) == SlotSightings(g, i) + [Sighting(ChoiceOf(r, i), r.name.at)];
  }

  lemma LabelsMore(g: seq<Reading>, r: Reading)
    ensures Labels(g + [r]) == Labels(g) + {r.name.leaf}
    ensures LatestOf(g + [r]) == Later(LatestOf(g), r.name.at)
  {
    assert forall x :: x in g + [r] <==> x in g || x == r;
    assert (g + [r])[..|g|] == g;
  }

  /** A value is in the tally of a slot iff some reading chooses it there. */
  lemma SlotTallyMeans(g: seq<Reading>, i: nat, v: string)
    ensures v in SlotTally(g, i) <==> exists j :: 0 <= j < |g| && ChoiceOf(g[j], i) == v
  {
    var s := SlotSightings(g, i);
    TallyMeans(s, v);
    forall j | 0 <= j < |g| ensures s[j].key == ChoiceOf(g[j], i) { }
    if v in SlotTally(g, i) {
      var j :| 0 <= j < |s| && s[j].key == v;
      assert ChoiceOf(g[j], i) == v;
    }
    if j :| 0 <= j < |g| && ChoiceOf(g[j], i) == v {
      assert s[j].key == v;
    }
  }

  lemma SlotTallyFills(g: seq<Reading>, i: nat)
    requires g != [] && Uniform(g) && i < |SlotKinds(PartsOf(g[0].tokens))|
    ensures forall v :: v in SlotTally(g, i) ==> Fills(v, SlotKinds(PartsOf(g[0].tokens))[i])
  {
    forall v | v in SlotTally(g, i) ensures Fills(v, SlotKinds(PartsOf(g[0].tokens))[i]) {
      SlotTallyMeans(g, i, v);
      var j :| 0 <= j < |g| && ChoiceOf(g[j], i) == v;
      ChoiceFills(g[j], i);
    }
  }

  lemma ChoiceFills(r: Reading, i: nat)
    requires Sound(r) && i < |SlotKinds(PartsOf(r.tokens))|
    ensures Fills(ChoiceOf(r, i), SlotKinds(PartsOf(r.tokens))[i])
    ensures |Choices(r.tokens)| == |SlotKinds(PartsOf(r.tokens))| == SlotCount(r.tokens)
  {
    TokensAreShaped(r.tokens);
    ChoicesFill(r.tokens);
  }

  lemma ChoicesMatchKinds(r: Reading)
    requires Sound(r)
    ensures |Choices(r.tokens)| == |SlotKinds(PartsOf(r.tokens))| == SlotCount(r.tokens)
  {
    TokensAreShaped(r.tokens);
    ChoicesFill(r.tokens);
  }

  // ----- the vocabulary -----

  function TokenSightings(tokens: seq<LabelToken>, at: Option<int>): seq<Sighting<(TokenKind, string)>> {
    if tokens == [] then []
    else
      var front, t := TokenSightings(tokens[..|tokens| - 1], at), tokens[|tokens| - 1];
      if t.kind == Word then front else front + [Sighting((t.kind, t.value), at)]
  }

  function AllSightings(readings: seq<Reading>): seq<Sighting<(TokenKind, string)>> {
    if readings == [] then []
    else
      var last := readings[|readings| - 1];
      AllSightings(readings[..|readings| - 1]) + TokenSightings(last.tokens, last.name.at)
  }

  function VocabularyOf(readings: seq<Reading>): Vocabulary { Tally(AllSightings(readings)) }

  ghost predicate SightingsFill(sightings: seq<Sighting<(TokenKind, string)>>) {
    forall i :: 0 <= i < |sightings| ==> Fills(sightings[i].key.1, sightings[i].key.0)
  }

  lemma {:induction false} TokenSightingsFill(tokens: seq<LabelToken>, at: Option<int>)
    requires Shaped(tokens)
    ensures SightingsFill(TokenSightings(tokens, at))
  {
    if tokens != [] {
      AlternatingPrefix(tokens, |tokens| - 1);
      TokenSightingsFill(tokens[..|tokens| - 1], at);
    }
  }

  lemma {:induction false} AllSightingsFill(readings: seq<Reading>)
    requires AllSound(readings)
    ensures SightingsFill(AllSightings(readings))
  {
    if readings != [] {
      var last := readings[|readings| - 1];
      AllSightingsFill(readings[..|readings| - 1]);
      assert Sound(last);
      TokensAreShaped(last.tokens);
      TokenSightingsFill(last.tokens, last.name.at);
    }
  }

  lemma VocabularyFills(readings: seq<Reading>)
    requires AllSound(readings)
    ensures forall p :: p in VocabularyOf(readings) ==> Fills(p.1, p.0)
  {
    AllSightingsFill(readings);
    forall p | p in VocabularyOf(readings) ensures Fills(p.1, p.0) {
      TallyMeans(AllSightings(readings), p);
    }
  }

  lemma AllSightingsMore(readings: seq<Reading>, r: Reading)
    ensures AllSightings(readings + [r]) == AllSightings(readings) + TokenSightings(r.tokens, r.name.at)
  {
    assert (readings + [r])[..|readings|] == readings;
  }

  // ----- the loop over the names -----

  datatype Accumulator = Accumulator(
    parent: string, parts: seq<TemplatePart>, kinds: seq<TokenKind>, values: seq<map<string, Stats>>, labels: set<string>,
    latest: Option<int>)

  /** acc has gathered the readings g into the template of head. */
  ghost predicate Gathers(acc: Accumulator, head: Reading, g: seq<Reading>) {
    && acc.parent == head.name.parent && acc.parts == PartsOf(head.tokens)
    && acc.kinds == SlotKinds(acc.parts) && |acc.values| == |acc.kinds|
    && (forall i :: 0 <= i < |acc.values| ==> acc.values[i] == SlotTally(g, i))
    && acc.labels == Labels(g) && acc.latest == LatestOf(g)
  }

  ghost predicate GathersGroup(acc: Accumulator, g: seq<Reading>) {
    g != [] && Gathers(acc, g[0], g)
  }

  ghost predicate Gathered(accs: map<string, Accumulator>, readings: seq<Reading>) {
    && (forall key :: key in accs <==> Group(readings, key) != [])
    && (forall key :: key in accs ==> GathersGroup(accs[key], Group(readings, key)))
  }

  method CountTokens(global: Vocabulary, tokens: seq<LabelToken>, at: Option<int>, ghost seen: seq<Sighting<(TokenKind, string)>>)
    returns (counted: Vocabulary)
    requires global == Tally(seen)
    ensures counted == Tally(seen + TokenSightings(tokens, at))
  {
    counted := global;
    assert seen + TokenSightings([], at) == seen;
    for n := 0 to |tokens|
      invariant counted == Tally(seen + TokenSightings(tokens[..n], at))
    {
      var t := tokens[n];
      assert tokens[..n + 1][..n] == tokens[..n];
      if t.kind != Word {
        ghost var before := TokenSightings(tokens[..n], at);
        TallySnoc(seen + before, (t.kind, t.value), at);
        assert seen + (before + [Sighting((t.kind, t.value), at)]) == seen + before + [Sighting((t.kind, t.value), at)];
        counted := See(counted, (t.kind, t.value), at);
      }
    }
    assert tokens[..|tokens|] == tokens;
  }

  method Describe(tokens: seq<LabelToken>) returns (parts: seq<TemplatePart>, choices: seq<string>, kinds: seq<TokenKind>)
    requires Shaped(tokens)
    ensures parts == PartsOf(tokens) && choices == Choices(tokens) && kinds == SlotKinds(parts)
  {
    var index := 0;
    parts, choices, kinds := [], [], [];
    for n := 0 to |tokens|
      invariant parts == PartsOf(tokens[..n]) && choices == Choices(tokens[..n]) && kinds == SlotKinds(parts)
      invariant index == SlotCount(tokens[..n])
    {
      var t := tokens[n];
      assert tokens[..n + 1][..n] == tokens[..n];
      ghost var before := parts;
      if t.kind == Word {
        parts := parts + [Literal(t.separatorBefore, t.value)];
      } else {
        parts := parts + [Slot(t.separatorBefore, t.kind, index)];
        choices, kinds := choices + [t.value], kinds + [t.kind];
        index := index + 1;
      }
      assert parts[..|parts| - 1] == before;
    }
    assert tokens[..|tokens|] == tokens;
  }

  function Fresh(parent: string, parts: seq<TemplatePart>, kinds: seq<TokenKind>): Accumulator {
    Accumulator(parent, parts, kinds, seq(|kinds|, _ => map[]), {}, None)
  }

  lemma FreshGathers(head: Reading)
    ensures Gathers(Fresh(head.name.parent, PartsOf(head.tokens), SlotKinds(PartsOf(head.tokens))), head, [])
  {
    forall i: nat ensures SlotTally([], i) == map[] { assert SlotSightings([], i) == []; }
  }

  method AddChoices(values: seq<map<string, Stats>>, choices: seq<string>, at: Option<int>) returns (added: seq<map<string, Stats>>)
    requires |values| == |choices|
    ensures |added| == |values| && forall i :: 0 <= i < |values| ==> added[i] == See(values[i], choices[i], at)
  {
    added := values;
    for n := 0 to |choices|
      invariant |added| == |values|
      invariant forall i :: 0 <= i < n ==> added[i] == See(values[i], choices[i], at)
      invariant forall i :: n <= i < |values| ==> added[i] == values[i]
    {
      added := added[n := See(added[n], choices[n], at)];
    }
  }

  /** One more reading of the accumulator's template. */
  method Note(acc: Accumulator, choices: seq<string>, name: Name, ghost head: Reading, ghost g: seq<Reading>, ghost r: Reading)
    returns (noted: Accumulator)
    requires Gathers(acc, head, g) && r.name == name && choices == Choices(r.tokens) && |choices| == |acc.values|
    ensures Gathers(noted, head, g + [r])
  {
    var values := AddChoices(acc.values, choices, name.at);
    noted := acc.(values := values, labels := acc.labels + {name.leaf}, latest := Later(acc.latest, name.at));
    LabelsMore(g, r);
    forall i | 0 <= i < |values| ensures values[i] == SlotTally(g + [r], i) {
      SlotTallyMore(g, r, i);
    }
  }

  lemma GatheredMore(accs: map<string, Accumulator>, readings: seq<Reading>, r: Reading, noted: Accumulator)
    requires Gathered(accs, readings) && SlotCount(r.tokens) > 0
    requires Gathers(noted, if KeyOf(r) in accs then Group(readings, KeyOf(r))[0] else r, Group(readings, KeyOf(r)) + [r])
    ensures Gathered(accs[KeyOf(r) := noted], readings + [r])
  {
    var more := accs[KeyOf(r) := noted];
    forall key ensures (key in more <==> Group(readings + [r], key) != [])
                    && (key in more ==> GathersGroup(more[key], Group(readings + [r], key))) {
      GroupMore(readings, r, key);
      if key != KeyOf(r) {
        assert key in accs ==> GathersGroup(accs[key], Group(readings, key));
      }
    }
  }

  lemma GatheredSame(accs: map<string, Accumulator>, readings: seq<Reading>, r: Reading)
    requires Gathered(accs, readings) && SlotCount(r.tokens) == 0
    ensures Gathered(accs, readings + [r])
  {
    forall key ensures Group(readings + [r], key) == Group(readings, key) {
      GroupMore(readings, r, key);
    }
  }

  /** The accumulator that a reading belongs to has as many slots as the reading has choices. */
  lemma FoundFits(accs: map<string, Accumulator>, readings: seq<Reading>, r: Reading)
    requires Gathered(accs, readings) && AllSound(readings) && Sound(r) && KeyOf(r) in accs
    ensures |Choices(r.tokens)| == |accs[KeyOf(r)].values|
  {
    var head := Group(readings, KeyOf(r))[0];
    GroupMembers(readings, KeyOf(r));
    GroupIsUniform(readings, KeyOf(r));
    SameKeyIff(r, head);
    ChoicesMatchKinds(r);
  }

  method Gather(accs: map<string, Accumulator>, name: Name, tokens: seq<LabelToken>, ghost readings: seq<Reading>)
    returns (more: map<string, Accumulator>)
    requires Gathered(accs, readings) && AllSound(readings) && Sound(Reading(name, tokens))
    ensures Gathered(more, readings + [Reading(name, tokens)])
  {
    ghost var r := Reading(name, tokens);
    SoundIsPlain(r);
    ChoicesMatchKinds(r);
    var parts, choices, kinds := Describe(tokens);
    if |choices| == 0 {
      GatheredSame(accs, readings, r);
      return accs;
    }
    var key := TemplateKey(name.parent, parts);
    ghost var g := Group(readings, key);
    var acc := Fresh(name.parent, parts, kinds);
    if key in accs {
      acc := accs[key];
      FoundFits(accs, readings, r);
    } else {
      FreshGathers(r);
    }
    var noted := Note(acc, choices, name, if key in accs then g[0] else r, g, r);
    GatheredMore(accs, readings, r, noted);
    more := accs[key := noted];
  }

  lemma ReadingsMore(names: seq<Name>, n: nat, readings: seq<Reading>, r: Reading)
    requires n < |names| && Readings(names[..n], readings) && TokenizableLabel(names[n].leaf) && r.name == names[n]
    ensures Readings(names[..n + 1], readings + [r])
  {
    assert names[..n + 1][..n] == names[..n] && (readings + [r])[..|readings|] == readings;
  }

  method ReadName(accs: map<string, Accumulator>, global: Vocabulary, name: Name, tokens: seq<LabelToken>, ghost readings: seq<Reading>)
    returns (accs': map<string, Accumulator>, global': Vocabulary)
    requires Gathered(accs, readings) && AllSound(readings) && Sound(Reading(name, tokens)) && global == VocabularyOf(readings)
    ensures Gathered(accs', readings + [Reading(name, tokens)]) && global' == VocabularyOf(readings + [Reading(name, tokens)])
  {
    AllSightingsMore(readings, Reading(name, tokens));
    global' := CountTokens(global, tokens, name.at, AllSightings(readings));
    accs' := Gather(accs, name, tokens, readings);
  }

  /** What has been gathered from these names. */
  ghost predicate Learned(names: seq<Name>, readings: seq<Reading>, accs: map<string, Accumulator>, global: Vocabulary) {
    Readings(names, readings) && AllSound(readings) && Gathered(accs, readings) && global == VocabularyOf(readings)
  }

  method ReadNext(names: seq<Name>, n: nat, accs: map<string, Accumulator>, global: Vocabulary, ghost readings: seq<Reading>)
    returns (accs': map<string, Accumulator>, global': Vocabulary, ghost readings': seq<Reading>)
    requires n < |names| && '|' !in names[n].parent && Learned(names[..n], readings, accs, global)
    ensures Learned(names[..n + 1], readings', accs', global')
  {
    var name := names[n];
    var tokens := TokenizeLabel(name.leaf);
    if tokens.None? {
      assert names[..n + 1][..n] == names[..n];
      return accs, global, readings;
    }
    ReadingsMore(names, n, readings, Reading(name, tokens.value));
    accs', global' := ReadName(accs, global, name, tokens.value, readings);
    readings' := readings + [Reading(name, tokens.value)];
  }

  lemma NothingLearned()
    ensures Learned([], [], map[], map[])
  {
  }

  method ReadNames(names: seq<Name>) returns (accs: map<string, Accumulator>, global: Vocabulary, ghost readings: seq<Reading>)
    requires forall n :: n in names ==> '|' !in n.parent
    ensures Learned(names, readings, accs, global)
  {
    accs, global, readings := map[], map[], [];
    NothingLearned();
    assert names[..0] == [];
    for n := 0 to |names|
      invariant Learned(names[..n], readings, accs, global)
    {
      accs, global, readings := ReadNext(names, n, accs, global, readings);
    }
    assert names[..|names|] == names;
  }

  // ----- the templates -----

  datatype Template = Template(
    parent: string, parts: seq<TemplatePart>, slots: Slots, support: nat, latest: Option<int>, temporalScoreMilli: nat,
    labels: set<string>)

  /** The slots of these kinds, in order, each with the best of what g and the vocabulary know. */
  ghost predicate SlotsOffer(slots: Slots, kinds: seq<TokenKind>, g: seq<Reading>, global: Vocabulary, config: Config) {
    && (forall i: nat :: i in slots <==> i < |kinds|)
    && (forall i: nat :: i < |kinds| ==> OffersBest(kinds[i], SlotTally(g, i), global, config, slots[i]))
  }

  lemma SlotsOfferMore(
      slots: Slots, kinds: seq<TokenKind>, n: nat, g: seq<Reading>, global: Vocabulary, config: Config, values: seq<GrammarValue>)
    requires n < |kinds| && SlotsOffer(slots, kinds[..n], g, global, config)
    requires OffersBest(kinds[n], SlotTally(g, n), global, config, values)
    ensures SlotsOffer(slots[n := values], kinds[..n + 1], g, global, config)
  {
    forall i: nat | i < n + 1 ensures OffersBest(kinds[..n + 1][i], SlotTally(g, i), global, config, slots[n := values][i]) {
      if i < n { assert OffersBest(kinds[..n][i], SlotTally(g, i), global, config, slots[i]); }
    }
  }

  /** t is the template of the readings g: its slots offer the best of what g and the vocabulary know. */
  ghost predicate Induced(t: Template, g: seq<Reading>, global: Vocabulary, config: Config) {
    && g != [] && t.parent == g[0].name.parent && t.parts == PartsOf(g[0].tokens)
    && t.labels == Labels(g) && t.support == |t.labels|
    && t.latest == LatestOf(g) && t.temporalScoreMilli == config.temporal(t.latest)
    && SlotsOffer(t.slots, SlotKinds(t.parts), g, global, config)
  }

  method BuildSlots(
      acc: Accumulator, vocabulary: seq<VocabularyEntry>, ghost global: Vocabulary, config: Config, ghost g: seq<Reading>)
    returns (slots: Slots)
    requires g != [] && Uniform(g) && Gathers(acc, g[0], g) && Lists(vocabulary, global)
    ensures SlotsOffer(slots, acc.kinds, g, global, config)
  {
    slots := map[];
    for n := 0 to |acc.kinds|
      invariant SlotsOffer(slots, acc.kinds[..n], g, global, config)
    {
      SlotTallyFills(g, n);
      var values := SlotValues.SlotValues(acc.kinds[n], acc.values[n], vocabulary, global, config);
      SlotsOfferMore(slots, acc.kinds, n, g, global, config, values);
      slots := slots[n := values];
    }
    assert acc.kinds[..|acc.kinds|] == acc.kinds;
  }

  method BuildTemplate(
      acc: Accumulator, vocabulary: seq<VocabularyEntry>, ghost global: Vocabulary, config: Config, ghost g: seq<Reading>)
    returns (t: Template)
    requires g != [] && Uniform(g) && Gathers(acc, g[0], g) && Lists(vocabulary, global)
    ensures Induced(t, g, global, config)
  {
    var slots := BuildSlots(acc, vocabulary, global, config, g);
    t := Template(acc.parent, acc.parts, slots, |acc.labels|, acc.latest, config.temporal(acc.latest), acc.labels);
  }

  function LeastSupport(config: Config): nat { Max(1, config.minTemplateSupport) }

  /** The templates of all keys are the templates of the groups that are large enough. */
  ghost predicate InducedFrom(templates: map<string, Template>, keys: set<string>, readings: seq<Reading>, config: Config) {
    && (forall key :: key in templates <==> key in keys && |Labels(Group(readings, key))| >= LeastSupport(config))
    && (forall key :: key in templates ==> Induced(templates[key], Group(readings, key), VocabularyOf(readings), config))
  }

  method BuildTemplates(
      accs: map<string, Accumulator>, vocabulary: seq<VocabularyEntry>, config: Config, ghost readings: seq<Reading>)
    returns (templates: map<string, Template>)
    requires AllSound(readings) && Gathered(accs, readings) && Lists(vocabulary, VocabularyOf(readings))
    ensures InducedFrom(templates, accs.Keys, readings, config)
  {
    StringOrderIsStrict();
    var keys := Listing(StringBefore, accs.Keys);
    templates := map[];
    for n := 0 to |keys|
      invariant InducedFrom(templates, Elements(keys[..n]), readings, config)
    {
      var key := keys[n];
      KeyAt(keys, n);
      GroupIsUniform(readings, key);
      if |accs[key].labels| >= LeastSupport(config) {
        var t := BuildTemplate(accs[key], vocabulary, VocabularyOf(readings), config, Group(readings, key));
        templates := templates[key := t];
      }
    }
    assert keys[..|keys|] == keys;
  }

  /** One template for every key with the least support or more, of all its readings, and the vocabulary of all readings. */
  ghost predicate GrammarOf(
      readings: seq<Reading>, config: Config, templates: map<string, Template>, vocabulary: seq<VocabularyEntry>) {
    && Lists(vocabulary, VocabularyOf(readings))
    && (forall key :: key in templates <==> |Labels(Group(readings, key))| >= LeastSupport(config))
    && (forall key :: key in templates ==> Induced(templates[key], Group(readings, key), VocabularyOf(readings), config))
  }

  /** The grammar of the readings of these names; there are no other readings of them. */
  ghost predicate IsGrammar(names: seq<Name>, config: Config, templates: map<string, Template>, vocabulary: seq<VocabularyEntry>) {
    exists readings :: Readings(names, readings) && AllSound(readings) && GrammarOf(readings, config, templates, vocabulary)
  }

  lemma {:induction false} ReadingsAreUnique(names: seq<Name>, a: seq<Reading>, b: seq<Reading>)
    requires Readings(names, a) && Readings(names, b) && AllSound(a) && AllSound(b)
    ensures a == b
  {
    if names != [] {
      var front, last := names[..|names| - 1], names[|names| - 1];
      if TokenizableLabel(last.leaf) {
        var x, y := a[|a| - 1], b[|b| - 1];
        assert Sound(x) && Sound(y);
        UniqueReading(x.tokens, y.tokens);
        ReadingsAreUnique(front, a[..|a| - 1], b[..|b| - 1]);
        assert a == a[..|a| - 1] + [x] && b == b[..|b| - 1] + [y];
      } else {
        ReadingsAreUnique(front, a, b);
      }
    }
  }

  method InduceGrammar(names: seq<Name>, config: Config)
    returns (templates: map<string, Template>, vocabulary: seq<VocabularyEntry>)
    requires forall n :: n in names ==> '|' !in n.parent
    ensures IsGrammar(names, config, templates, vocabulary)
  {
    var accs, global;
    ghost var readings;
    accs, global, readings := ReadNames(names);
    vocabulary := ListVocabulary(global);
    templates := BuildTemplates(accs, vocabulary, config, readings);
    forall key | key !in accs ensures |Labels(Group(readings, key))| == 0 { assert Group(readings, key) == []; }
    assert GrammarOf(readings, config, templates, vocabulary);
  }

  lemma KeyAt(keys: seq<string>, n: nat)
    requires n < |keys|
    ensures keys[n] in Elements(keys) && Elements(keys[..n + 1]) == Elements(keys[..n]) + {keys[n]}
  {
    assert keys[..n + 1] == keys[..n] + [keys[n]];
    assert forall x :: x in keys[..n + 1] <==> x in keys[..n] || x == keys[n];
  }

  // ----- what the grammar spells -----

  function StartOf(t: Template): BeamState
    requires t.temporalScoreMilli < 0x1_0000
  {
    BeamState("", TemplateScore(t.support, t.temporalScoreMilli), [])
  }

  /** The slots of an induced template hold distinct values of their kinds. */
  lemma InducedSlotsFit(readings: seq<Reading>, key: string, t: Template, config: Config, r: Reading)
    requires AllSound(readings) && Induced(t, Group(readings, key), VocabularyOf(readings), config) && r in Group(readings, key)
    ensures t.parts == PartsOf(r.tokens) && Shaped(r.tokens) && SlotsFor(r.tokens, t.slots)
    ensures |Choices(r.tokens)| == |SlotKinds(t.parts)| == SlotCount(r.tokens)
  {
    var g := Group(readings, key);
    GroupIsUniform(readings, key);
    SoundIsPlain(r);
    ChoicesMatchKinds(r);
    VocabularyFills(readings);
    forall i | 0 <= i < |SlotKinds(t.parts)| && i in t.slots ensures FitsKind(t.slots[i], SlotKinds(t.parts)[i]) {
      SlotTallyFills(g, i);
      SlotFits(SlotKinds(t.parts)[i], SlotTally(g, i), VocabularyOf(readings), config, t.slots[i]);
    }
    FittingSlots(r.tokens, t.slots);
  }

  /** The beam over an induced template keeps exactly the best scores of the full cross-product. */
  lemma InducedBeamIsExact(readings: seq<Reading>, key: string, t: Template, config: Config, w: nat)
    requires AllSound(readings) && Induced(t, Group(readings, key), VocabularyOf(readings), config)
    requires w > 0 && t.temporalScoreMilli < 0x1_0000
    ensures Scores(Beam(t.parts, t.slots, w, StartOf(t))) == TopScores(w, Full(t.parts, t.slots, StartOf(t)))
  {
    var head := Group(readings, key)[0];
    InducedSlotsFit(readings, key, t, config, head);
    GrammarBeamIsExact(head.tokens, t.slots, w, t.support, t.temporalScoreMilli);
  }

  /** From a list of names: whatever template its grammar holds, the beam keeps exactly the best scores. */
  lemma GrammarSearchIsExact(
      names: seq<Name>, config: Config, templates: map<string, Template>, vocabulary: seq<VocabularyEntry>, key: string, w: nat)
    requires IsGrammar(names, config, templates, vocabulary) && key in templates
    requires w > 0 && templates[key].temporalScoreMilli < 0x1_0000
    ensures var t := templates[key];
            Scores(Beam(t.parts, t.slots, w, StartOf(t))) == TopScores(w, Full(t.parts, t.slots, StartOf(t)))
  {
    var readings :| Readings(names, readings) && AllSound(readings) && GrammarOf(readings, config, templates, vocabulary);
    InducedBeamIsExact(readings, key, templates[key], config, w);
  }

  /** Fewer values of the slot than the limit rank before this one. */
  predicate Survives(tally: map<string, Stats>, config: Config, v: string) {
    v in tally && |RankedBefore(tally, config.temporal, v)| < SlotLimit(config)
  }

  lemma ChoiceSurvivesIff(t: Template, g: seq<Reading>, global: Vocabulary, config: Config, r: Reading, i: nat)
    requires Induced(t, g, global, config) && r in g && i < |SlotKinds(t.parts)|
    ensures i in t.slots && (HasText(t.slots[i], ChoiceOf(r, i)) <==> Survives(SlotTally(g, i), config, ChoiceOf(r, i)))
  {
    var j :| 0 <= j < |g| && g[j] == r;
    SlotTallyMeans(g, i, ChoiceOf(r, i));
    ObservedIsKeptIff(SlotKinds(t.parts)[i], SlotTally(g, i), global, config, t.slots[i], ChoiceOf(r, i));
  }

  ghost predicate AllSurvive(choices: seq<string>, g: seq<Reading>, config: Config) {
    forall i :: 0 <= i < |choices| ==> Survives(SlotTally(g, i), config, choices[i])
  }

  lemma OfferedIffAllSurvive(t: Template, g: seq<Reading>, global: Vocabulary, config: Config, r: Reading)
    requires Induced(t, g, global, config) && r in g && |Choices(r.tokens)| == |SlotKinds(t.parts)|
    ensures OnOffer(Choices(r.tokens), t.slots) <==> AllSurvive(Choices(r.tokens), g, config)
  {
    var choices := Choices(r.tokens);
    forall i | 0 <= i < |choices|
      ensures i in t.slots && (HasText(t.slots[i], choices[i]) <==> Survives(SlotTally(g, i), config, choices[i]))
    {
      ChoiceSurvivesIff(t, g, global, config, r, i);
    }
  }

  /**
   A label that was learned is spelled again by its template iff at each slot fewer values of the template than the limit
   rank before the label's own.
   */
  lemma LearnedIsSpelledIff(readings: seq<Reading>, key: string, t: Template, config: Config, r: Reading)
    requires AllSound(readings) && Induced(t, Group(readings, key), VocabularyOf(readings), config) && r in Group(readings, key)
    requires t.temporalScoreMilli < 0x1_0000
    ensures Render(r.tokens) in Texts(Full(t.parts, t.slots, StartOf(t))) <==>
            AllSurvive(Choices(r.tokens), Group(readings, key), config)
  {
    InducedSlotsFit(readings, key, t, config, r);
    SpelledIff(r.tokens, t.slots, StartOf(t));
    OfferedIffAllSurvive(t, Group(readings, key), VocabularyOf(readings), config, r);
  }

  lemma FewSurvive(tally: map<string, Stats>, config: Config, v: string)
    requires v in tally && |tally| <= SlotLimit(config)
    ensures Survives(tally, config, v)
  {
    ValueOrderIsStrict();
    var ranked := RankedBefore(tally, config.temporal, v);
    assert v !in ranked && ranked + {v} <= tally.Keys;
    SubsetSize(ranked + {v}, tally.Keys);
  }

  lemma FewAllSurvive(g: seq<Reading>, config: Config, r: Reading)
    requires r in g && forall i: nat :: i < |Choices(r.tokens)| ==> |SlotTally(g, i)| <= SlotLimit(config)
    ensures AllSurvive(Choices(r.tokens), g, config)
  {
    var j :| 0 <= j < |g| && g[j] == r;
    forall i | 0 <= i < |Choices(r.tokens)| ensures Survives(SlotTally(g, i), config, Choices(r.tokens)[i]) {
      SlotTallyMeans(g, i, ChoiceOf(r, i));
      FewSurvive(SlotTally(g, i), config, Choices(r.tokens)[i]);
    }
  }

  /** When no slot saw more values than the limit, every label that was learned is spelled again. */
  lemma NothingLearnedIsLost(readings: seq<Reading>, key: string, t: Template, config: Config, r: Reading)
    requires AllSound(readings) && Induced(t, Group(readings, key), VocabularyOf(readings), config) && r in Group(readings, key)
    requires t.temporalScoreMilli < 0x1_0000
    requires forall i: nat :: i < |SlotKinds(t.parts)| ==> |SlotTally(Group(readings, key), i)| <= SlotLimit(config)
    ensures Render(r.tokens) in Texts(Full(t.parts, t.slots, StartOf(t)))
  {
    InducedSlotsFit(readings, key, t, config, r);
    FewAllSurvive(Group(readings, key), config, r);
    LearnedIsSpelledIff(readings, key, t, config, r);
  }
}
