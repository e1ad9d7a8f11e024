/** What a template spells (src/intelligence.rs): a label's own text exactly when its values are on offer. */
module TemplateLanguage {
  import opened Basics
  import opened TokenKinds
  import opened LabelTokens
  import opened BeamSearch
  import opened GrammarTemplates

  /** The values that the tokens choose for the slots, in order. */
  function Choices(tokens: seq<LabelToken>): seq<string> {
    if tokens == [] then []
    else
      var front, t := Choices(tokens[..|tokens| - 1]), tokens[|tokens| - 1];
      if t.kind == Word then front else front + [t.value]
  }

  function SlotKinds(parts: seq<TemplatePart>): seq<TokenKind> {
    if parts == [] then []
    else
      var front, part := SlotKinds(parts[..|parts| - 1]), parts[|parts| - 1];
      if part.Literal? then front else front + [part.kind]
  }

  lemma {:induction false} ChoicesFill(tokens: seq<LabelToken>)
    requires Shaped(tokens)
    ensures |Choices(tokens)| == |SlotKinds(PartsOf(tokens))| == SlotCount(tokens)
    ensures forall i :: 0 <= i < SlotCount(tokens) ==> Fills(Choices(tokens)[i], SlotKinds(PartsOf(tokens))[i])
  {
    if tokens != [] {
      AlternatingPrefix(tokens, |tokens| - 1);
      ChoicesFill(tokens[..|tokens| - 1]);
      PartsFront(tokens);
    }
  }

  ghost predicate FitsKind(values: seq<GrammarValue>, kind: TokenKind) {
    DistinctValues(values) && forall j :: 0 <= j < |values| ==> Fills(values[j].value, kind)
  }

  /** Every slot offers distinct values of its kind. */
  ghost predicate Fitting(kinds: seq<TokenKind>, slots: Slots) {
    forall i :: 0 <= i < |kinds| && i in slots ==> FitsKind(slots[i], kinds[i])
  }

  lemma FittingFront(kinds: seq<TokenKind>, kind: TokenKind, slots: Slots)
    requires Fitting(kinds + [kind], slots)
    ensures Fitting(kinds, slots) && (|kinds| in slots ==> FitsKind(slots[|kinds|], kind))
  {
    var more := kinds + [kind];
    assert more[|kinds|] == kind;
    forall i | 0 <= i < |kinds| && i in slots ensures FitsKind(slots[i], kinds[i]) { assert more[i] == kinds[i]; }
  }

  lemma KindsFront(tokens: seq<LabelToken>)
    requires Shaped(tokens) && tokens != []
    ensures var n := |tokens| - 1;
            && |SlotKinds(PartsOf(tokens[..n]))| == SlotCount(tokens[..n])
            && SlotKinds(PartsOf(tokens)) == SlotKinds(PartsOf(tokens[..n])) + if tokens[n].kind == Word then [] else [tokens[n].kind]
  {
    AlternatingPrefix(tokens, |tokens| - 1);
    ChoicesFill(tokens[..|tokens| - 1]);
    PartsFront(tokens);
  }

  lemma SlotsForMore(tokens: seq<LabelToken>, slots: Slots)
    requires tokens != [] && SlotsFor(tokens[..|tokens| - 1], slots)
    requires var n := |tokens| - 1;
             tokens[n].kind != Word && SlotCount(tokens[..n]) in slots ==> FitsKind(slots[SlotCount(tokens[..n])], tokens[n].kind)
    ensures SlotsFor(tokens, slots)
  {
    var front := tokens[..|tokens| - 1];
    forall n | 0 <= n < |front| ensures front[..n] == tokens[..n] && front[n] == tokens[n] { }
  }

  lemma {:induction false} FittingSlots(tokens: seq<LabelToken>, slots: Slots)
    requires Shaped(tokens) && Fitting(SlotKinds(PartsOf(tokens)), slots)
    ensures SlotsFor(tokens, slots)
  {
    if tokens != [] {
      var n := |tokens| - 1;
      var kinds := SlotKinds(PartsOf(tokens[..n]));
      AlternatingPrefix(tokens, n);
      KindsFront(tokens);
      if tokens[n].kind != Word {
        FittingFront(kinds, tokens[n].kind, slots);
      }
      FittingSlots(tokens[..n], slots);
      SlotsForMore(tokens, slots);
    }
  }

  /** Every chosen value is on offer. */
  ghost predicate OnOffer(choices: seq<string>, slots: Slots) {
    forall i :: 0 <= i < |choices| && i in slots ==> HasText(slots[i], choices[i])
  }

  lemma OnOfferMore(choices: seq<string>, v: string, slots: Slots)
    ensures OnOffer(choices + [v], slots) <==> OnOffer(choices, slots) && (|choices| in slots ==> HasText(slots[|choices|], v))
  {
    var more := choices + [v];
    assert more[|choices|] == v;
    if OnOffer(more, slots) {
      forall i | 0 <= i < |choices| && i in slots ensures HasText(slots[i], choices[i]) { assert more[i] == choices[i]; }
    }
  }

  lemma AppendedTexts(f: seq<BeamState>, text: string, front: string)
    ensures front + text in Texts(AppendText(f, text)) <==> front in Texts(f)
  {
    var out := AppendText(f, text);
    if front in Texts(f) {
      var s :| s in f && s.text == front;
      var i :| 0 <= i < |f| && f[i] == s;
      assert out[i] in out && out[i].text == front + text;
    }
    if front + text in Texts(out) {
      var x :| x in out && x.text == front + text;
      var i :| 0 <= i < |out| && out[i] == x;
      assert f[i].text == (f[i].text + text)[..|f[i].text|] && front == (front + text)[..|front|];
      assert f[i] in f;
    }
  }

  lemma ExpandedText(f: seq<BeamState>, separator: string, index: nat, values: seq<GrammarValue>, x: BeamState) returns (a: string, j: nat)
    requires x in Expand(f, separator, index, values)
    ensures a in Texts(f) && j < |values| && x.text == a + separator + values[j].value
  {
    ExpandMember(f, separator, index, values, x);
    var s :| s in f && x in Row(s, separator, index, values);
    var i :| 0 <= i < |values| && x == Extend(s, separator, index, values[i]);
    a, j := s.text, i;
  }

  lemma ExpandsTo(f: seq<BeamState>, separator: string, index: nat, values: seq<GrammarValue>, a: string, j: nat)
    requires a in Texts(f) && j < |values|
    ensures a + separator + values[j].value in Texts(Expand(f, separator, index, values))
  {
    var s :| s in f && s.text == a;
    var x := Row(s, separator, index, values)[j];
    ExpandMember(f, separator, index, values, x);
    assert x.text == a + separator + values[j].value;
  }

  lemma RenderInFront(tokens: seq<LabelToken>)
    requires Shaped(tokens) && tokens != []
    ensures InFront(tokens, Render(tokens[..|tokens| - 1]))
  {
    AlternatingPrefix(tokens, |tokens| - 1);
    if |tokens| > 1 {
      RenderEnd(tokens[..|tokens| - 1]);
    }
  }

  lemma SlotSpells(tokens: seq<LabelToken>, f: seq<BeamState>, index: nat, values: seq<GrammarValue>)
    requires Shaped(tokens) && tokens != [] && forall a :: a in Texts(f) ==> InFront(tokens, a)
    requires forall i :: 0 <= i < |values| ==> Fills(values[i].value, tokens[|tokens| - 1].kind)
    ensures var front, t := Render(tokens[..|tokens| - 1]), tokens[|tokens| - 1];
            Render(tokens) in Texts(Expand(f, t.separatorBefore, index, values)) <==> front in Texts(f) && HasText(values, t.value)
  {
    var front, t := Render(tokens[..|tokens| - 1]), tokens[|tokens| - 1];
    var out := Expand(f, t.separatorBefore, index, values);
    RenderInFront(tokens);
    if Render(tokens) in Texts(out) {
      var x :| x in out && x.text == Render(tokens);
      var a, j := ExpandedText(f, t.separatorBefore, index, values, x);
      SlotPair(tokens, a, front, values[j].value, t.value);
    }
    if front in Texts(f) && HasText(values, t.value) {
      var j :| 0 <= j < |values| && values[j].value == t.value;
      ExpandsTo(f, t.separatorBefore, index, values, front, j);
    }
  }

  lemma ChoicesFront(tokens: seq<LabelToken>)
    requires Shaped(tokens) && tokens != []
    ensures var n := |tokens| - 1;
            && |Choices(tokens[..n])| == SlotCount(tokens[..n])
            && Choices(tokens) == Choices(tokens[..n]) + if tokens[n].kind == Word then [] else [tokens[n].value]
  {
    AlternatingPrefix(tokens, |tokens| - 1);
    ChoicesFill(tokens[..|tokens| - 1]);
  }

  lemma FrontOfLiteral(tokens: seq<LabelToken>, slots: Slots, start: BeamState)
    requires tokens != [] && tokens[|tokens| - 1].kind == Word
    ensures Render(tokens) in Texts(Full(PartsOf(tokens), slots, start)) <==>
            Render(tokens[..|tokens| - 1]) in Texts(Full(PartsOf(tokens[..|tokens| - 1]), slots, start))
  {
    var n := |tokens| - 1;
    var front, t := tokens[..n], tokens[n];
    PartsFront(tokens);
    AppendedTexts(Full(PartsOf(front), slots, start), t.separatorBefore + t.value, Render(front));
    assert Render(tokens) == Render(front) + (t.separatorBefore + t.value);
  }

  lemma FrontOfSlot(tokens: seq<LabelToken>, slots: Slots, start: BeamState)
    requires Shaped(tokens) && SlotsFor(tokens, slots) && start.text == ""
    requires tokens != [] && tokens[|tokens| - 1].kind != Word && SlotCount(tokens[..|tokens| - 1]) in slots
    ensures Render(tokens) in Texts(Full(PartsOf(tokens), slots, start)) <==>
            Render(tokens[..|tokens| - 1]) in Texts(Full(PartsOf(tokens[..|tokens| - 1]), slots, start))
            && HasText(slots[SlotCount(tokens[..|tokens| - 1])], tokens[|tokens| - 1].value)
  {
    var n := |tokens| - 1;
    var front := tokens[..n];
    PartsFront(tokens);
    FrontTexts(tokens, slots, start);
    SlotFills(tokens, slots);
    SlotSpells(tokens, Full(PartsOf(front), slots, start), SlotCount(front), slots[SlotCount(front)]);
  }

  /** The text of the tokens is spelled by their own template iff every one of their values is on offer. */
  lemma {:induction false} SpelledIff(tokens: seq<LabelToken>, slots: Slots, start: BeamState)
    requires Shaped(tokens) && SlotsFor(tokens, slots) && start.text == ""
    requires forall i :: 0 <= i < SlotCount(tokens) ==> i in slots
    ensures Render(tokens) in Texts(Full(PartsOf(tokens), slots, start)) <==> OnOffer(Choices(tokens), slots)
  {
    if tokens == [] {
      assert start in [start];
    } else {
      var n := |tokens| - 1;
      var front, t := tokens[..n], tokens[n];
      AlternatingPrefix(tokens, n);
      SlotsForFront(tokens, slots);
      ChoicesFront(tokens);
      SpelledIff(front, slots, start);
      if t.kind == Word {
        FrontOfLiteral(tokens, slots, start);
      } else {
        FrontOfSlot(tokens, slots, start);
        OnOfferMore(Choices(front), t.value, slots);
      }
    }
  }
}
