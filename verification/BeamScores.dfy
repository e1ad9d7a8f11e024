/**
 What the beam's scores mean (src/intelligence.rs): the full cross-product holds one state for every choice of values,
 scored by what the choice is worth, and the beam lists its states in the order of the final comparison.
 */
module BeamScores {
  import opened Basics
  import opened Orders
  import opened Ranking
  import opened TokenKinds
  import opened BeamSearch
  import opened GrammarTemplates

  /** 20,000 for a value seen in this template, 5,000 for every sighting, 10 for every thousandth of its recency. */
  function Worth(v: GrammarValue): nat {
    (if v.observedInTemplate then 20_000 else 0) + 5_000 * v.observations + 10 * v.temporalScoreMilli
  }

  function TotalWorth(picks: seq<GrammarValue>): nat {
    if picks == [] then 0 else TotalWorth(picks[..|picks| - 1]) + Worth(picks[|picks| - 1])
  }

  // ----- one value -----

  /** A state gains what the value is worth; only the machine's greatest score caps it. */
  lemma ExtendGains(s: BeamState, separator: string, index: nat, v: GrammarValue)
    requires 0 <= s.score <= MAX_I64
    ensures Extend(s, separator, index, v).score == Min(s.score + Worth(v), MAX_I64)
  {
    assert SaturatingMul(v.observations, 5_000) == Min(5_000 * v.observations, MAX_I64);
    assert SaturatingMul(v.temporalScoreMilli, 10) == Min(10 * v.temporalScoreMilli, MAX_I64);
  }

  /** With equal sightings and recency a value seen in the template outranks a transferred one, short of the cap. */
  lemma LocalOutranks(s: BeamState, separator: string, index: nat, local: GrammarValue, other: GrammarValue)
    requires 0 <= s.score <= MAX_I64 && local.observedInTemplate && !other.observedInTemplate
    requires local.observations == other.observations && local.temporalScoreMilli == other.temporalScoreMilli
    ensures Extend(s, separator, index, local).score > Extend(s, separator, index, other).score <==> s.score + Worth(other) < MAX_I64
    ensures s.score + Worth(other) < MAX_I64 ==> Better(Extend(s, separator, index, local), Extend(s, separator, index, other))
  {
    ExtendGains(s, separator, index, local);
    ExtendGains(s, separator, index, other);
  }

  /** A template starts with 100,000 for every label of its support and 100 for every thousandth of its recency. */
  lemma StartScore(support: nat, temporal: nat)
    requires temporal < 0x1_0000
    ensures TemplateScore(support, temporal) == Min(100_000 * support + 100 * temporal, MAX_I64)
  {
  }

  // ----- all choices -----

  /** The slots that the parts name, in order. */
  function SlotIndexes(parts: seq<TemplatePart>): seq<nat> {
    if parts == [] then []
    else
      var front, part := SlotIndexes(parts[..|parts| - 1]), parts[|parts| - 1];
      if part.Slot? then front + [part.slotIndex] else front
  }

  /** One value on offer for every slot. */
  ghost predicate Picks(parts: seq<TemplatePart>, slots: Slots, picks: seq<GrammarValue>) {
    && |picks| == |SlotIndexes(parts)|
    && forall k :: 0 <= k < |picks| ==> SlotIndexes(parts)[k] in slots && picks[k] in slots[SlotIndexes(parts)[k]]
  }

  /** The text of the parts with these values in their slots. */
  function Spelled(parts: seq<TemplatePart>, picks: seq<GrammarValue>): string
    requires |picks| == |SlotIndexes(parts)|
  {
    if parts == [] then ""
    else
      var front, part := parts[..|parts| - 1], parts[|parts| - 1];
      match part
      case Literal(separator, value) => Spelled(front, picks) + separator + value
      case Slot(separator, _, _) => Spelled(front, picks[..|picks| - 1]) + separator + picks[|picks| - 1].value
  }

  function Steps(indexes: seq<nat>, picks: seq<GrammarValue>): seq<PathStep>
    requires |picks| == |indexes|
  {
    seq(|picks|, k requires 0 <= k < |picks| => PathStep(indexes[k], picks[k].value, picks[k].observedInTemplate))
  }

  /** The state of a choice: its text, the start score and what the choice is worth, and its steps. */
  function StateOf(parts: seq<TemplatePart>, start: BeamState, picks: seq<GrammarValue>): BeamState
    requires |picks| == |SlotIndexes(parts)| && 0 <= start.score
  {
    BeamState(start.text + Spelled(parts, picks), Min(start.score + TotalWorth(picks), MAX_I64),
              start.path + Steps(SlotIndexes(parts), picks))
  }

  lemma PicksMore(parts: seq<TemplatePart>, part: TemplatePart, slots: Slots, picks: seq<GrammarValue>, v: GrammarValue)
    requires Picks(parts, slots, picks) && part.Slot? && part.slotIndex in slots && v in slots[part.slotIndex]
    ensures Picks(parts + [part], slots, picks + [v])
  {
    assert (parts + [part])[..|parts|] == parts;
  }

  lemma PicksFront(parts: seq<TemplatePart>, slots: Slots, picks: seq<GrammarValue>)
    requires Picks(parts, slots, picks) && parts != []
    ensures var front, part := parts[..|parts| - 1], parts[|parts| - 1];
            if part.Literal? then Picks(front, slots, picks)
            else picks != [] && Picks(front, slots, picks[..|picks| - 1])
                 && part.slotIndex in slots && picks[|picks| - 1] in slots[part.slotIndex]
  {
    var front, part := parts[..|parts| - 1], parts[|parts| - 1];
    if part.Slot? {
      var n := |picks| - 1;
      assert SlotIndexes(parts)[n] == part.slotIndex;
      forall k | 0 <= k < n ensures SlotIndexes(front)[k] in slots && picks[..n][k] in slots[SlotIndexes(front)[k]] {
        assert SlotIndexes(parts)[k] == SlotIndexes(front)[k];
      }
    }
  }

  lemma StateOfLiteral(parts: seq<TemplatePart>, start: BeamState, picks: seq<GrammarValue>)
    requires parts != [] && parts[|parts| - 1].Literal? && |picks| == |SlotIndexes(parts)| && 0 <= start.score
    ensures var s, part := StateOf(parts[..|parts| - 1], start, picks), parts[|parts| - 1];
            StateOf(parts, start, picks) == s.(text := s.text + (part.separatorBefore + part.value))
  {
  }

  lemma SlotText(parts: seq<TemplatePart>, start: BeamState, picks: seq<GrammarValue>)
    requires parts != [] && parts[|parts| - 1].Slot? && |picks| == |SlotIndexes(parts)|
    ensures start.text + Spelled(parts, picks)
         == start.text + Spelled(parts[..|parts| - 1], picks[..|picks| - 1]) + parts[|parts| - 1].separatorBefore + picks[|picks| - 1].value
  {
    Regrouped(start.text, Spelled(parts[..|parts| - 1], picks[..|picks| - 1]), parts[|parts| - 1].separatorBefore, picks[|picks| - 1].value);
  }

  lemma SlotPath(indexes: seq<nat>, start: BeamState, picks: seq<GrammarValue>)
    requires indexes != [] && |picks| == |indexes|
    ensures var n := |picks| - 1;
            start.path + Steps(indexes, picks) == (
              start.path + Steps(indexes[..n], picks[..n]) + [PathStep(indexes[n], picks[n].value, picks[n].observedInTemplate)])
  {
    var n := |picks| - 1;
    assert indexes == indexes[..n] + [indexes[n]] && picks == picks[..n] + [picks[n]];
    StepsMore(indexes[..n], indexes[n], picks[..n], picks[n]);
  }

  lemma {:induction false} StateOfSlot(parts: seq<TemplatePart>, start: BeamState, picks: seq<GrammarValue>)
    requires parts != [] && parts[|parts| - 1].Slot? && |picks| == |SlotIndexes(parts)| && 0 <= start.score <= MAX_I64
    ensures StateOf(parts, start, picks)
         == Extend(StateOf(parts[..|parts| - 1], start, picks[..|picks| - 1]), parts[|parts| - 1].separatorBefore,
                   parts[|parts| - 1].slotIndex, picks[|picks| - 1])
  {
    var front, part, n := parts[..|parts| - 1], parts[|parts| - 1], |picks| - 1;
    assert SlotIndexes(parts)[..n] == SlotIndexes(front) && SlotIndexes(parts)[n] == part.slotIndex;
    ExtendGains(StateOf(front, start, picks[..n]), part.separatorBefore, part.slotIndex, picks[n]);
    SlotText(parts, start, picks);
    SlotPath(SlotIndexes(parts), start, picks);
  }

  lemma StepsMore(indexes: seq<nat>, index: nat, picks: seq<GrammarValue>, v: GrammarValue)
    requires |picks| == |indexes|
    ensures Steps(indexes + [index], picks + [v]) == Steps(indexes, picks) + [PathStep(index, v.value, v.observedInTemplate)]
  {
  }

  lemma Regrouped(a: string, b: string, c: string, d: string)
    ensures a + (b + c + d) == a + b + c + d
  {
  }

  lemma AppendedMember(f: seq<BeamState>, text: string, x: BeamState) returns (s: BeamState)
    requires x in AppendText(f, text)
    ensures s in f && x == s.(text := s.text + text)
  {
    var i :| 0 <= i < |f| && AppendText(f, text)[i] == x;
    s := f[i];
  }

  lemma AppendedIsMember(f: seq<BeamState>, text: string, s: BeamState)
    requires s in f
    ensures s.(text := s.text + text) in AppendText(f, text)
  {
    var i :| 0 <= i < |f| && f[i] == s;
    assert AppendText(f, text)[i] == s.(text := s.text + text);
  }

  /** Every state of the full cross-product is the state of a choice. */
  lemma {:induction false} FullIsChosen(parts: seq<TemplatePart>, slots: Slots, start: BeamState, x: BeamState)
    returns (picks: seq<GrammarValue>)
    requires 0 <= start.score <= MAX_I64 && x in Full(parts, slots, start)
    ensures Picks(parts, slots, picks) && x == StateOf(parts, start, picks)
  {
    if parts == [] {
      picks := [];
    } else {
      var front, part := parts[..|parts| - 1], parts[|parts| - 1];
      var f := Full(front, slots, start);
      assert parts == front + [part];
      if part.Literal? {
        var s := AppendedMember(f, part.separatorBefore + part.value, x);
        picks := FullIsChosen(front, slots, start, s);
        StateOfLiteral(parts, start, picks);
      } else {
        var values := slots[part.slotIndex];
        ExpandMember(f, part.separatorBefore, part.slotIndex, values, x);
        var s :| s in f && x in Row(s, part.separatorBefore, part.slotIndex, values);
        var j :| 0 <= j < |values| && x == Extend(s, part.separatorBefore, part.slotIndex, values[j]);
        var before := FullIsChosen(front, slots, start, s);
        picks := before + [values[j]];
        PicksMore(front, part, slots, before, values[j]);
        StateOfSlot(parts, start, picks);
        assert picks[..|picks| - 1] == before;
      }
    }
  }

  /** And every choice has its state there. */
  lemma {:induction false} ChoicesAreFull(parts: seq<TemplatePart>, slots: Slots, start: BeamState, picks: seq<GrammarValue>)
    requires 0 <= start.score <= MAX_I64 && Picks(parts, slots, picks)
    ensures StateOf(parts, start, picks) in Full(parts, slots, start)
  {
    if parts == [] {
      assert StateOf(parts, start, picks) == start;
    } else {
      var front, part := parts[..|parts| - 1], parts[|parts| - 1];
      var f := Full(front, slots, start);
      PicksFront(parts, slots, picks);
      if part.Literal? {
        ChoicesAreFull(front, slots, start, picks);
        StateOfLiteral(parts, start, picks);
        AppendedIsMember(f, part.separatorBefore + part.value, StateOf(front, start, picks));
      } else {
        var n, values := |picks| - 1, slots[part.slotIndex];
        ChoicesAreFull(front, slots, start, picks[..n]);
        StateOfSlot(parts, start, picks);
        var s := StateOf(front, start, picks[..n]);
        var j :| 0 <= j < |values| && values[j] == picks[n];
        assert Row(s, part.separatorBefore, part.slotIndex, values)[j] == StateOf(parts, start, picks);
        ExpandMember(f, part.separatorBefore, part.slotIndex, values, StateOf(parts, start, picks));
      }
    }
  }

  /** So the full cross-product holds exactly the states of all choices. */
  lemma FullIsAllChoices(parts: seq<TemplatePart>, slots: Slots, start: BeamState, x: BeamState)
    requires 0 <= start.score <= MAX_I64
    ensures x in Full(parts, slots, start) <==> exists picks :: Picks(parts, slots, picks) && x == StateOf(parts, start, picks)
  {
    if x in Full(parts, slots, start) {
      var picks := FullIsChosen(parts, slots, start, x);
    }
    if picks :| Picks(parts, slots, picks) && x == StateOf(parts, start, picks) {
      ChoicesAreFull(parts, slots, start, picks);
    }
  }

  // ----- the beam -----

  /** The beam never holds a state that is not in the full cross-product. */
  lemma {:induction false} BeamIsWithinFull(parts: seq<TemplatePart>, slots: Slots, w: nat, start: BeamState, x: BeamState)
    requires x in Beam(parts, slots, w, start)
    ensures x in Full(parts, slots, start)
  {
    if parts != [] {
      var front, part := parts[..|parts| - 1], parts[|parts| - 1];
      var b, f := Beam(front, slots, w, start), Full(front, slots, start);
      if part.Literal? {
        var s := AppendedMember(b, part.separatorBefore + part.value, x);
        BeamIsWithinFull(front, slots, w, start, s);
        AppendedIsMember(f, part.separatorBefore + part.value, s);
      } else {
        var values := slots[part.slotIndex];
        var e := Expand(b, part.separatorBefore, part.slotIndex, values);
        DedupMember(Sort(Better, e), x);
        BetterIsWeak();
        SameElements(Better, e, x);
        ExpandMember(b, part.separatorBefore, part.slotIndex, values, x);
        var s :| s in b && x in Row(s, part.separatorBefore, part.slotIndex, values);
        BeamIsWithinFull(front, slots, w, start, s);
        ExpandMember(f, part.separatorBefore, part.slotIndex, values, x);
      }
    }
  }

  lemma {:induction false} DedupMember(xs: seq<BeamState>, x: BeamState)
    requires x in Dedup(xs)
    ensures x in xs
  {
    if |xs| >= 2 && x in Dedup(xs[..|xs| - 1]) {
      DedupMember(xs[..|xs| - 1], x);
    }
  }

  /** A kept label is scored by the values it was made of. */
  lemma KeptIsScoredByItsValues(parts: seq<TemplatePart>, slots: Slots, w: nat, start: BeamState, x: BeamState)
    returns (picks: seq<GrammarValue>)
    requires 0 <= start.score <= MAX_I64 && x in Beam(parts, slots, w, start)
    ensures Picks(parts, slots, picks)
    ensures x.text == start.text + Spelled(parts, picks)
    ensures x.score == Min(start.score + TotalWorth(picks), MAX_I64)
  {
    BeamIsWithinFull(parts, slots, w, start, x);
    picks := FullIsChosen(parts, slots, start, x);
  }

  /** No choice that scores higher than some kept label is forgotten: its score is among the kept ones. */
  lemma BetterChoicesAreKept(parts: seq<TemplatePart>, slots: Slots, w: nat, start: BeamState, picks: seq<GrammarValue>, x: BeamState)
    requires w > 0 && 0 <= start.score <= MAX_I64 && SpellsDistinctly(parts, slots, start)
    requires Picks(parts, slots, picks) && x in Beam(parts, slots, w, start)
    requires Min(start.score + TotalWorth(picks), MAX_I64) > x.score
    ensures Min(start.score + TotalWorth(picks), MAX_I64) in Scores(Beam(parts, slots, w, start))
  {
    var b, f := Beam(parts, slots, w, start), Full(parts, slots, start);
    var y := StateOf(parts, start, picks);
    ChoicesAreFull(parts, slots, start, picks);
    BeamFaithful(parts, slots, w, start);
    ScoreOf(b, x);
    ScoreOf(f, y);
    HigherScoreIsKept(Scores(b), Scores(f), w, y.score, x.score);
  }

  lemma ScoreOf(states: seq<BeamState>, x: BeamState)
    requires x in states
    ensures x.score in Scores(states)
  {
    var i :| 0 <= i < |states| && states[i] == x;
    assert Scores(states)[i] == x.score;
  }

  /** Where b counts like the w best of f, it holds every score of f above some score of its own. */
  lemma HigherScoreIsKept(b: seq<int>, f: seq<int>, w: nat, high: int, low: int)
    requires CountsLikeTop(w, f, b) && high in f && low in b && low < high
    ensures high in b
  {
    var i :| 0 <= i < |b| && b[i] == low;
    var j :| 0 <= j < |f| && f[j] == high;
    CountsBelow(b, high, i);
    CountsAt(f, j);
    assert AtLeast(b, low) == Min(w, AtLeast(f, low));
    assert AtLeast(b, high) == Min(w, AtLeast(f, high));
    assert AtLeast(b, high + 1) == Min(w, AtLeast(f, high + 1));
    if high !in b {
      SameCounts(b, high);
    }
  }

  /** Something at i stays below the threshold, so it is not counted with those that reach it. */
  lemma {:induction false} CountsBelow(xs: seq<int>, t: int, i: nat)
    requires i < |xs| && xs[i] < t
    ensures AtLeast(xs, t) < AtLeast(xs, xs[i])
  {
    if i == 0 {
      CountsShrink(xs[1..], xs[0], t);
    } else {
      CountsBelow(xs[1..], t, i - 1);
    }
  }

  lemma {:induction false} CountsShrink(xs: seq<int>, low: int, high: int)
    requires low <= high
    ensures AtLeast(xs, high) <= AtLeast(xs, low)
  {
    if xs != [] { CountsShrink(xs[1..], low, high); }
  }

  lemma {:induction false} CountsAt(xs: seq<int>, j: nat)
    requires j < |xs|
    ensures AtLeast(xs, xs[j] + 1) < AtLeast(xs, xs[j])
  {
    if j == 0 {
      CountsShrink(xs[1..], xs[0], xs[0] + 1);
    } else {
      CountsAt(xs[1..], j - 1);
    }
  }

  lemma {:induction false} SameCounts(xs: seq<int>, t: int)
    requires t !in xs
    ensures AtLeast(xs, t) == AtLeast(xs, t + 1)
  {
    if xs != [] { SameCounts(xs[1..], t); }
  }

  /** Behind a slot the beam lists higher scores first and equal scores by text, no text twice. */
  lemma {:induction false} BeamIsOrdered(parts: seq<TemplatePart>, slots: Slots, w: nat, start: BeamState, i: nat, j: nat)
    requires parts != [] && parts[|parts| - 1].Slot? && w > 0 && InI64(start.score) && SpellsDistinctly(parts, slots, start)
    requires var b := Beam(parts, slots, w, start); i < j < |b|
    ensures var b := Beam(parts, slots, w, start);
            b[i].score > b[j].score || (b[i].score == b[j].score && CompareStrings(b[i].text, b[j].text) == Less)
  {
    var front, part := parts[..|parts| - 1], parts[|parts| - 1];
    var before := Beam(front, slots, w, start);
    BeamFaithful(front, slots, w, start);
    BeamFaithful(parts, slots, w, start);
    var e := Expand(before, part.separatorBefore, part.slotIndex, slots[part.slotIndex]);
    ExpandDistinct(before, part.separatorBefore, part.slotIndex, slots[part.slotIndex]);
    SortDistinct(e);
    DedupDistinct(Sort(Better, e));
    BetterIsWeak();
    SortSorts(Better, e);
    var b := Beam(parts, slots, w, start);
    assert b == Take(Sort(Better, e), w);
    assert !Better(b[j], b[i]) && b[i].text != b[j].text;
    StringsTotal();
    assert CompareStrings(b[i].text, b[j].text) == CompareStrings(b[j].text, b[i].text).Reverse();
    assert CompareStrings(b[i].text, b[j].text) != Equal;
  }
}
