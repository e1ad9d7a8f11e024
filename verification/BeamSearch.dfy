/**
 The template beam of the candidate generator (src/intelligence.rs). Only beamWidth prefixes survive each
 slot, yet their scores are the beamWidth best scores of the full cross-product.
 */
module BeamSearch {
  import opened Basics
  import opened Orders
  import opened Ranking
  import opened TokenKinds

  const MIN_I64: int := -0x8000_0000_0000_0000
  const MAX_I64: int := 0x7fff_ffff_ffff_ffff

  predicate InI64(x: int) { MIN_I64 <= x <= MAX_I64 }

  function SaturatingAdd(x: int, y: int): int {
    if x + y < MIN_I64 then MIN_I64 else if x + y > MAX_I64 then MAX_I64 else x + y
  }

  datatype GrammarValue = GrammarValue(value: string, observations: nat, observedInTemplate: bool, temporalScoreMilli: nat)

  datatype TemplatePart =
    | Literal(separatorBefore: string, value: string)
    | Slot(separatorBefore: string, kind: TokenKind, slotIndex: nat)

  type Slots = map<nat, seq<GrammarValue>>

  datatype PathStep = PathStep(slotIndex: nat, value: string, local: bool)

  datatype BeamState = BeamState(text: string, score: int, path: seq<PathStep>)

  function SaturatingMul(x: nat, y: nat): int {
    if x * y > MAX_I64 then MAX_I64 else x * y
  }

  function ValueScore(v: GrammarValue): (r: int)
    ensures 0 <= r <= MAX_I64
  {
    SaturatingAdd(
      SaturatingAdd(if v.observedInTemplate then 20_000 else 0, SaturatingMul(v.observations, 5_000)),
      SaturatingMul(v.temporalScoreMilli, 10))
  }

  function Extend(s: BeamState, separator: string, index: nat, v: GrammarValue): BeamState {
    BeamState(s.text + separator + v.value, SaturatingAdd(s.score, ValueScore(v)),
              s.path + [PathStep(index, v.value, v.observedInTemplate)])
  }

  function Row(s: BeamState, separator: string, index: nat, values: seq<GrammarValue>): (r: seq<BeamState>)
    ensures |r| == |values|
  {
    seq(|values|, i requires 0 <= i < |values| => Extend(s, separator, index, values[i]))
  }

  /** Every state extended by every value: the unpruned cross-product of one slot. */
  function Expand(states: seq<BeamState>, separator: string, index: nat, values: seq<GrammarValue>): seq<BeamState> {
    if states == [] then [] else Row(states[0], separator, index, values) + Expand(states[1..], separator, index, values)
  }

  function AppendText(states: seq<BeamState>, text: string): (r: seq<BeamState>)
    ensures |r| == |states|
  {
    seq(|states|, i requires 0 <= i < |states| => states[i].(text := states[i].text + text))
  }

  /** Higher scores first; equal scores by text. */
  predicate Better(l: BeamState, r: BeamState) {
    l.score > r.score || (l.score == r.score && CompareStrings(l.text, r.text) == Less)
  }

  /** Drops a state whose text equals its predecessor's, as `dedup_by` does. */
  function Dedup(states: seq<BeamState>): seq<BeamState> {
    if |states| < 2 then states
    else if states[|states| - 1].text == states[|states| - 2].text then Dedup(states[..|states| - 1])
    else Dedup(states[..|states| - 1]) + [states[|states| - 1]]
  }

  /** The full cross-product of a template, without pruning; a missing slot yields nothing. */
  function Full(parts: seq<TemplatePart>, slots: Slots, start: BeamState): seq<BeamState> {
    if parts == [] then [start]
    else
      var before, part := Full(parts[..|parts| - 1], slots, start), parts[|parts| - 1];
      match part
      case Literal(separator, value) => AppendText(before, separator + value)
      case Slot(separator, _, index) => if index in slots then Expand(before, separator, index, slots[index]) else []
  }

  // ----- the search -----

  method ExpandBeam(beam: seq<BeamState>, separator: string, index: nat, values: seq<GrammarValue>) returns (expanded: seq<BeamState>)
    ensures expanded == Expand(beam, separator, index, values)
  {
    expanded := [];
    for i := 0 to |beam|
      invariant expanded == Expand(beam[..i], separator, index, values)
    {
      ghost var before := expanded;
      for j := 0 to |values|
        invariant expanded == before + Row(beam[i], separator, index, values)[..j]
      {
        expanded := expanded + [Extend(beam[i], separator, index, values[j])];
        assert Row(beam[i], separator, index, values)[..j + 1]
            == Row(beam[i], separator, index, values)[..j] + [Extend(beam[i], separator, index, values[j])];
      }
      assert Row(beam[i], separator, index, values)[..|values|] == Row(beam[i], separator, index, values);
      assert beam[..i + 1] == beam[..i] + [beam[i]];
      ExpandAppend(beam[..i], [beam[i]], separator, index, values);
      assert Expand([beam[i]], separator, index, values) == Row(beam[i], separator, index, values);
    }
    assert beam[..|beam|] == beam;
  }

  lemma {:induction false} ExpandAppend(a: seq<BeamState>, b: seq<BeamState>, separator: string, index: nat, values: seq<GrammarValue>)
    ensures Expand(a + b, separator, index, values) == Expand(a, separator, index, values) + Expand(b, separator, index, values)
  {
    if a == [] {
      assert a + b == b;
    } else {
      ExpandAppend(a[1..], b, separator, index, values);
      assert (a + b)[1..] == a[1..] + b && (a + b)[0] == a[0];
      var row, x, y := Row(a[0], separator, index, values), Expand(a[1..], separator, index, values), Expand(b, separator, index, values);
      assert Expand(a + b, separator, index, values) == row + (x + y);
      assert row + (x + y) == row + x + y;
    }
  }

  /** The beam after the first parts of a template. */
  function Beam(parts: seq<TemplatePart>, slots: Slots, width: nat, start: BeamState): seq<BeamState> {
    if parts == [] then [start]
    else
      var before, part := Beam(parts[..|parts| - 1], slots, width, start), parts[|parts| - 1];
      match part
      case Literal(separator, value) => AppendText(before, separator + value)
      case Slot(separator, _, index) =>
        if index in slots then Take(Dedup(Sort(Better, Expand(before, separator, index, slots[index]))), width) else []
  }

  lemma {:induction false} BeamDead(parts: seq<TemplatePart>, k: nat, slots: Slots, width: nat, start: BeamState)
    requires k <= |parts| && Beam(parts[..k], slots, width, start) == []
    ensures Beam(parts, slots, width, start) == []
    decreases |parts| - k
  {
    if k < |parts| {
      assert parts[..k + 1][..k] == parts[..k];
      BeamDead(parts, k + 1, slots, width, start);
    } else {
      assert parts[..k] == parts;
    }
  }

  method RunBeam(parts: seq<TemplatePart>, slots: Slots, width: nat, start: BeamState) returns (beam: seq<BeamState>)
    ensures beam == Beam(parts, slots, width, start)
  {
    beam := [start];
    for k := 0 to |parts|
      invariant beam == Beam(parts[..k], slots, width, start)
    {
      assert parts[..k + 1][..k] == parts[..k];
      match parts[k] {
        case Literal(separator, value) =>
          beam := AppendText(beam, separator + value);
        case Slot(separator, _, index) =>
          if index !in slots {
            beam := [];
            BeamDead(parts, k + 1, slots, width, start);
            break;
          }
          var expanded := ExpandBeam(beam, separator, index, slots[index]);
          expanded := Sort(Better, expanded);
          expanded := Dedup(expanded);
          beam := Take(expanded, width);
      }
    }
    assert parts[..|parts|] == parts;
  }

  // ----- counting scores -----

  function Scores(states: seq<BeamState>): (r: seq<int>)
    ensures |r| == |states|
  {
    seq(|states|, i requires 0 <= i < |states| => states[i].score)
  }

  /** How many entries reach the threshold t. */
  function AtLeast(xs: seq<int>, t: int): nat {
    if xs == [] then 0 else (if xs[0] >= t then 1 else 0) + AtLeast(xs[1..], t)
  }

  predicate Descending(xs: seq<int>) {
    forall i, j :: 0 <= i < j < |xs| ==> xs[i] >= xs[j]
  }

  lemma {:induction false} AtLeastAppend(a: seq<int>, b: seq<int>, t: int)
    ensures AtLeast(a + b, t) == AtLeast(a, t) + AtLeast(b, t)
  {
    if a == [] {
      assert a + b == b;
    } else {
      AtLeastAppend(a[1..], b, t);
      assert (a + b)[1..] == a[1..] + b;
    }
  }

  lemma {:induction false} AtLeastAll(xs: seq<int>, t: int)
    requires forall i :: 0 <= i < |xs| ==> xs[i] >= t
    ensures AtLeast(xs, t) == |xs|
  {
    if xs != [] { AtLeastAll(xs[1..], t); }
  }

  lemma {:induction false} AtLeastNone(xs: seq<int>, t: int)
    requires forall i :: 0 <= i < |xs| ==> xs[i] < t
    ensures AtLeast(xs, t) == 0
  {
    if xs != [] { AtLeastNone(xs[1..], t); }
  }

  lemma {:induction false} AtLeastBound(xs: seq<int>, t: int)
    ensures AtLeast(xs, t) <= |xs|
  {
    if xs != [] { AtLeastBound(xs[1..], t); }
  }

  /** Truncating a descending sequence caps every count. */
  lemma AtLeastTake(xs: seq<int>, k: nat, t: int)
    requires Descending(xs)
    ensures AtLeast(Take(xs, k), t) == Min(k, AtLeast(xs, t))
  {
    var a, b := Take(xs, k), xs[Min(k, |xs|)..];
    assert xs == a + b;
    AtLeastAppend(a, b, t);
    AtLeastBound(a, t);
    if a != [] && a[|a| - 1] < t {
      AtLeastNone(b, t);
    } else {
      AtLeastAll(a, t);
      if |xs| <= k { assert b == []; }
    }
  }

  lemma HeadCounts(a: seq<int>)
    ensures a != [] ==> AtLeast(a, a[0]) >= 1
    ensures forall t :: AtLeast([], t) == 0
  {
  }

  /** Descending sequences with equal counts are equal. */
  lemma {:induction false} CountsDetermine(a: seq<int>, b: seq<int>)
    requires Descending(a) && Descending(b)
    requires forall t :: AtLeast(a, t) == AtLeast(b, t)
    ensures a == b
  {
    HeadCounts(a);
    HeadCounts(b);
    if a != [] && b != [] {
      HeadsAgree(a, b);
      HeadsAgree(b, a);
      forall t ensures AtLeast(a[1..], t) == AtLeast(b[1..], t) {
        assert AtLeast(a, t) == AtLeast(b, t);
      }
      CountsDetermine(a[1..], b[1..]);
      assert a == [a[0]] + a[1..] && b == [b[0]] + b[1..];
    }
  }

  lemma HeadsAgree(a: seq<int>, b: seq<int>)
    requires a != [] && b != [] && Descending(b)
    requires forall t :: AtLeast(a, t) == AtLeast(b, t)
    ensures a[0] <= b[0]
  {
    assert AtLeast(a, a[0]) >= 1;
    if b[0] < a[0] {
      AtLeastNone(b, a[0]);
    }
  }

  lemma {:induction false} InsertCounts(x: BeamState, r: seq<BeamState>, t: int)
    ensures AtLeast(Scores(Insert(Better, x, r)), t) == (if x.score >= t then 1 else 0) + AtLeast(Scores(r), t)
  {
    var out := Insert(Better, x, r);
    if r == [] || !Better(r[0], x) {
      assert Scores(out)[1..] == Scores(r);
    } else {
      InsertCounts(x, r[1..], t);
      assert Scores(out)[1..] == Scores(Insert(Better, x, r[1..]));
      assert Scores(r)[1..] == Scores(r[1..]);
    }
  }

  lemma {:induction false} SortCounts(xs: seq<BeamState>, t: int)
    ensures AtLeast(Scores(Sort(Better, xs)), t) == AtLeast(Scores(xs), t)
  {
    if xs != [] {
      SortCounts(xs[1..], t);
      InsertCounts(xs[0], Sort(Better, xs[1..]), t);
      assert Scores(xs)[1..] == Scores(xs[1..]);
    }
  }

  lemma BetterIsWeak()
    ensures WeakOrder(Better)
  {
    StringsTotal();
    forall x, y ensures Better(x, y) ==> !Better(y, x) {
      assert CompareStrings(x.text, y.text) == CompareStrings(y.text, x.text).Reverse();
    }
    forall x, y, z | !Better(y, x) && !Better(z, y) ensures !Better(z, x) {
      assert CompareStrings(x.text, y.text) == CompareStrings(y.text, x.text).Reverse();
      assert CompareStrings(y.text, z.text) == CompareStrings(z.text, y.text).Reverse();
      assert CompareStrings(x.text, z.text) == CompareStrings(z.text, x.text).Reverse();
      assert CompareStrings(x.text, y.text) == Equal ==> x.text == y.text;
      assert CompareStrings(y.text, z.text) == Equal ==> y.text == z.text;
    }
  }

  lemma SortDescends(xs: seq<BeamState>)
    ensures Descending(Scores(Sort(Better, xs)))
  {
    BetterIsWeak();
    SortSorts(Better, xs);
    var r := Sort(Better, xs);
    forall i, j | 0 <= i < j < |r| ensures Scores(r)[i] >= Scores(r)[j] {
      assert !Better(r[j], r[i]);
    }
  }

  // ----- one slot -----

  /** The number of states that reach t once v is added depends on one threshold only. */
  function Threshold(v: int, t: int): int {
    if t <= MIN_I64 then MIN_I64 else if t > MAX_I64 then MAX_I64 + 1 else t - v
  }

  /** Counts of the cross-product of one slot, value by value. */
  function Cross(xs: seq<int>, values: seq<GrammarValue>, t: int): nat {
    if values == [] then 0 else AtLeast(xs, Threshold(ValueScore(values[0]), t)) + Cross(xs, values[1..], t)
  }

  predicate AllInI64(xs: seq<int>) { forall i :: 0 <= i < |xs| ==> InI64(xs[i]) }

  lemma {:induction false} CrossCons(x: int, xs: seq<int>, values: seq<GrammarValue>, t: int)
    ensures Cross([x] + xs, values, t) == Cross([x], values, t) + Cross(xs, values, t)
  {
    if values != [] {
      CrossCons(x, xs, values[1..], t);
      AtLeastAppend([x], xs, Threshold(ValueScore(values[0]), t));
    }
  }

  lemma {:induction false} CrossEmpty(values: seq<GrammarValue>, t: int)
    ensures Cross([], values, t) == 0
  {
    if values != [] { CrossEmpty(values[1..], t); }
  }

  lemma {:induction false} RowCounts(s: BeamState, separator: string, index: nat, values: seq<GrammarValue>, t: int)
    requires InI64(s.score)
    ensures AtLeast(Scores(Row(s, separator, index, values)), t) == Cross([s.score], values, t)
  {
    var row := Row(s, separator, index, values);
    if values == [] {
      assert Scores(row) == [];
    } else {
      var u := Threshold(ValueScore(values[0]), t);
      RowCounts(s, separator, index, values[1..], t);
      assert Scores(row)[1..] == Scores(Row(s, separator, index, values[1..]));
      assert Scores(row)[0] == SaturatingAdd(s.score, ValueScore(values[0]));
      assert AtLeast([s.score], u) == if s.score >= u then 1 else 0;
    }
  }

  lemma ScoresAppend(a: seq<BeamState>, b: seq<BeamState>)
    ensures Scores(a + b) == Scores(a) + Scores(b)
  {
  }

  lemma {:induction false} ExpandCounts(states: seq<BeamState>, separator: string, index: nat, values: seq<GrammarValue>, t: int)
    requires AllInI64(Scores(states))
    ensures AtLeast(Scores(Expand(states, separator, index, values)), t) == Cross(Scores(states), values, t)
  {
    if states == [] {
      assert Scores(states) == [] && Scores(Expand(states, separator, index, values)) == [];
      CrossEmpty(values, t);
    } else {
      var head, tail := states[0], states[1..];
      ScoresAppend([head], tail);
      assert states == [head] + tail && Scores([head]) == [head.score];
      var row, rest := Row(head, separator, index, values), Expand(tail, separator, index, values);
      assert Scores(states)[0] == head.score && Scores(states)[1..] == Scores(tail);
      calc {
        AtLeast(Scores(row + rest), t);
        { ScoresAppend(row, rest); AtLeastAppend(Scores(row), Scores(rest), t); }
        AtLeast(Scores(row), t) + AtLeast(Scores(rest), t);
        { RowCounts(head, separator, index, values, t); ExpandCounts(tail, separator, index, values, t); }
        Cross([head.score], values, t) + Cross(Scores(tail), values, t);
        { CrossCons(head.score, Scores(tail), values, t); }
        Cross(Scores(states), values, t);
      }
    }
  }

  /** b counts like the w best of f. */
  ghost predicate CountsLikeTop(w: nat, f: seq<int>, b: seq<int>) {
    forall t :: AtLeast(b, t) == Min(w, AtLeast(f, t))
  }

  /** The exchange argument: a dropped prefix is outscored, value by value, by w kept ones. */
  lemma {:induction false} CrossOfTop(w: nat, f: seq<int>, b: seq<int>, values: seq<GrammarValue>, t: int)
    requires CountsLikeTop(w, f, b)
    ensures Min(w, Cross(b, values, t)) == Min(w, Cross(f, values, t))
    ensures Cross(b, values, t) <= Cross(f, values, t)
  {
    if values != [] {
      CrossOfTop(w, f, b, values[1..], t);
      var u := Threshold(ValueScore(values[0]), t);
      assert AtLeast(b, u) == Min(w, AtLeast(f, u));
    }
  }

  // ----- distinct choices spell distinct texts -----

  function Texts(states: seq<BeamState>): set<string> { set s | s in states :: s.text }

  predicate DistinctValues(values: seq<GrammarValue>) {
    forall i, j :: 0 <= i < j < |values| ==> values[i].value != values[j].value
  }

  /** Appending the separator and a value to any of the texts can be read back in one way only. */
  ghost predicate Unambiguous(texts: set<string>, separator: string, values: seq<GrammarValue>) {
    && DistinctValues(values)
    && forall a, b, i, j ::
         (a in texts && b in texts && 0 <= i < |values| && 0 <= j < |values|
          && a + separator + values[i].value == b + separator + values[j].value) ==> a == b && i == j
  }

  /** At every slot the choices made so far spell distinct texts. */
  ghost predicate SpellsDistinctly(parts: seq<TemplatePart>, slots: Slots, start: BeamState) {
    parts != [] ==>
      && SpellsDistinctly(parts[..|parts| - 1], slots, start)
      && var part := parts[|parts| - 1];
         (part.Slot? && part.slotIndex in slots ==>
           Unambiguous(Texts(Full(parts[..|parts| - 1], slots, start)), part.separatorBefore, slots[part.slotIndex]))
  }

  predicate DistinctTexts(states: seq<BeamState>) {
    forall i, j :: 0 <= i < j < |states| ==> states[i].text != states[j].text
  }

  lemma {:induction false} ExpandMember(states: seq<BeamState>, separator: string, index: nat, values: seq<GrammarValue>, x: BeamState)
    ensures x in Expand(states, separator, index, values) <==>
            exists s :: s in states && x in Row(s, separator, index, values)
  {
    if states != [] {
      ExpandMember(states[1..], separator, index, values, x);
      assert states == [states[0]] + states[1..];
    }
  }

  lemma {:induction false} ExpandDistinct(states: seq<BeamState>, separator: string, index: nat, values: seq<GrammarValue>)
    requires DistinctTexts(states) && Unambiguous(Texts(states), separator, values)
    ensures DistinctTexts(Expand(states, separator, index, values))
  {
    if states != [] {
      var row, rest := Row(states[0], separator, index, values), Expand(states[1..], separator, index, values);
      assert Texts(states[1..]) <= Texts(states);
      ExpandDistinct(states[1..], separator, index, values);
      var head := states[0].text;
      assert head in Texts(states);
      var all := Expand(states, separator, index, values);
      forall i, j | 0 <= i < j < |all| ensures all[i].text != all[j].text {
        if i < |row| {
          if j < |row| {
            assert all[i].text == head + separator + values[i].value && all[j].text == head + separator + values[j].value;
          } else {
            assert all[j] == rest[j - |row|] && all[j] in rest;
            ExpandMember(states[1..], separator, index, values, all[j]);
            var s :| s in states[1..] && all[j] in Row(s, separator, index, values);
            var m :| 0 <= m < |values| && all[j] == Extend(s, separator, index, values[m]);
            assert s.text in Texts(states) && s.text != head;
          }
        } else {
          assert all[i] == rest[i - |row|] && all[j] == rest[j - |row|];
        }
      }
    }
  }

  lemma HeadIsNew(r: seq<BeamState>)
    requires r != [] && DistinctTexts(r)
    ensures r[0].text !in Texts(r[1..]) && Texts(r) == {r[0].text} + Texts(r[1..])
  {
    assert r == [r[0]] + r[1..];
    forall s | s in r[1..] ensures s.text != r[0].text {
      var i :| 1 <= i < |r| && r[i] == s;
    }
  }

  lemma {:induction false} InsertDistinct(x: BeamState, r: seq<BeamState>)
    requires DistinctTexts(r) && x.text !in Texts(r)
    ensures DistinctTexts(Insert(Better, x, r)) && Texts(Insert(Better, x, r)) == {x.text} + Texts(r)
  {
    if r == [] || !Better(r[0], x) {
    } else {
      HeadIsNew(r);
      InsertDistinct(x, r[1..]);
    }
  }

  lemma {:induction false} SortDistinct(xs: seq<BeamState>)
    requires DistinctTexts(xs)
    ensures DistinctTexts(Sort(Better, xs)) && Texts(Sort(Better, xs)) == Texts(xs)
  {
    if xs != [] {
      SortDistinct(xs[1..]);
      assert xs == [xs[0]] + xs[1..];
      assert Texts(xs) == {xs[0].text} + Texts(xs[1..]);
      assert xs[0].text !in Texts(xs[1..]);
      InsertDistinct(xs[0], Sort(Better, xs[1..]));
    }
  }

  lemma {:induction false} DedupDistinct(xs: seq<BeamState>)
    requires DistinctTexts(xs)
    ensures Dedup(xs) == xs
  {
    if |xs| >= 2 {
      DedupDistinct(xs[..|xs| - 1]);
    }
  }

  // ----- the theorem -----

  lemma TextsAppend(b: seq<BeamState>, f: seq<BeamState>, text: string)
    requires Texts(b) <= Texts(f)
    ensures Texts(AppendText(b, text)) <= Texts(AppendText(f, text))
  {
    forall x | x in AppendText(b, text) ensures x.text in Texts(AppendText(f, text)) {
      var i :| 0 <= i < |b| && x == AppendText(b, text)[i];
      assert b[i].text in Texts(f);
      var s :| s in f && s.text == b[i].text;
      var j :| 0 <= j < |f| && f[j] == s;
      assert AppendText(f, text)[j].text == x.text;
      assert AppendText(f, text)[j] in AppendText(f, text);
    }
  }

  lemma TextsExpand(b: seq<BeamState>, f: seq<BeamState>, separator: string, index: nat, values: seq<GrammarValue>)
    requires Texts(b) <= Texts(f)
    ensures Texts(Expand(b, separator, index, values)) <= Texts(Expand(f, separator, index, values))
  {
    forall x | x in Expand(b, separator, index, values) ensures x.text in Texts(Expand(f, separator, index, values)) {
      ExpandMember(b, separator, index, values, x);
      var s :| s in b && x in Row(s, separator, index, values);
      var j :| 0 <= j < |values| && x == Extend(s, separator, index, values[j]);
      assert s.text in Texts(f);
      var g :| g in f && g.text == s.text;
      var y := Row(g, separator, index, values)[j];
      ExpandMember(f, separator, index, values, y);
      assert y.text == x.text;
    }
  }

  lemma {:induction false} ExpandInRange(states: seq<BeamState>, separator: string, index: nat, values: seq<GrammarValue>)
    requires AllInI64(Scores(states))
    ensures AllInI64(Scores(Expand(states, separator, index, values)))
  {
    var out := Expand(states, separator, index, values);
    forall i | 0 <= i < |out| ensures InI64(Scores(out)[i]) {
      ExpandMember(states, separator, index, values, out[i]);
    }
  }

  lemma {:induction false} FullInRange(parts: seq<TemplatePart>, slots: Slots, start: BeamState)
    requires InI64(start.score)
    ensures AllInI64(Scores(Full(parts, slots, start)))
  {
    if parts != [] {
      FullInRange(parts[..|parts| - 1], slots, start);
      var f, part := Full(parts[..|parts| - 1], slots, start), parts[|parts| - 1];
      if part.Slot? && part.slotIndex in slots {
        ExpandInRange(f, part.separatorBefore, part.slotIndex, slots[part.slotIndex]);
      } else if part.Literal? {
        assert Scores(AppendText(f, part.separatorBefore + part.value)) == Scores(f);
      }
    }
  }

  /** What the beam keeps, relative to the full cross-product. */
  ghost predicate Faithful(w: nat, f: seq<BeamState>, b: seq<BeamState>) {
    && AllInI64(Scores(b))
    && CountsLikeTop(w, Scores(f), Scores(b))
    && DistinctTexts(b)
    && Texts(b) <= Texts(f)
  }

  lemma FaithfulLiteral(w: nat, f: seq<BeamState>, b: seq<BeamState>, text: string)
    requires Faithful(w, f, b)
    ensures Faithful(w, AppendText(f, text), AppendText(b, text))
  {
    assert Scores(AppendText(f, text)) == Scores(f) && Scores(AppendText(b, text)) == Scores(b);
    TextsAppend(b, f, text);
    var c := AppendText(b, text);
    forall i, j | 0 <= i < j < |c| ensures c[i].text != c[j].text {
      assert b[i].text == c[i].text[..|c[i].text| - |text|] && b[j].text == c[j].text[..|c[j].text| - |text|];
    }
  }

  lemma FaithfulSlot(w: nat, f: seq<BeamState>, b: seq<BeamState>, separator: string, index: nat, values: seq<GrammarValue>)
    requires AllInI64(Scores(f)) && Faithful(w, f, b)
    requires Unambiguous(Texts(f), separator, values)
    ensures var kept := Take(Dedup(Sort(Better, Expand(b, separator, index, values))), w);
            Faithful(w, Expand(f, separator, index, values), kept) && Descending(Scores(kept))
  {
    var e := Expand(b, separator, index, values);
    var s := Sort(Better, e);
    var kept := Take(s, w);
    ExpandDistinct(b, separator, index, values);
    SortDistinct(e);
    DedupDistinct(s);
    ExpandInRange(b, separator, index, values);
    SortDescends(e);
    assert Scores(kept) == Take(Scores(s), w);
    forall t ensures AtLeast(Scores(kept), t) == Min(w, AtLeast(Scores(Expand(f, separator, index, values)), t)) {
      AtLeastTake(Scores(s), w, t);
      SortCounts(e, t);
      ExpandCounts(b, separator, index, values, t);
      ExpandCounts(f, separator, index, values, t);
      CrossOfTop(w, Scores(f), Scores(b), values, t);
    }
    TextsExpand(b, f, separator, index, values);
    forall x | x in kept ensures x.text in Texts(Expand(f, separator, index, values)) && InI64(x.score) {
      BetterIsWeak();
      SameElements(Better, e, x);
      assert x.text in Texts(s);
      var i :| 0 <= i < |e| && e[i] == x;
      assert Scores(e)[i] == x.score;
    }
  }

  lemma {:induction false} BeamFaithful(parts: seq<TemplatePart>, slots: Slots, w: nat, start: BeamState)
    requires w > 0 && InI64(start.score) && SpellsDistinctly(parts, slots, start)
    ensures Faithful(w, Full(parts, slots, start), Beam(parts, slots, w, start))
    ensures Descending(Scores(Beam(parts, slots, w, start)))
  {
    if parts == [] {
      forall t ensures AtLeast(Scores([start]), t) == Min(w, AtLeast(Scores([start]), t)) {
        AtLeastBound(Scores([start]), t);
      }
    } else {
      var front, part := parts[..|parts| - 1], parts[|parts| - 1];
      BeamFaithful(front, slots, w, start);
      FullInRange(front, slots, start);
      var f, b := Full(front, slots, start), Beam(front, slots, w, start);
      match part {
        case Literal(separator, value) =>
          FaithfulLiteral(w, f, b, separator + value);
          assert Scores(AppendText(b, separator + value)) == Scores(b);
        case Slot(separator, _, index) =>
          if index in slots {
            FaithfulSlot(w, f, b, separator, index, slots[index]);
          }
      }
    }
  }

  predicate Higher(x: int, y: int) { x > y }

  lemma {:induction false} InsertIntCounts(x: int, r: seq<int>, t: int)
    ensures AtLeast(Insert(Higher, x, r), t) == (if x >= t then 1 else 0) + AtLeast(r, t)
  {
    if r != [] && Higher(r[0], x) {
      InsertIntCounts(x, r[1..], t);
    }
  }

  lemma {:induction false} SortIntCounts(xs: seq<int>, t: int)
    ensures AtLeast(Sort(Higher, xs), t) == AtLeast(xs, t)
  {
    if xs != [] {
      SortIntCounts(xs[1..], t);
      InsertIntCounts(xs[0], Sort(Higher, xs[1..]), t);
    }
  }

  /** The best scores of the full cross-product, in descending order. */
  function TopScores(w: nat, states: seq<BeamState>): seq<int> {
    Take(Sort(Higher, Scores(states)), w)
  }

  /**
   After any parts of a template the beam's scores are exactly the w best scores of the full cross-product, although the
   beam never looked at the prefixes it dropped earlier.
   */
  lemma BeamIsExact(parts: seq<TemplatePart>, slots: Slots, w: nat, start: BeamState)
    requires w > 0 && InI64(start.score) && SpellsDistinctly(parts, slots, start)
    ensures Scores(Beam(parts, slots, w, start)) == TopScores(w, Full(parts, slots, start))
  {
    BeamFaithful(parts, slots, w, start);
    var full := Scores(Full(parts, slots, start));
    SortSorts(Higher, full);
    var sorted := Sort(Higher, full);
    forall i, j | 0 <= i < j < |sorted| ensures sorted[i] >= sorted[j] { assert !Higher(sorted[j], sorted[i]); }
    forall t ensures AtLeast(Take(sorted, w), t) == AtLeast(Scores(Beam(parts, slots, w, start)), t) {
      AtLeastTake(sorted, w, t);
      SortIntCounts(full, t);
    }
    CountsDetermine(Take(sorted, w), Scores(Beam(parts, slots, w, start)));
  }
}
