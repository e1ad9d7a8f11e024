/**
 What a mutation pattern stands for (src/candidate.rs, expand_mutation_pattern): every way of putting one value of each
 list for its placeholder, everywhere in the pattern.
 */
module ExpansionMeaning {
  import opened Ranking
  import opened Hostnames
  import opened Substitution
  import opened PatternExpansion
  import HostnameRules
  import Compaction

  // ----- patterns by their pieces -----

  /** A pattern is made of plain text and of placeholders. */
  datatype Piece = Text(text: string) | Hole(name: string)

  predicate PlainPiece(p: Piece) {
    match p case Text(text) => BraceFree(text) case Hole(name) => name != "" && BraceFree(name)
  }

  predicate Plain(pieces: seq<Piece>) {
    forall k :: 0 <= k < |pieces| ==> PlainPiece(pieces[k])
  }

  /** What a piece becomes when some placeholders have values; the others stay. */
  function SpellPiece(p: Piece, values: map<string, string>): string {
    match p case Text(text) => text case Hole(name) => if name in values then values[name] else Mark(name)
  }

  function Spell(pieces: seq<Piece>, values: map<string, string>): string {
    if pieces == [] then "" else SpellPiece(pieces[0], values) + Spell(pieces[1..], values)
  }

  ghost predicate PlainValues(values: map<string, string>) {
    forall name :: name in values ==> BraceFree(values[name])
  }

  /** Replacing goes over a text in which nothing begins. */
  lemma {:induction false} SkipsOver(a: string, rest: string, m: string, v: string)
    requires m != "" && forall i :: 0 <= i < |a| ==> !OccursAt(a + rest, m, i)
    ensures Replace(a + rest, m, v) == a + Replace(rest, m, v)
  {
    var s := a + rest;
    if a == "" {
      assert s == rest;
    } else {
      assert !OccursAt(s, m, 0);
      assert s[1..] == a[1..] + rest && s == [s[0]] + s[1..];
      forall i | 0 <= i < |a[1..]| ensures !OccursAt(a[1..] + rest, m, i) {
        OccursLater([s[0]], s[1..], m, i);
        assert !OccursAt(s, m, i + 1);
      }
      SkipsOver(a[1..], rest, m, v);
    }
  }

  lemma PlainTextIsSkipped(a: string, rest: string, name: string, v: string)
    requires BraceFree(a)
    ensures Replace(a + rest, Mark(name), v) == a + Replace(rest, Mark(name), v)
  {
    forall i | 0 <= i < |a| ensures !OccursAt(a + rest, Mark(name), i) {
      if OccursAt(a + rest, Mark(name), i) { MarkChars(a + rest, name, i); }
    }
    SkipsOver(a, rest, Mark(name), v);
  }

  lemma OtherMarkIsSkipped(other: string, rest: string, name: string, v: string)
    requires other != name && other != "" && name != "" && BraceFree(other) && BraceFree(name)
    ensures Replace(Mark(other) + rest, Mark(name), v) == Mark(other) + Replace(rest, Mark(name), v)
  {
    var s := Mark(other) + rest;
    assert OccursAt(s, Mark(other), 0);
    forall i | 0 <= i < |Mark(other)| ensures !OccursAt(s, Mark(name), i) {
      if OccursAt(s, Mark(name), i) { MarksAreApart(s, name, i, other, 0); }
    }
    SkipsOver(Mark(other), rest, Mark(name), v);
  }

  lemma MarkIsReplaced(rest: string, name: string, v: string)
    ensures Replace(Mark(name) + rest, Mark(name), v) == v + Replace(rest, Mark(name), v)
  {
    assert (Mark(name) + rest)[|Mark(name)|..] == rest;
  }

  /** Filling in one more placeholder gives it its value wherever it stands, and touches nothing else. */
  lemma {:induction false} FillsEverywhere(pieces: seq<Piece>, values: map<string, string>, name: string, v: string)
    requires Plain(pieces) && PlainValues(values) && name !in values && name != "" && BraceFree(name)
    ensures Replace(Spell(pieces, values), Mark(name), v) == Spell(pieces, values[name := v])
  {
    if pieces != [] {
      var p, rest := pieces[0], Spell(pieces[1..], values);
      FillsEverywhere(pieces[1..], values, name, v);
      assert PlainPiece(p);
      if p == Hole(name) {
        MarkIsReplaced(rest, name, v);
      } else if p.Hole? && p.name !in values {
        OtherMarkIsSkipped(p.name, rest, name, v);
      } else {
        PlainTextIsSkipped(SpellPiece(p, values), rest, name, v);
      }
    }
  }

  // ----- the complete expansion -----

  /** One value for every stage. */
  ghost predicate Chosen(stages: seq<Stage>, values: seq<string>) {
    |values| == |stages| && forall k :: 0 <= k < |stages| ==> values[k] in stages[k].values
  }

  function Fill(start: string, stages: seq<Stage>, values: seq<string>): string
    requires |values| == |stages|
  {
    if stages == [] then start
    else
      var n := |stages| - 1;
      Put(Fill(start, stages[..n], values[..n]), stages[n], values[n])
  }

  lemma {:induction false} NothingToReplace(s: string, p: string, v: string)
    requires p != "" && !Contains(s, p)
    ensures Replace(s, p, v) == s
  {
    if s != "" {
      assert !OccursAt(s, p, 0);
      if Contains(s[1..], p) { ContainsEither([s[0]], s[1..], p); }
      assert s == [s[0]] + s[1..];
      NothingToReplace(s[1..], p, v);
    }
  }

  lemma {:induction false} CrossHolds(texts: seq<string>, stage: Stage, text: string, v: string)
    requires text in texts && v in stage.values
    ensures Put(text, stage, v) in Cross(texts, stage)
  {
    var front, last := texts[..|texts| - 1], texts[|texts| - 1];
    if text in front {
      CrossHolds(front, stage, text, v);
    } else {
      var i :| 0 <= i < |stage.values| && stage.values[i] == v;
      assert Row(last, stage)[i] == Put(text, stage, v);
    }
  }

  /** A stage gives every text with every value; where no text holds the placeholder, putting a value changes nothing. */
  lemma ThroughMeans(texts: seq<string>, stage: Stage, text: string)
    requires stage.values != []
    ensures text in Through(texts, stage) <==> exists from, v :: from in texts && v in stage.values && text == Put(from, stage, v)
  {
    if AnyHolds(texts, stage) {
      if text in Cross(texts, stage) {
        var from, v := CrossElement(texts, stage, text);
      }
      forall from, v | from in texts && v in stage.values && text == Put(from, stage, v) ensures text in Cross(texts, stage) {
        CrossHolds(texts, stage, from, v);
      }
    } else {
      forall from, v | from in texts ensures Put(from, stage, v) == from {
        NothingToReplace(from, Mark(stage.name), v);
      }
      if text in texts { assert stage.values[0] in stage.values && text == Put(text, stage, stage.values[0]); }
    }
  }

  lemma ChosenMore(stages: seq<Stage>, values: seq<string>, v: string)
    requires stages != [] && Chosen(stages[..|stages| - 1], values) && v in stages[|stages| - 1].values
    ensures Chosen(stages, values + [v]) && (values + [v])[..|stages| - 1] == values
  {
  }

  lemma {:induction false} FullIsFilled(start: string, stages: seq<Stage>, text: string) returns (values: seq<string>)
    requires HaveValues(stages) && text in Full(start, stages)
    ensures Chosen(stages, values) && text == Fill(start, stages, values)
  {
    if stages == [] {
      values := [];
    } else {
      var n := |stages| - 1;
      ThroughMeans(Full(start, stages[..n]), stages[n], text);
      var from, v :| from in Full(start, stages[..n]) && v in stages[n].values && text == Put(from, stages[n], v);
      var front := FullIsFilled(start, stages[..n], from);
      ChosenMore(stages, front, v);
      values := front + [v];
    }
  }

  lemma {:induction false} FilledIsFull(start: string, stages: seq<Stage>, values: seq<string>)
    requires HaveValues(stages) && Chosen(stages, values)
    ensures Fill(start, stages, values) in Full(start, stages)
  {
    if stages != [] {
      var n := |stages| - 1;
      FilledIsFull(start, stages[..n], values[..n]);
      ThroughMeans(Full(start, stages[..n]), stages[n], Fill(start, stages, values));
    }
  }

  /** The complete expansion holds exactly the texts that some choice of one value for every stage gives. */
  lemma {:induction false} FullIsEveryFilling(start: string, stages: seq<Stage>, text: string)
    requires HaveValues(stages)
    ensures text in Full(start, stages) <==> exists values :: Chosen(stages, values) && text == Fill(start, stages, values)
  {
    if text in Full(start, stages) {
      var values := FullIsFilled(start, stages, text);
    }
    if values :| Chosen(stages, values) && text == Fill(start, stages, values) {
      FilledIsFull(start, stages, values);
    }
  }

  // ----- the program's placeholders -----

  /** The values of the placeholders that a pattern can use. */
  function Assigned(word: string, parent: string, env: string, region: string, cloud: string, n: string): map<string, string> {
    map["word" := word, "parent" := parent, "env" := env, "region" := region, "cloud" := cloud, "n" := n]
  }

  lemma StartIsSpelled(pieces: seq<Piece>, word: string, parent: string)
    requires Plain(pieces) && BraceFree(word)
    ensures Start(Spell(pieces, map[]), word, parent) == Spell(pieces, map["word" := word, "parent" := parent])
  {
    assert BraceFree("word") && BraceFree("parent");
    FillsEverywhere(pieces, map[], "word", word);
    FillsEverywhere(pieces, map["word" := word], "parent", parent);
    assert map["word" := word]["parent" := parent] == map["word" := word, "parent" := parent];
  }

  /** What filling in the four lists after word and parent gives. */
  lemma FillIsSpelled(pieces: seq<Piece>, word: string, parent: string, values: seq<string>)
    requires Plain(pieces) && BraceFree(word) && BraceFree(parent) && Chosen(Stages(), values)
    ensures Fill(Start(Spell(pieces, map[]), word, parent), Stages(), values)
            == Spell(pieces, Assigned(word, parent, values[0], values[1], values[2], values[3]))
  {
    var s, start := Stages(), Start(Spell(pieces, map[]), word, parent);
    StagesAreOrderly();
    assert BraceFree("env") && BraceFree("region") && BraceFree("cloud") && BraceFree("n");
    StartIsSpelled(pieces, word, parent);
    var m0 := map["word" := word, "parent" := parent];
    var m1 := m0["env" := values[0]];
    var m2 := m1["region" := values[1]];
    var m3 := m2["cloud" := values[2]];
    assert KeepsApart(s[0], s[3]) && KeepsApart(s[1], s[3]) && KeepsApart(s[2], s[3]);
    FillsEverywhere(pieces, m0, "env", values[0]);
    FillsEverywhere(pieces, m1, "region", values[1]);
    FillsEverywhere(pieces, m2, "cloud", values[2]);
    FillsEverywhere(pieces, m3, "n", values[3]);
    FourFills(start, values);
    assert m3["n" := values[3]] == Assigned(word, parent, values[0], values[1], values[2], values[3]);
  }

  lemma FourFills(start: string, values: seq<string>)
    requires |values| == 4
    ensures Fill(start, Stages(), values)
            == Replace(Replace(Replace(Replace(start, Mark("env"), values[0]), Mark("region"), values[1]), Mark("cloud"), values[2]),
                       Mark("n"), values[3])
  {
    var s := Stages();
    assert s[..3][..2] == s[..2] && s[..2][..1] == s[..1] && s[..1][..0] == [];
    assert values[..3][..2] == values[..2] && values[..2][..1] == values[..1];
    assert Fill(start, s[..1], values[..1]) == Put(start, s[0], values[0]);
    assert Fill(start, s[..2], values[..2]) == Put(Fill(start, s[..1], values[..1]), s[1], values[1]);
    assert Fill(start, s[..3], values[..3]) == Put(Fill(start, s[..2], values[..2]), s[2], values[2]);
  }

  /**
   A pattern expands to exactly these texts: its pieces with the word, the parent, and one environment, region, cloud and
   number each, wherever they are asked for; placeholders of other names stay as they are.
   */
  lemma {:induction false} PatternMeans(pieces: seq<Piece>, word: string, parent: string, text: string)
    requires Plain(pieces) && BraceFree(word) && BraceFree(parent)
    ensures text in Expansions(Spell(pieces, map[]), word, parent) <==>
            exists env, region, cloud, n ::
              && env in Environments() && region in Regions() && cloud in Clouds() && n in Numbers()
              && text == Tidied(Spell(pieces, Assigned(word, parent, env, region, cloud, n)))
  {
    var start, all := Start(Spell(pieces, map[]), word, parent), Expansions(Spell(pieces, map[]), word, parent);
    var full := Full(start, Stages());
    StagesAreOrderly();
    if text in all {
      var i :| 0 <= i < |all| && all[i] == text;
      assert text == Tidied(full[i]) && full[i] in full;
      FullIsEveryFilling(start, Stages(), full[i]);
      var values :| Chosen(Stages(), values) && full[i] == Fill(start, Stages(), values);
      FillIsSpelled(pieces, word, parent, values);
      FourChosen(values);
    }
    forall env, region, cloud, n |
      && env in Environments() && region in Regions() && cloud in Clouds() && n in Numbers()
      && text == Tidied(Spell(pieces, Assigned(word, parent, env, region, cloud, n)))
      ensures text in all
    {
      var values := [env, region, cloud, n];
      FourChosen(values);
      FillIsSpelled(pieces, word, parent, values);
      var filled := Fill(start, Stages(), values);
      FullIsEveryFilling(start, Stages(), filled);
      var i :| 0 <= i < |full| && full[i] == filled;
      assert all[i] == text;
    }
  }

  lemma FourChosen(values: seq<string>)
    requires |values| == 4
    ensures Chosen(Stages(), values) <==>
            values[0] in Environments() && values[1] in Regions() && values[2] in Clouds() && values[3] in Numbers()
  {
    var s := Stages();
    assert s[0].values == Environments() && s[1].values == Regions() && s[2].values == Clouds() && s[3].values == Numbers();
  }

  // ----- tidying -----

  /** The labels that are not empty. */
  function NonEmpty(labels: seq<string>): seq<string> {
    if labels == [] then [] else if labels[0] == "" then NonEmpty(labels[1..]) else [labels[0]] + NonEmpty(labels[1..])
  }

  lemma {:induction false} LeadingDotsGo(s: string)
    ensures NonEmpty(SplitDots(TrimStart(s, c => c == '.'))) == NonEmpty(SplitDots(s))
  {
    if s != "" && s[0] == '.' {
      LeadingDotsGo(s[1..]);
      assert ([""] + SplitDots(s[1..]))[1..] == SplitDots(s[1..]);
    }
  }

  lemma {:induction false} DotAtTheEnd(s: string)
    ensures SplitDots(s + ".") == SplitDots(s) + [""]
  {
    if s == "" {
      assert s + "." == ".";
    } else {
      assert (s + ".")[1..] == s[1..] + ".";
      DotAtTheEnd(s[1..]);
    }
  }

  lemma Regrouped(a: seq<string>, b: seq<string>, c: seq<string>)
    ensures a + (b + c) == (a + b) + c
  {
  }

  lemma {:induction false} NonEmptyJoins(a: seq<string>, b: seq<string>)
    ensures NonEmpty(a + b) == NonEmpty(a) + NonEmpty(b)
  {
    if a == [] {
      assert a + b == b;
    } else {
      NonEmptyJoins(a[1..], b);
      assert (a + b)[1..] == a[1..] + b && (a + b)[0] == a[0];
      Regrouped([a[0]], NonEmpty(a[1..]), NonEmpty(b));
    }
  }

  lemma {:induction false} TrailingDotsGo(s: string)
    ensures NonEmpty(SplitDots(TrimEnd(s, c => c == '.'))) == NonEmpty(SplitDots(s))
  {
    if s != "" && s[|s| - 1] == '.' {
      var front := s[..|s| - 1];
      assert s == front + ".";
      TrailingDotsGo(front);
      DotAtTheEnd(front);
      NonEmptyJoins(SplitDots(front), [""]);
      assert NonEmpty([""]) == [];
    }
  }

  lemma {:induction false} DoubleDotsGo(s: string)
    ensures NonEmpty(SplitDots(Collapse(s))) == NonEmpty(SplitDots(s))
    ensures SplitDots(Collapse(s))[0] == SplitDots(s)[0]
  {
    if s != "" {
      DoubleDotsGo(s[1..]);
      var rest, collapsed := SplitDots(s[1..]), SplitDots(Collapse(s[1..]));
      CollapseLeavesNoPair(s[1..]);
      if s[0] == '.' {
        assert ([""] + rest)[1..] == rest && ([""] + collapsed)[1..] == collapsed;
      } else {
        RestIsKept(rest, collapsed);
        assert Collapse(s) == [s[0]] + Collapse(s[1..]);
        assert ([[s[0]] + rest[0]] + rest[1..])[1..] == rest[1..];
        assert ([[s[0]] + collapsed[0]] + collapsed[1..])[1..] == collapsed[1..];
      }
    }
  }

  lemma RestIsKept(a: seq<string>, b: seq<string>)
    requires a != [] && b != [] && a[0] == b[0] && NonEmpty(a) == NonEmpty(b)
    ensures NonEmpty(a[1..]) == NonEmpty(b[1..])
  {
    if a[0] != "" {
      assert ([a[0]] + NonEmpty(a[1..]))[1..] == NonEmpty(a[1..]);
      assert ([b[0]] + NonEmpty(b[1..]))[1..] == NonEmpty(b[1..]);
    }
  }

  /** A text without a dot at an end or next to another has no empty labels, unless it is empty. */
  lemma {:induction false} NoEmptyLabels(s: string)
    requires s != "" && s[0] != '.' && s[|s| - 1] != '.' && !HasPair(s)
    ensures NonEmpty(SplitDots(s)) == SplitDots(s)
  {
    var rest := SplitDots(s[1..]);
    if |s| == 1 {
      assert s[1..] == "";
    } else if s[1] != '.' {
      PairsBehind(s, 1);
      NoEmptyLabels(s[1..]);
      assert rest[0] != "";
      assert ([[s[0]] + rest[0]] + rest[1..])[1..] == rest[1..];
      RestIsFull(rest);
    } else {
      assert s[2] != '.';
      PairsBehind(s, 2);
      NoEmptyLabels(s[2..]);
      assert s[1..][1..] == s[2..];
      assert rest == [""] + SplitDots(s[2..]);
      assert rest[0] == "" && rest[1..] == SplitDots(s[2..]) && [s[0]] + rest[0] == [s[0]];
      assert SplitDots(s) == [[s[0]]] + SplitDots(s[2..]);
      assert SplitDots(s)[1..] == SplitDots(s[2..]);
    }
  }

  lemma PairsBehind(s: string, n: nat)
    requires !HasPair(s) && n <= |s|
    ensures !HasPair(s[n..])
  {
    forall i | 0 <= i < |s[n..]| - 1 ensures !(s[n..][i] == '.' && s[n..][i + 1] == '.') {
      assert s[n..][i] == s[n + i] && s[n..][i + 1] == s[n + i + 1];
    }
  }

  lemma RestIsFull(labels: seq<string>)
    requires labels != [] && labels[0] != "" && NonEmpty(labels) == labels
    ensures NonEmpty(labels[1..]) == labels[1..]
  {
    assert ([labels[0]] + NonEmpty(labels[1..]))[1..] == NonEmpty(labels[1..]);
  }

  /** A tidied text is the original's labels that are not empty, joined by single dots. */
  lemma {:induction false} TidiedIsItsLabels(text: string)
    ensures Tidied(text) == HostnameRules.Join(NonEmpty(SplitDots(text)))
  {
    var a := Collapse(text);
    var b := TrimStart(a, c => c == '.');
    var r := TrimEnd(b, c => c == '.');
    DoubleDotsGo(text);
    LeadingDotsGo(a);
    TrailingDotsGo(b);
    CollapseLeavesNoPair(text);
    PairsStayAway(a);
    if r == "" {
      assert NonEmpty(SplitDots("")) == [];
    } else {
      NoEmptyLabels(r);
      HostnameRules.JoinSplit(r);
    }
  }

  lemma {:induction false} PairsStayAway(a: string)
    requires !HasPair(a)
    ensures var r := TrimEnd(TrimStart(a, c => c == '.'), c => c == '.'); !HasPair(r) && (r != "" ==> r[0] != '.' && r[|r| - 1] != '.')
  {
    var p := HostnameRules.StartIsCut(a, c => c == '.');
    var b := TrimStart(a, c => c == '.');
    assert b == a[|p|..];
    PairsBehind(a, |p|);
    var r := TrimEnd(b, c => c == '.');
    assert r <= b;
    forall i | 0 <= i < |r| - 1 ensures !(r[i] == '.' && r[i + 1] == '.') { assert r[i] == b[i] && r[i + 1] == b[i + 1]; }
  }

  /** A proposal survives compaction only if, in front of the domain, it is made of labels of hosts. */
  lemma FitsIff(p: Compaction.Proposal, domain: string)
    ensures var name := p.relativeName + "." + domain;
            Compaction.Fits(p, domain) <==>
            |name| <= 253 && exists labels :: labels != [] && name == HostnameRules.Join(labels)
                                              && forall k :: 0 <= k < |labels| ==> HostnameRules.HostLabel(Lower(labels[k]))
  {
    HostnameRules.ValidIff(p.relativeName + "." + domain);
  }
}
