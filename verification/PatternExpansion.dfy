/**
 Expanding a mutation pattern (src/candidate.rs, expand_mutation_pattern). The number of expansions is cut at every
 stage, yet what is returned is the beginning of the complete cross-product, whatever the pattern.
 */
module PatternExpansion {
  import opened Basics
  import opened Decimals
  import opened Hostnames
  import opened Ranking
  import opened Substitution

  function Environments(): seq<string> {
    ["dev", "development", "test", "testing", "qa", "uat", "stage", "staging", "preprod", "prod", "production", "sandbox", "beta"]
  }

  function Regions(): seq<string> {
    ["us", "us-east", "us-west", "eu", "eu-west", "eu-central", "ca", "ap", "ap-south", "asia", "emea", "global"]
  }

  function Clouds(): seq<string> {
    ["aws", "azure", "gcp", "cloud", "do", "ovh", "cf", "edge"]
  }

  function Numbers(): seq<string> { seq(21, i requires 0 <= i < 21 => Digits(i)) }

  /** One placeholder, by name, and the values it stands for. */
  datatype Stage = Stage(name: string, values: seq<string>)

  /** The stages in the program's order. */
  function Stages(): seq<Stage> {
    [Stage("env", Environments()), Stage("region", Regions()), Stage("cloud", Clouds()), Stage("n", Numbers())]
  }

  predicate Holds(text: string, stage: Stage) { Contains(text, Mark(stage.name)) }

  function Put(text: string, stage: Stage, value: string): string { Replace(text, Mark(stage.name), value) }

  /** Word and parent are filled in first. */
  function Start(pattern: string, word: string, parent: string): string {
    Replace(Replace(pattern, Mark("word"), word), Mark("parent"), parent)
  }

  // ----- one stage -----

  function Row(text: string, stage: Stage): (r: seq<string>)
    ensures |r| == |stage.values|
  {
    seq(|stage.values|, i requires 0 <= i < |stage.values| => Put(text, stage, stage.values[i]))
  }

  /** Every text with every value. */
  function Cross(texts: seq<string>, stage: Stage): seq<string> {
    if texts == [] then [] else Cross(texts[..|texts| - 1], stage) + Row(texts[|texts| - 1], stage)
  }

  predicate AnyHolds(texts: seq<string>, stage: Stage) {
    exists i :: 0 <= i < |texts| && Holds(texts[i], stage)
  }

  /** A stage without its placeholder anywhere is skipped. */
  function Through(texts: seq<string>, stage: Stage): seq<string> {
    if AnyHolds(texts, stage) then Cross(texts, stage) else texts
  }

  lemma {:induction false} CrossAppend(a: seq<string>, b: seq<string>, stage: Stage)
    ensures Cross(a + b, stage) == Cross(a, stage) + Cross(b, stage)
  {
    if b == [] {
      assert a + b == a;
    } else {
      var front, last := b[..|b| - 1], b[|b| - 1];
      CrossAppend(a, front, stage);
      assert (a + b)[..|a + b| - 1] == a + front && (a + b)[|a + b| - 1] == last;
      var x, y, z := Cross(a, stage), Cross(front, stage), Row(last, stage);
      assert x + y + z == x + (y + z);
    }
  }

  /** With at least one value, no text disappears. */
  lemma {:induction false} CrossIsNotShorter(texts: seq<string>, stage: Stage)
    requires stage.values != []
    ensures |Cross(texts, stage)| >= |texts|
  {
    if texts != [] {
      CrossIsNotShorter(texts[..|texts| - 1], stage);
    }
  }

  /** Cutting before a stage does not show behind the same cut after it. */
  lemma CutBeforeStage(texts: seq<string>, stage: Stage, limit: nat)
    requires stage.values != []
    ensures Take(Cross(Take(texts, limit), stage), limit) == Take(Cross(texts, stage), limit)
  {
    if |texts| <= limit {
      assert Take(texts, limit) == texts;
    } else {
      var kept, cut := texts[..limit], texts[limit..];
      assert texts == kept + cut;
      CrossAppend(kept, cut, stage);
      CrossIsNotShorter(kept, stage);
      assert (Cross(kept, stage) + Cross(cut, stage))[..limit] == Cross(kept, stage)[..limit];
    }
  }

  // ----- all stages -----

  /** The complete expansion. */
  function Full(start: string, stages: seq<Stage>): seq<string> {
    if stages == [] then [start] else Through(Full(start, stages[..|stages| - 1]), stages[|stages| - 1])
  }

  /** The expansion that is cut to the limit behind every stage. */
  function Limited(start: string, stages: seq<Stage>, limit: nat): seq<string> {
    if stages == [] then [start]
    else
      var texts, stage := Limited(start, stages[..|stages| - 1], limit), stages[|stages| - 1];
      if AnyHolds(texts, stage) then Take(Cross(texts, stage), limit) else texts
  }

  /** Filling in the first stage never makes or breaks a placeholder of the second. */
  predicate KeepsApart(earlier: Stage, later: Stage) {
    && earlier.name != later.name && earlier.name != "" && later.name != ""
    && BraceFree(earlier.name) && BraceFree(later.name)
    && forall v :: v in earlier.values ==> Safe(v, later.name)
  }

  predicate Orderly(stages: seq<Stage>) {
    forall j, k :: 0 <= j < k < |stages| ==> KeepsApart(stages[j], stages[k])
  }

  lemma {:induction false} CrossElement(texts: seq<string>, stage: Stage, text: string) returns (from: string, value: string)
    requires text in Cross(texts, stage)
    ensures from in texts && value in stage.values && text == Put(from, stage, value)
  {
    var front, last := texts[..|texts| - 1], texts[|texts| - 1];
    if text in Cross(front, stage) {
      from, value := CrossElement(front, stage, text);
    } else {
      var i :| 0 <= i < |Row(last, stage)| && Row(last, stage)[i] == text;
      from, value := last, stage.values[i];
    }
  }

  /** Every text of the complete expansion holds a later placeholder iff the start does. */
  lemma {:induction false} StagesKeepOthers(start: string, stages: seq<Stage>, later: Stage, text: string)
    requires forall j :: 0 <= j < |stages| ==> KeepsApart(stages[j], later)
    requires text in Full(start, stages)
    ensures Holds(text, later) <==> Holds(start, later)
  {
    if stages != [] {
      var front, stage := stages[..|stages| - 1], stages[|stages| - 1];
      if AnyHolds(Full(start, front), stage) {
        var from, value := CrossElement(Full(start, front), stage, text);
        FillingKeepsOthers(from, stage.name, value, later.name);
        StagesKeepOthers(start, front, later, from);
      } else {
        StagesKeepOthers(start, front, later, text);
      }
    }
  }

  predicate HaveValues(stages: seq<Stage>) {
    forall k :: 0 <= k < |stages| ==> stages[k].values != []
  }

  /** Either all texts or none hold the placeholder, so a cut that leaves one text asks the same question. */
  lemma SomethingHolds(start: string, front: seq<Stage>, stage: Stage, limit: nat)
    requires limit > 0 && Full(start, front) != [] && forall j :: 0 <= j < |front| ==> KeepsApart(front[j], stage)
    ensures AnyHolds(Take(Full(start, front), limit), stage) <==> AnyHolds(Full(start, front), stage)
  {
    var texts := Full(start, front);
    forall i | 0 <= i < |texts| ensures Holds(texts[i], stage) == Holds(start, stage) {
      StagesKeepOthers(start, front, stage, texts[i]);
    }
    assert Take(texts, limit)[0] == texts[0];
  }

  lemma {:induction false} FullIsNotEmpty(start: string, stages: seq<Stage>)
    requires HaveValues(stages)
    ensures Full(start, stages) != []
  {
    if stages != [] {
      FullIsNotEmpty(start, stages[..|stages| - 1]);
      CrossIsNotShorter(Full(start, stages[..|stages| - 1]), stages[|stages| - 1]);
    }
  }

  /** Cutting at every stage gives the beginning of the complete expansion, and never more than the limit. */
  lemma {:induction false} LimitedIsAPrefix(start: string, stages: seq<Stage>, limit: nat)
    requires limit > 0 && HaveValues(stages) && Orderly(stages)
    ensures Limited(start, stages, limit) == Take(Full(start, stages), limit)
    ensures |Limited(start, stages, limit)| <= limit
  {
    if stages != [] {
      var front, stage := stages[..|stages| - 1], stages[|stages| - 1];
      LimitedIsAPrefix(start, front, limit);
      FullIsNotEmpty(start, front);
      SomethingHolds(start, front, stage, limit);
      CutBeforeStage(Full(start, front), stage, limit);
    }
  }

  // ----- the program's own stages -----

  /** A value with a character that the name lacks does not occur in it. */
  lemma Foreign(v: string, name: string, k: nat)
    requires k < |v| && v[k] !in name && BraceFree(v)
    ensures Safe(v, name)
  {
    forall i | 0 <= i <= |name| ensures !OccursAt(name, v, i) {
      if OccursAt(name, v, i) {
        OccurrenceChar(name, v, i, k);
      }
    }
  }

  lemma EnvironmentMissesRegion(v: string)
    requires v in Environments()
    ensures Safe(v, "region")
  {
    assert BraceFree(v) && |v| >= 2;
    Foreign(v, "region", if v[0] !in "region" then 0 else if v[1] !in "region" then 1 else 2);
  }

  lemma EnvironmentMissesCloud(v: string)
    requires v in Environments()
    ensures Safe(v, "cloud")
  {
    assert BraceFree(v) && |v| >= 2;
    Foreign(v, "cloud", if v[0] !in "cloud" then 0 else 1);
  }

  lemma EnvironmentMissesN(v: string)
    requires v in Environments()
    ensures Safe(v, "n")
  {
    assert BraceFree(v) && |v| >= 2 && v[0] !in "n";
    Foreign(v, "n", 0);
  }

  lemma RegionIsSafe(v: string)
    requires v in Regions()
    ensures Safe(v, "cloud") && Safe(v, "n")
  {
    assert BraceFree(v) && |v| >= 2 && v[0] !in "n";
    Foreign(v, "n", 0);
    Foreign(v, "cloud", if v[0] !in "cloud" then 0 else 1);
  }

  lemma CloudIsSafe(v: string)
    requires v in Clouds()
    ensures Safe(v, "n")
  {
    assert BraceFree(v) && |v| >= 2 && v[0] !in "n";
    Foreign(v, "n", 0);
  }

  /** The program's values never touch a later placeholder. */
  lemma StagesAreOrderly()
    ensures Orderly(Stages()) && HaveValues(Stages())
  {
    forall v | v in Environments() ensures Safe(v, "region") && Safe(v, "cloud") && Safe(v, "n") {
      EnvironmentMissesRegion(v);
      EnvironmentMissesCloud(v);
      EnvironmentMissesN(v);
    }
    forall v | v in Regions() ensures Safe(v, "cloud") && Safe(v, "n") { RegionIsSafe(v); }
    forall v | v in Clouds() ensures Safe(v, "n") { CloudIsSafe(v); }
    assert BraceFree("env") && BraceFree("region") && BraceFree("cloud") && BraceFree("n");
    var s := Stages();
    assert KeepsApart(s[0], s[1]) && KeepsApart(s[0], s[2]) && KeepsApart(s[0], s[3]);
    assert KeepsApart(s[1], s[2]) && KeepsApart(s[1], s[3]) && KeepsApart(s[2], s[3]);
  }

  /** At every stage all texts agree on the placeholder, whatever the start: they hold it iff the start does. */
  lemma StagesAreUniform(start: string, k: nat, text: string)
    requires k < |Stages()| && text in Full(start, Stages()[..k])
    ensures Holds(text, Stages()[k]) <==> Holds(start, Stages()[k])
  {
    StagesAreOrderly();
    var stages := Stages();
    forall j | 0 <= j < |stages[..k]| ensures KeepsApart(stages[..k][j], stages[k]) {
      assert stages[..k][j] == stages[j];
    }
    StagesKeepOthers(start, stages[..k], stages[k], text);
  }

  // ----- tidying -----

  /** Runs of dots become one dot. */
  function Collapse(s: string): string {
    if s == "" then ""
    else if |s| >= 2 && s[0] == '.' && s[1] == '.' then Collapse(s[1..])
    else [s[0]] + Collapse(s[1..])
  }

  predicate HasPair(s: string) {
    exists i :: 0 <= i < |s| - 1 && s[i] == '.' && s[i + 1] == '.'
  }

  lemma {:induction false} PairsCollapseAlike(s: string)
    ensures Collapse(Replace(s, "..", ".")) == Collapse(s)
  {
    if |s| >= 2 && s[0] == '.' && s[1] == '.' {
      PairsCollapseAlike(s[2..]);
      assert s[1..] == ['.'] + s[2..];
    } else if s != "" {
      PairsCollapseAlike(s[1..]);
      assert s == [s[0]] + s[1..];
    }
  }

  lemma {:induction false} PairsShorten(s: string)
    ensures |Replace(s, "..", ".")| <= |s|
    ensures HasPair(s) ==> |Replace(s, "..", ".")| < |s|
  {
    if |s| >= 2 && s[0] == '.' && s[1] == '.' {
      PairsShorten(s[2..]);
    } else if s != "" {
      PairsShorten(s[1..]);
      if HasPair(s) {
        var i :| 0 <= i < |s| - 1 && s[i] == '.' && s[i + 1] == '.';
        assert s[1..][i - 1] == '.' && s[1..][i] == '.';
      }
    }
  }

  lemma {:induction false} CollapsedStays(s: string)
    requires !HasPair(s)
    ensures Collapse(s) == s
  {
    if s != "" {
      forall i | 0 <= i < |s[1..]| - 1 ensures !(s[1..][i] == '.' && s[1..][i + 1] == '.') {
        assert s[1..][i] == s[i + 1] && s[1..][i + 1] == s[i + 2];
      }
      CollapsedStays(s[1..]);
    }
  }

  /** No two dots are left side by side. */
  lemma {:induction false} CollapseLeavesNoPair(s: string)
    ensures !HasPair(Collapse(s))
    ensures s != "" ==> Collapse(s) != "" && Collapse(s)[0] == s[0]
  {
    if s != "" {
      CollapseLeavesNoPair(s[1..]);
      var rest := Collapse(s[1..]);
      if !(|s| >= 2 && s[0] == '.' && s[1] == '.') {
        forall i | 0 <= i < |rest| ensures !(([s[0]] + rest)[i] == '.' && ([s[0]] + rest)[i + 1] == '.') {
          assert i > 0 ==> !(rest[i - 1] == '.' && rest[i] == '.');
        }
      }
    }
  }

  function Tidied(text: string): string {
    TrimEnd(TrimStart(Collapse(text), c => c == '.'), c => c == '.')
  }

  /** Shrinks runs of dots until none is left, and trims dots from both ends. */
  method Tidy(text: string) returns (r: string)
    ensures r == Tidied(text)
  {
    r := text;
    while HasPair(r)
      invariant Collapse(r) == Collapse(text)
      decreases |r|
    {
      PairsShorten(r);
      PairsCollapseAlike(r);
      r := Replace(r, "..", ".");
    }
    CollapsedStays(r);
    r := TrimEnd(TrimStart(r, c => c == '.'), c => c == '.');
  }

  // ----- the program -----

  /** The nested loops of one stage, left as soon as the limit is reached. */
  method ExpandStage(texts: seq<string>, stage: Stage, limit: nat) returns (next: seq<string>)
    requires limit > 0
    ensures next == Take(Cross(texts, stage), limit)
  {
    next := [];
    ghost var done: seq<string> := [];
    for i := 0 to |texts|
      invariant next == done == Cross(texts[..i], stage) && |next| < limit
    {
      CrossMore(texts, stage, i);
      for j := 0 to |stage.values|
        invariant next == done + Row(texts[i], stage)[..j] && |next| < limit
      {
        assert Row(texts[i], stage)[..j + 1] == Row(texts[i], stage)[..j] + [Put(texts[i], stage, stage.values[j])];
        next := next + [Put(texts[i], stage, stage.values[j])];
        if |next| >= limit {
          CutInside(texts, stage, i, j + 1, done, next);
          return;
        }
      }
      assert Row(texts[i], stage)[..|stage.values|] == Row(texts[i], stage);
      done := next;
    }
    assert texts[..|texts|] == texts;
  }

  lemma CrossMore(texts: seq<string>, stage: Stage, i: nat)
    requires i < |texts|
    ensures Cross(texts[..i + 1], stage) == Cross(texts[..i], stage) + Row(texts[i], stage)
  {
    assert texts[..i + 1][..i] == texts[..i];
  }

  lemma CutInside(texts: seq<string>, stage: Stage, i: nat, j: nat, done: seq<string>, next: seq<string>)
    requires i < |texts| && j <= |stage.values| && done == Cross(texts[..i], stage) && next == done + Row(texts[i], stage)[..j]
    ensures next == Take(Cross(texts, stage), |next|)
  {
    CrossMore(texts, stage, i);
    SplitCross(texts, stage, i + 1);
  }

  lemma SplitCross(texts: seq<string>, stage: Stage, n: nat)
    requires n <= |texts|
    ensures Cross(texts, stage) == Cross(texts[..n], stage) + Cross(texts[n..], stage)
  {
    CrossAppend(texts[..n], texts[n..], stage);
    assert texts == texts[..n] + texts[n..];
  }

  /** Everything that a pattern stands for, in order. */
  function Expansions(pattern: string, word: string, parent: string): seq<string> {
    var full := Full(Start(pattern, word, parent), Stages());
    seq(|full|, i requires 0 <= i < |full| => Tidied(full[i]))
  }

  /** For every pattern, word and parent: the beginning of the complete expansion. */
  method ExpandPattern(pattern: string, word: string, parent: string, limit: nat) returns (expanded: seq<string>)
    ensures expanded == Take(Expansions(pattern, word, parent), limit)
  {
    if limit == 0 {
      return [];
    }
    ghost var stages := Stages();
    StagesAreOrderly();
    var texts := ExpandStages(Start(pattern, word, parent), Stages(), limit);
    LimitedIsAPrefix(Start(pattern, word, parent), stages, limit);
    expanded := TidyAll(texts);
  }

  method TidyAll(texts: seq<string>) returns (tidied: seq<string>)
    ensures |tidied| == |texts| && forall i :: 0 <= i < |texts| ==> tidied[i] == Tidied(texts[i])
  {
    tidied := [];
    for k := 0 to |texts|
      invariant |tidied| == k && forall i :: 0 <= i < k ==> tidied[i] == Tidied(texts[i])
    {
      var text := Tidy(texts[k]);
      tidied := tidied + [text];
    }
  }

  method ExpandStages(start: string, stages: seq<Stage>, limit: nat) returns (texts: seq<string>)
    requires limit > 0
    ensures texts == Limited(start, stages, limit) && |texts| <= limit
  {
    texts := [start];
    for k := 0 to |stages|
      invariant texts == Limited(start, stages[..k], limit) && |texts| <= limit
    {
      assert stages[..k + 1][..k] == stages[..k];
      if AnyHolds(texts, stages[k]) {
        texts := ExpandStage(texts, stages[k], limit);
      }
    }
    assert stages[..|stages|] == stages;
  }
}
