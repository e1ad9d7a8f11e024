/**
 Bounded generation of contextual candidates (src/candidate.rs). The working set is compacted early, yet
 the result is the compaction of everything that was ever appended.
 */
module Compaction {
  import opened Basics
  import opened Hostnames
  import opened Orders
  import opened Ranking
  import PatternExpansion

  const MAX_WORKING_SET: nat := 100_000

  /** The proposals one observed name adds before its rules: 13 * 12 swaps, 4 neighbours, 1 reorder, 12 services. */
  const MAX_FIXED_PROPOSALS: nat := 13 * 12 + 4 + 1 + 12

  datatype Proposal = Proposal(relativeName: string, generator: string, score: int)

  predicate Fits(p: Proposal, domain: string) {
    ValidFqdn(p.relativeName + "." + domain)
  }

  // ----- ranking -----

  /** Higher score first, then name, then generator. */
  predicate Before(l: Proposal, r: Proposal) {
    if l.score != r.score then l.score > r.score
    else if l.relativeName != r.relativeName then CompareStrings(l.relativeName, r.relativeName) == Less
    else CompareStrings(l.generator, r.generator) == Less
  }

  lemma BeforeIsStrict()
    ensures StrictOrder(Before)
  {
    StringsTotal();
    forall x, y ensures (Before(x, y) ==> !Before(y, x)) && (Before(x, y) || Before(y, x) || x == y) {
      assert CompareStrings(x.relativeName, y.relativeName) == CompareStrings(y.relativeName, x.relativeName).Reverse();
      assert CompareStrings(x.generator, y.generator) == CompareStrings(y.generator, x.generator).Reverse();
      assert CompareStrings(x.relativeName, y.relativeName) == Equal <==> x.relativeName == y.relativeName;
      assert CompareStrings(x.generator, y.generator) == Equal <==> x.generator == y.generator;
    }
    forall x, y, z | Before(x, y) && Before(y, z) ensures Before(x, z) {
      assert CompareStrings(x.relativeName, x.relativeName) == Equal;
      assert CompareStrings(x.relativeName, y.relativeName) == CompareStrings(y.relativeName, x.relativeName).Reverse();
    }
  }

  /** p is the best fitting proposal of its name. */
  predicate Leads(p: Proposal, s: set<Proposal>, domain: string) {
    && p in s && Fits(p, domain)
    && forall q :: q in s && q.relativeName == p.relativeName && Fits(q, domain) && q != p ==> Before(p, q)
  }

  /** One proposal per name: the best that fits under the domain. */
  ghost function Champions(s: set<Proposal>, domain: string): set<Proposal> {
    set p | p in s && Leads(p, s, domain)
  }

  function Fitting(xs: seq<Proposal>, domain: string): seq<Proposal> {
    if xs == [] then []
    else Fitting(xs[..|xs| - 1], domain) + if Fits(xs[|xs| - 1], domain) then [xs[|xs| - 1]] else []
  }

  function Names(xs: seq<Proposal>): set<string> { set p | p in xs :: p.relativeName }

  /** The first proposal of every name. */
  function Firsts(xs: seq<Proposal>): seq<Proposal> {
    if xs == [] then []
    else
      var front, last := xs[..|xs| - 1], xs[|xs| - 1];
      Firsts(front) + if last.relativeName in Names(front) then [] else [last]
  }

  function Compact(xs: seq<Proposal>, domain: string, limit: nat): seq<Proposal> {
    Take(Firsts(Sort(Before, Fitting(xs, domain))), limit)
  }

  method RetainFitting(proposals: seq<Proposal>, domain: string) returns (retained: seq<Proposal>)
    ensures retained == Fitting(proposals, domain)
  {
    retained := [];
    for i := 0 to |proposals|
      invariant retained == Fitting(proposals[..i], domain)
    {
      assert proposals[..i + 1][..i] == proposals[..i];
      if Fits(proposals[i], domain) {
        retained := retained + [proposals[i]];
      }
    }
    assert proposals[..|proposals|] == proposals;
  }

  lemma OneMoreFirst(xs: seq<Proposal>, i: nat)
    requires i < |xs|
    ensures Firsts(xs[..i + 1]) == Firsts(xs[..i]) + if xs[i].relativeName in Names(xs[..i]) then [] else [xs[i]]
    ensures Names(xs[..i + 1]) == Names(xs[..i]) + {xs[i].relativeName}
  {
    assert xs[..i + 1][..i] == xs[..i];
    assert xs[..i + 1] == xs[..i] + [xs[i]];
  }

  method CompactProposals(proposals: seq<Proposal>, domain: string, limit: nat) returns (r: seq<Proposal>)
    ensures r == Compact(proposals, domain, limit)
  {
    var retained := RetainFitting(proposals, domain);
    var sorted := Sort(Before, retained);
    var seen: set<string> := {};
    r := [];
    for i := 0 to |sorted|
      invariant seen == Names(sorted[..i]) && r == Firsts(sorted[..i])
    {
      OneMoreFirst(sorted, i);
      if sorted[i].relativeName !in seen {
        r := r + [sorted[i]];
      }
      seen := seen + {sorted[i].relativeName};
    }
    assert sorted[..|sorted|] == sorted;
    r := Take(r, limit);
  }

  // ----- what compaction computes -----

  lemma {:induction false} FittingElements(xs: seq<Proposal>, domain: string)
    ensures forall p :: p in Fitting(xs, domain) <==> p in xs && Fits(p, domain)
  {
    if xs != [] {
      FittingElements(xs[..|xs| - 1], domain);
      assert xs == xs[..|xs| - 1] + [xs[|xs| - 1]];
    }
  }

  /** No earlier proposal carries the name of the one at i. */
  predicate FirstOfName(xs: seq<Proposal>, i: nat)
    requires i < |xs|
  {
    forall j :: 0 <= j < i ==> xs[j].relativeName != xs[i].relativeName
  }

  lemma {:induction false} FirstsSound(xs: seq<Proposal>, p: Proposal) returns (i: nat)
    requires p in Firsts(xs)
    ensures i < |xs| && xs[i] == p && FirstOfName(xs, i)
  {
    var n := |xs| - 1;
    if p in Firsts(xs[..n]) {
      i := FirstsSound(xs[..n], p);
    } else {
      i := n;
      forall j | 0 <= j < n ensures xs[j].relativeName != p.relativeName {
        assert xs[..n][j] in xs[..n];
      }
    }
  }

  lemma {:induction false} FirstsComplete(xs: seq<Proposal>, i: nat)
    requires i < |xs| && FirstOfName(xs, i)
    ensures xs[i] in Firsts(xs)
  {
    var n := |xs| - 1;
    if i < n {
      FirstsComplete(xs[..n], i);
    } else {
      forall p | p in xs[..n] ensures p.relativeName != xs[n].relativeName {
        var j :| 0 <= j < n && xs[..n][j] == p;
      }
    }
  }

  lemma {:induction false} FirstsAscending(xs: seq<Proposal>)
    requires Sorted(Before, xs)
    ensures Ascending(Before, Firsts(xs))
  {
    if xs != [] {
      BeforeIsStrict();
      var n := |xs| - 1;
      var front, last := xs[..n], xs[n];
      FirstsAscending(front);
      if last.relativeName !in Names(front) {
        forall p | p in Firsts(front) ensures Before(p, last) {
          var i := FirstsSound(front, p);
          assert !Before(xs[n], xs[i]);
          assert p.relativeName in Names(front);
        }
      }
    }
  }

  lemma SortedFirstsAreChampions(s: seq<Proposal>, xs: seq<Proposal>, domain: string)
    requires Sorted(Before, s) && forall p :: p in s <==> p in xs && Fits(p, domain)
    ensures Elements(Firsts(s)) == Champions(Elements(xs), domain)
  {
    BeforeIsStrict();
    var all := Elements(xs);
    forall p | p in Firsts(s) ensures Leads(p, all, domain) {
      var i := FirstsSound(s, p);
      forall q | q in all && q.relativeName == p.relativeName && Fits(q, domain) && q != p ensures Before(p, q) {
        var j :| 0 <= j < |s| && s[j] == q;
        assert i < j && !Before(s[j], s[i]);
      }
    }
    forall p | p in all && Leads(p, all, domain) ensures p in Firsts(s) {
      var i := FirstIndex(s, p);
      forall j | 0 <= j < i ensures s[j].relativeName != p.relativeName {
        assert s[j] in s && s[j] != p && !Before(s[i], s[j]);
      }
      FirstsComplete(s, i);
    }
  }

  lemma FirstIndex(s: seq<Proposal>, p: Proposal) returns (i: nat)
    requires p in s
    ensures i < |s| && s[i] == p && forall j :: 0 <= j < i ==> s[j] != p
  {
    i := 0;
    while s[i] != p
      invariant i < |s| && forall j :: 0 <= j < i ==> s[j] != p
      invariant exists m :: i <= m < |s| && s[m] == p
      decreases |s| - i
    {
      i := i + 1;
    }
  }

  /** Compaction lists, best first, the best champions. */
  lemma CompactIsBest(xs: seq<Proposal>, domain: string, limit: nat)
    ensures Best(Before, Champions(Elements(xs), domain), limit, Compact(xs, domain, limit))
  {
    BeforeIsStrict();
    var f := Fitting(xs, domain);
    SortSorts(Before, f);
    FittingElements(xs, domain);
    var s := Sort(Before, f);
    forall p ensures p in s <==> p in xs && Fits(p, domain) {
      SameElements(Before, f, p);
    }
    SortedFirstsAreChampions(s, xs, domain);
    FirstsAscending(s);
    TakeIsBest(Before, Champions(Elements(xs), domain), Firsts(s), limit);
  }

  // ----- early compaction is exact -----

  /** The champion of a name that some fitting proposal carries. */
  lemma ChampionExists(s: set<Proposal>, domain: string, q: Proposal) returns (c: Proposal)
    requires q in s && Fits(q, domain)
    ensures Leads(c, s, domain) && c.relativeName == q.relativeName && (c == q || Before(c, q))
  {
    BeforeIsStrict();
    var rivals := set p | p in s && p.relativeName == q.relativeName && Fits(p, domain);
    assert q in rivals;
    c := FirstExists(Before, rivals);
  }

  /** Among a kept selection b of the champions of a, names keep their champion when more proposals arrive. */
  lemma KeptNamesAgree(a: set<Proposal>, more: set<Proposal>, b: set<Proposal>, domain: string, c: Proposal)
    requires b <= Champions(a, domain)
    requires exists z :: z in b && z.relativeName == c.relativeName
    ensures Leads(c, a + more, domain) <==> Leads(c, b + more, domain)
  {
    BeforeIsStrict();
    var z :| z in b && z.relativeName == c.relativeName;
    assert Leads(z, a, domain);
    if Leads(c, b + more, domain) {
      forall q | q in a + more && q.relativeName == c.relativeName && Fits(q, domain) && q != c ensures Before(c, q) {
        if q in a && q != z {
          assert Before(z, q);
          assert c == z || Before(c, z);
        }
      }
    }
    if Leads(c, a + more, domain) && c in a {
      assert c == z || (Before(c, z) && Before(z, c));
    }
  }

  /** A name that was cut off can only win with proposals that come after every kept champion. */
  lemma CutNamesComeLater(a: set<Proposal>, more: set<Proposal>, w: nat, b: seq<Proposal>, domain: string, y: Proposal)
    requires Best(Before, Champions(a, domain), w, b)
    requires Leads(y, a + more, domain) != Leads(y, Elements(b) + more, domain)
    ensures forall z :: z in b ==> Before(z, y)
  {
    BeforeIsStrict();
    var kept := Elements(b);
    if exists z :: z in kept && z.relativeName == y.relativeName {
      KeptNamesAgree(a, more, kept, domain, y);
    } else if Leads(y, kept + more, domain) {
      assert y in more;
      var q :| q in a + more && q.relativeName == y.relativeName && Fits(q, domain) && q != y && !Before(y, q);
      assert q in a;
      var c := ChampionExists(a, domain, q);
      assert c in Champions(a, domain) && c !in b;
      assert Before(c, y);
    } else {
      assert y !in more;
      var c := ChampionExists(a, domain, y);
      assert c in Champions(a, domain) && c !in b;
    }
  }

  lemma KeptChampions(a: set<Proposal>, more: set<Proposal>, w: nat, b: seq<Proposal>, domain: string)
      returns (shared: set<Proposal>)
    requires Best(Before, Champions(a, domain), w, b)
    ensures |shared| == |b|
    ensures shared <= Champions(a + more, domain) && shared <= Champions(Elements(b) + more, domain)
    ensures forall d :: d in shared ==> exists z :: z in b && (d == z || Before(d, z))
  {
    BeforeIsStrict();
    var ds: seq<Proposal> := [];
    while |ds| < |b|
      invariant |ds| <= |b|
      invariant forall i :: 0 <= i < |ds| ==>
                  Leads(ds[i], a + more, domain) && ds[i].relativeName == b[i].relativeName && (ds[i] == b[i] || Before(ds[i], b[i]))
    {
      var z := b[|ds|];
      assert z in Elements(b) && Leads(z, a, domain);
      var c := ChampionExists(a + more, domain, z);
      ds := ds + [c];
    }
    forall i, j | 0 <= i < j < |ds| ensures ds[i] != ds[j] {
      assert b[i] in Elements(b) && b[j] in Elements(b) && Before(b[i], b[j]);
      assert Leads(b[i], a, domain) && Leads(b[j], a, domain);
    }
    DistinctCardinality(ds);
    shared := Elements(ds);
    forall d | d in shared ensures Leads(d, Elements(b) + more, domain) && Leads(d, a + more, domain)
                                && exists z :: z in b && (d == z || Before(d, z)) {
      var i :| 0 <= i < |ds| && ds[i] == d;
      assert b[i] in b;
      KeptNamesAgree(a, more, Elements(b), domain, d);
    }
  }

  /** Truncating to w and then appending loses nothing for any final limit up to w. */
  lemma EarlyCompactionIsExact(a: seq<Proposal>, b: seq<Proposal>, domain: string, w: nat, k: nat)
    requires k <= w
    ensures Compact(Compact(a, domain, w) + b, domain, k) == Compact(a + b, domain, k)
  {
    BeforeIsStrict();
    var early := Compact(a, domain, w);
    var r := Compact(early + b, domain, k);
    CompactIsBest(a, domain, w);
    CompactIsBest(early + b, domain, k);
    CompactIsBest(a + b, domain, k);
    assert Elements(early + b) == Elements(early) + Elements(b);
    assert Elements(a + b) == Elements(a) + Elements(b);
    var s := Champions(Elements(a) + Elements(b), domain);
    var t := Champions(Elements(early) + Elements(b), domain);
    var shared := KeptChampions(Elements(a), Elements(b), w, early, domain);
    if |early| < w {
      AllKept(Elements(a), Elements(b), w, early, domain);
    } else {
      forall d, y | d in shared && y in (s - t) + (t - s) ensures Before(d, y) {
        CutNamesComeLater(Elements(a), Elements(b), w, early, domain, y);
        var z :| z in early && (d == z || Before(d, z));
      }
      BestTransfer(Before, s, t, shared, k, r);
    }
    BestUnique(Before, s, k, r, Compact(a + b, domain, k));
  }

  /** Every name that fits in a is represented in b. */
  ghost predicate CoversNames(a: set<Proposal>, b: set<Proposal>, domain: string) {
    forall q :: q in a && Fits(q, domain) ==> q.relativeName in NamesOf(b)
  }

  function NamesOf(b: set<Proposal>): set<string> { set z | z in b :: z.relativeName }

  lemma AllCovered(a: set<Proposal>, w: nat, b: seq<Proposal>, domain: string)
    requires Best(Before, Champions(a, domain), w, b) && |b| < w
    ensures CoversNames(a, Elements(b), domain)
  {
    BeforeIsStrict();
    AscendingCardinality(Before, b);
    SubsetSameSize(Elements(b), Champions(a, domain));
    forall q | q in a && Fits(q, domain) ensures q.relativeName in NamesOf(Elements(b)) {
      var c := ChampionExists(a, domain, q);
      assert c in Champions(a, domain);
    }
  }

  lemma LeadersAgree(a: set<Proposal>, more: set<Proposal>, b: set<Proposal>, domain: string, y: Proposal)
    requires b <= Champions(a, domain) && CoversNames(a, b, domain)
    ensures Leads(y, a + more, domain) <==> Leads(y, b + more, domain)
  {
    if y.relativeName in NamesOf(b) {
      KeptNamesAgree(a, more, b, domain, y);
    }
  }

  lemma AllKept(a: set<Proposal>, more: set<Proposal>, w: nat, b: seq<Proposal>, domain: string)
    requires Best(Before, Champions(a, domain), w, b) && |b| < w
    ensures Champions(a + more, domain) == Champions(Elements(b) + more, domain)
  {
    AllCovered(a, w, b, domain);
    forall y | y in Champions(a + more, domain) ensures y in Champions(Elements(b) + more, domain) {
      LeadersAgree(a, more, Elements(b), domain, y);
    }
    forall y | y in Champions(Elements(b) + more, domain) ensures y in Champions(a + more, domain) {
      LeadersAgree(a, more, Elements(b), domain, y);
    }
  }

  // ----- the generator -----

  /** A mutation rule applied to one name: its pattern, what it fills in, and the proposal a valid expansion becomes. */
  datatype Rule = Rule(pattern: string, word: string, parent: string, propose: string -> Option<Proposal>)

  /** What a rule offers, in order, if nothing is cut. */
  function Offers(rule: Rule): seq<Option<Proposal>> {
    Proposed(PatternExpansion.Expansions(rule.pattern, rule.word, rule.parent), rule.propose)
  }

  function Proposed(texts: seq<string>, propose: string -> Option<Proposal>): seq<Option<Proposal>> {
    seq(|texts|, i requires 0 <= i < |texts| => propose(texts[i]))
  }

  /** One observed name: its fixed proposals and the rules. */
  datatype NameRules = NameRules(fixed: seq<Proposal>, rules: seq<Rule>)

  function WorkOf(name: NameRules): NameWork {
    NameWork(name.fixed, seq(|name.rules|, m requires 0 <= m < |name.rules| => Offers(name.rules[m])))
  }

  function AllWork(names: seq<NameRules>): seq<NameWork> {
    seq(|names|, i requires 0 <= i < |names| => WorkOf(names[i]))
  }

  /** What one observed name yields: its fixed proposals and, per rule, the expansions in order (None when invalid). */
  datatype NameWork = NameWork(fixed: seq<Proposal>, rules: seq<seq<Option<Proposal>>>)

  function WorkingLimit(limit: nat): nat {
    if limit == 0 then 1 else Min(limit * 4, MAX_WORKING_SET)
  }

  /** The proposals equal, under every final limit, the compaction of everything appended so far. */
  ghost predicate Represents(proposals: seq<Proposal>, log: seq<Proposal>, domain: string, w: nat) {
    forall k :: 0 <= k <= w ==> Compact(proposals, domain, k) == Compact(log, domain, k)
  }

  lemma CompactMore(xs: seq<Proposal>, ys: seq<Proposal>, more: seq<Proposal>, domain: string, w: nat)
    requires Represents(xs, ys, domain, w)
    ensures Represents(xs + more, ys + more, domain, w)
  {
    forall k | 0 <= k <= w ensures Compact(xs + more, domain, k) == Compact(ys + more, domain, k) {
      EarlyCompactionIsExact(xs, more, domain, w, k);
      EarlyCompactionIsExact(ys, more, domain, w, k);
    }
  }

  lemma CompactEarlier(xs: seq<Proposal>, ys: seq<Proposal>, domain: string, w: nat)
    requires Represents(xs, ys, domain, w)
    ensures Represents(Compact(xs, domain, w), ys, domain, w)
    ensures |Compact(xs, domain, w)| <= w
  {
    forall k | 0 <= k <= w ensures Compact(Compact(xs, domain, w), domain, k) == Compact(ys, domain, k) {
      EarlyCompactionIsExact(xs, [], domain, w, k);
      assert xs + [] == xs && Compact(xs, domain, w) + [] == Compact(xs, domain, w);
    }
  }

  // ----- what the generator does, as a value -----

  function Values(expansions: seq<Option<Proposal>>): seq<Proposal> {
    if expansions == [] then []
    else Values(expansions[..|expansions| - 1]) + Offered(expansions[|expansions| - 1])
  }

  function Offered(expansion: Option<Proposal>): seq<Proposal> {
    if expansion.Some? then [expansion.value] else []
  }

  /** How many expansions a rule may inspect: the room left below the working limit, but at least one. */
  function Room(size: nat, w: nat): nat { if size < w then w - size else 1 }

  /** The working set, everything that was ever appended to it, and its largest size so far. */
  datatype Gen = Gen(proposals: seq<Proposal>, log: seq<Proposal>, peak: nat)

  function Push(s: Gen, added: seq<Proposal>): Gen {
    Gen(s.proposals + added, s.log + added, Max(s.peak, |s.proposals| + |added|))
  }

  function Trim(s: Gen, domain: string, w: nat): Gen {
    if |s.proposals| >= 2 * w then s.(proposals := Compact(s.proposals, domain, w)) else s
  }

  function RuleAdds(s: Gen, expansions: seq<Option<Proposal>>, w: nat): seq<Proposal> {
    Values(Take(expansions, Room(|s.proposals|, w)))
  }

  function AfterRule(s: Gen, expansions: seq<Option<Proposal>>, domain: string, w: nat): Gen {
    Trim(Push(s, RuleAdds(s, expansions, w)), domain, w)
  }

  /** After the first m rules of a name. */
  function AfterRules(s: Gen, rules: seq<seq<Option<Proposal>>>, m: nat, domain: string, w: nat): Gen
    requires m <= |rules|
  {
    if m == 0 then s
    else AfterRule(AfterRules(s, rules, m - 1, domain, w), rules[m - 1], domain, w)
  }

  function AfterName(s: Gen, item: NameWork, domain: string, w: nat): Gen {
    Trim(AfterRules(Push(s, item.fixed), item.rules, |item.rules|, domain, w), domain, w)
  }

  /** After the first n names. */
  function AfterNames(work: seq<NameWork>, n: nat, domain: string, w: nat): Gen
    requires n <= |work|
  {
    if n == 0 then Gen([], [], 0) else AfterName(AfterNames(work, n - 1, domain, w), work[n - 1], domain, w)
  }

  lemma OneMoreValue(expansions: seq<Option<Proposal>>, i: nat)
    requires i < |expansions|
    ensures Values(expansions[..i + 1]) == Values(expansions[..i]) + Offered(expansions[i])
  {
    assert expansions[..i + 1][..i] == expansions[..i];
  }

  lemma {:induction false} ValuesLength(expansions: seq<Option<Proposal>>)
    ensures |Values(expansions)| <= |expansions|
  {
    if expansions != [] {
      ValuesLength(expansions[..|expansions| - 1]);
    }
  }

  lemma {:induction false} ValuesAre(expansions: seq<Option<Proposal>>)
    ensures forall p :: p in Values(expansions) <==> Some(p) in expansions
  {
    if expansions != [] {
      var front, last := expansions[..|expansions| - 1], expansions[|expansions| - 1];
      ValuesAre(front);
      assert expansions == front + [last];
    }
  }

  // ----- what it keeps -----

  /** The working set stands for the log and is not too large. */
  ghost predicate Faithful(s: Gen, domain: string, w: nat, size: nat) {
    Represents(s.proposals, s.log, domain, w) && |s.proposals| <= size
  }

  lemma PushKeeps(s: Gen, added: seq<Proposal>, domain: string, w: nat)
    requires Represents(s.proposals, s.log, domain, w)
    ensures Represents(Push(s, added).proposals, Push(s, added).log, domain, w)
  {
    CompactMore(s.proposals, s.log, added, domain, w);
  }

  lemma TrimKeeps(s: Gen, domain: string, w: nat)
    requires Represents(s.proposals, s.log, domain, w) && w >= 1
    ensures Faithful(Trim(s, domain, w), domain, w, 2 * w - 1)
  {
    CompactEarlier(s.proposals, s.log, domain, w);
  }

  lemma RuleIsSmall(s: Gen, expansions: seq<Option<Proposal>>, w: nat)
    ensures |RuleAdds(s, expansions, w)| <= Room(|s.proposals|, w)
  {
    ValuesLength(Take(expansions, Room(|s.proposals|, w)));
  }

  /** The working set stands for the log, and neither it nor its past exceeds the bound. */
  ghost predicate Kept(s: Gen, domain: string, w: nat, bound: nat) {
    Represents(s.proposals, s.log, domain, w) && |s.proposals| < bound && s.peak <= bound
  }

  lemma OneRuleKeeps(s: Gen, added: seq<Proposal>, domain: string, w: nat, bound: nat)
    requires Kept(s, domain, w, bound) && 1 <= w && |added| <= Room(|s.proposals|, w) && 2 * w <= bound
    ensures Kept(Trim(Push(s, added), domain, w), domain, w, bound)
  {
    PushKeeps(s, added, domain, w);
    TrimKeeps(Push(s, added), domain, w);
  }

  lemma {:induction false} RulesKeep(s: Gen, rules: seq<seq<Option<Proposal>>>, m: nat, domain: string, w: nat, bound: nat)
    requires Kept(s, domain, w, bound) && 1 <= w && m <= |rules| && 2 * w <= bound
    ensures Kept(AfterRules(s, rules, m, domain, w), domain, w, bound)
  {
    if m > 0 {
      RulesKeep(s, rules, m - 1, domain, w, bound);
      var before := AfterRules(s, rules, m - 1, domain, w);
      RuleIsSmall(before, rules[m - 1], w);
      OneRuleKeeps(before, RuleAdds(before, rules[m - 1], w), domain, w, bound);
    }
  }

  /** However many names come, the working set stands for everything appended so far and stays within its bound. */
  lemma {:induction false} NamesKeep(work: seq<NameWork>, n: nat, domain: string, w: nat)
    requires n <= |work| && 1 <= w && forall i :: 0 <= i < |work| ==> |work[i].fixed| <= MAX_FIXED_PROPOSALS
    ensures var s := AfterNames(work, n, domain, w);
            Represents(s.proposals, s.log, domain, w) && |s.proposals| < 2 * w && s.peak <= 2 * w + MAX_FIXED_PROPOSALS
  {
    if n > 0 {
      var before, item := AfterNames(work, n - 1, domain, w), work[n - 1];
      NamesKeep(work, n - 1, domain, w);
      PushKeeps(before, item.fixed, domain, w);
      RulesKeep(Push(before, item.fixed), item.rules, |item.rules|, domain, w, 2 * w + MAX_FIXED_PROPOSALS);
      TrimKeeps(AfterRules(Push(before, item.fixed), item.rules, |item.rules|, domain, w), domain, w);
    }
  }

  // ----- what the log holds -----

  /** p is a fixed proposal of the name or an expansion of one of its rules. */
  predicate OfferedBy(item: NameWork, p: Proposal) {
    p in item.fixed || exists m :: 0 <= m < |item.rules| && Some(p) in item.rules[m]
  }

  lemma TakenIsOffered(expansions: seq<Option<Proposal>>, k: nat, p: Proposal)
    requires p in Values(Take(expansions, k))
    ensures Some(p) in expansions
  {
    ValuesAre(Take(expansions, k));
  }

  lemma {:induction false} RulesLog(s: Gen, item: NameWork, m: nat, domain: string, w: nat, p: Proposal)
    requires m <= |item.rules| && p in AfterRules(s, item.rules, m, domain, w).log
    ensures p in s.log || OfferedBy(item, p)
  {
    if m > 0 {
      var before := AfterRules(s, item.rules, m - 1, domain, w);
      if p in before.log {
        RulesLog(s, item, m - 1, domain, w, p);
      } else {
        TakenIsOffered(item.rules[m - 1], Room(|before.proposals|, w), p);
      }
    }
  }

  /** Nothing enters the log but what some name offers. */
  lemma {:induction false} LogIsOffered(work: seq<NameWork>, n: nat, domain: string, w: nat, p: Proposal)
    requires n <= |work| && p in AfterNames(work, n, domain, w).log
    ensures exists i :: 0 <= i < n && OfferedBy(work[i], p)
  {
    if n > 0 {
      var before, item := AfterNames(work, n - 1, domain, w), work[n - 1];
      RulesLog(Push(before, item.fixed), item, |item.rules|, domain, w, p);
      if OfferedBy(item, p) {
        assert OfferedBy(work[n - 1], p);
      } else {
        LogIsOffered(work, n - 1, domain, w, p);
      }
    }
  }

  /** The log holds the fixed proposals of a name and what its first rules offer first. */
  ghost predicate Logged(item: NameWork, rules: nat, log: seq<Proposal>) {
    && (forall p :: p in item.fixed ==> p in log)
    && (forall m :: 0 <= m < rules && m < |item.rules| && item.rules[m] != [] && item.rules[m][0].Some? ==>
          item.rules[m][0].value in log)
  }

  lemma FirstIsTaken(expansions: seq<Option<Proposal>>, k: nat)
    requires k >= 1 && expansions != [] && expansions[0].Some?
    ensures expansions[0].value in Values(Take(expansions, k))
  {
    ValuesAre(Take(expansions, k));
    assert Take(expansions, k)[0] == expansions[0];
  }

  lemma LoggedStep(item: NameWork, m: nat, log: seq<Proposal>, added: seq<Proposal>)
    requires Logged(item, m, log) && m < |item.rules|
    requires item.rules[m] != [] && item.rules[m][0].Some? ==> item.rules[m][0].value in added
    ensures Logged(item, m + 1, log + added)
  {
  }

  lemma LoggedMore(item: NameWork, m: nat, log: seq<Proposal>, more: seq<Proposal>)
    requires Logged(item, m, log) && log <= more
    ensures Logged(item, m, more)
  {
    assert forall p :: p in log ==> p in more;
  }

  lemma RuleOnlyAppends(log: seq<Proposal>, s: Gen, expansions: seq<Option<Proposal>>, domain: string, w: nat)
    requires log <= s.log
    ensures log <= AfterRule(s, expansions, domain, w).log
  {
  }

  lemma {:induction false} RulesOnlyAppend(log: seq<Proposal>, s: Gen, rules: seq<seq<Option<Proposal>>>, m: nat, domain: string, w: nat)
    requires m <= |rules| && log <= s.log
    ensures log <= AfterRules(s, rules, m, domain, w).log
  {
    if m > 0 {
      RulesOnlyAppend(log, s, rules, m - 1, domain, w);
      RuleOnlyAppends(log, AfterRules(s, rules, m - 1, domain, w), rules[m - 1], domain, w);
    }
  }

  lemma FirstIsAdded(s: Gen, expansions: seq<Option<Proposal>>, w: nat)
    requires expansions != [] && expansions[0].Some?
    ensures expansions[0].value in RuleAdds(s, expansions, w)
  {
    FirstIsTaken(expansions, Room(|s.proposals|, w));
  }

  lemma {:induction false} RulesAreLogged(s: Gen, item: NameWork, m: nat, domain: string, w: nat)
    requires m <= |item.rules| && Logged(item, 0, s.log)
    ensures Logged(item, m, AfterRules(s, item.rules, m, domain, w).log)
  {
    if m > 0 {
      RulesAreLogged(s, item, m - 1, domain, w);
      var before := AfterRules(s, item.rules, m - 1, domain, w);
      if item.rules[m - 1] != [] && item.rules[m - 1][0].Some? {
        FirstIsAdded(before, item.rules[m - 1], w);
      }
      LoggedStep(item, m - 1, before.log, RuleAdds(before, item.rules[m - 1], w));
    }
  }

  lemma NameIsLogged(s: Gen, item: NameWork, domain: string, w: nat)
    ensures Logged(item, |item.rules|, AfterName(s, item, domain, w).log)
  {
    RulesAreLogged(Push(s, item.fixed), item, |item.rules|, domain, w);
  }

  lemma NameOnlyAppends(s: Gen, item: NameWork, domain: string, w: nat)
    ensures s.log <= AfterName(s, item, domain, w).log
  {
    RulesOnlyAppend(s.log, Push(s, item.fixed), item.rules, |item.rules|, domain, w);
  }

  /** Every fixed proposal, and the first expansion of every rule, enters the log. */
  lemma {:induction false} NamesAreLogged(work: seq<NameWork>, n: nat, i: nat, domain: string, w: nat)
    requires i < n <= |work|
    ensures Logged(work[i], |work[i].rules|, AfterNames(work, n, domain, w).log)
  {
    var before := AfterNames(work, n - 1, domain, w);
    if i < n - 1 {
      NamesAreLogged(work, n - 1, i, domain, w);
      NameOnlyAppends(before, work[n - 1], domain, w);
      LoggedMore(work[i], |work[i].rules|, before.log, AfterName(before, work[n - 1], domain, w).log);
    } else {
      NameIsLogged(before, work[i], domain, w);
    }
  }

  // ----- what is cut -----

  /**
   k of n offers are inspected when the working set has this size: they never lead beyond the working limit, but for one
   that is always inspected, and none that still fits is left out.
   */
  predicate Inspects(k: nat, n: nat, size: nat, w: nat) {
    && k <= n && (size + k <= w || k <= 1)
    && (k < n ==> k >= 1 && size + k >= w)
  }

  lemma RoomInspects(n: nat, size: nat, w: nat) returns (k: nat)
    ensures Inspects(k, n, size, w) && forall expansions: seq<Option<Proposal>> :: |expansions| == n ==>
              Take(expansions, k) == Take(expansions, Room(size, w))
  {
    k := Min(n, Room(size, w));
  }

  /** Only one number of offers can be inspected. */
  lemma InspectsOnce(k: nat, l: nat, n: nat, size: nat, w: nat)
    requires Inspects(k, n, size, w) && Inspects(l, n, size, w)
    ensures k == l
  {
  }

  /** Everything that the first n names offer, in order. */
  function Everything(work: seq<NameWork>, n: nat): seq<Proposal>
    requires n <= |work|
  {
    if n == 0 then [] else Everything(work, n - 1) + work[n - 1].fixed + AllValues(work[n - 1].rules, |work[n - 1].rules|)
  }

  function AllValues(rules: seq<seq<Option<Proposal>>>, m: nat): seq<Proposal>
    requires m <= |rules|
  {
    if m == 0 then [] else AllValues(rules, m - 1) + Values(rules[m - 1])
  }

  /** How much that is at most: fixed proposals and offers, valid or not. */
  function Amount(work: seq<NameWork>, n: nat): nat
    requires n <= |work|
  {
    if n == 0 then 0 else Amount(work, n - 1) + |work[n - 1].fixed| + OfferCount(work[n - 1].rules, |work[n - 1].rules|)
  }

  function OfferCount(rules: seq<seq<Option<Proposal>>>, m: nat): nat
    requires m <= |rules|
  {
    if m == 0 then 0 else OfferCount(rules, m - 1) + |rules[m - 1]|
  }

  /** The working set is the whole log and has this size at most. */
  ghost predicate Uncut(s: Gen, all: seq<Proposal>, size: nat) {
    s.proposals == s.log == all && |all| <= size
  }

  lemma PushUncut(s: Gen, all: seq<Proposal>, size: nat, added: seq<Proposal>, more: nat)
    requires Uncut(s, all, size) && |added| <= more
    ensures Uncut(Push(s, added), all + added, size + more)
  {
  }

  lemma {:induction false} RuleUncut(s: Gen, all: seq<Proposal>, size: nat, expansions: seq<Option<Proposal>>, domain: string, w: nat)
    requires Uncut(s, all, size) && size + |expansions| <= w && w >= 1
    ensures Uncut(AfterRule(s, expansions, domain, w), all + Values(expansions), size + |expansions|)
  {
    assert Take(expansions, Room(|s.proposals|, w)) == expansions;
    ValuesLength(expansions);
    PushUncut(s, all, size, Values(expansions), |expansions|);
  }

  lemma {:induction false} RulesUncut(
      s: Gen, all: seq<Proposal>, size: nat, rules: seq<seq<Option<Proposal>>>, m: nat, domain: string, w: nat)
    requires m <= |rules| && Uncut(s, all, size) && size + OfferCount(rules, m) <= w && w >= 1
    ensures Uncut(AfterRules(s, rules, m, domain, w), all + AllValues(rules, m), size + OfferCount(rules, m))
  {
    if m == 0 {
      assert all + [] == all;
    } else {
      RulesUncut(s, all, size, rules, m - 1, domain, w);
      RuleUncut(AfterRules(s, rules, m - 1, domain, w), all + AllValues(rules, m - 1), size + OfferCount(rules, m - 1),
                rules[m - 1], domain, w);
      assert all + AllValues(rules, m - 1) + Values(rules[m - 1]) == all + AllValues(rules, m);
    }
  }

  /** As long as everything on offer fits below the working limit, everything is appended and nothing is compacted. */
  lemma {:induction false} NothingIsCutWhatFits(work: seq<NameWork>, n: nat, domain: string, w: nat)
    requires n <= |work| && Amount(work, n) <= w && w >= 1
    ensures Uncut(AfterNames(work, n, domain, w), Everything(work, n), Amount(work, n))
  {
    if n > 0 {
      var before, item := AfterNames(work, n - 1, domain, w), work[n - 1];
      NothingIsCutWhatFits(work, n - 1, domain, w);
      PushUncut(before, Everything(work, n - 1), Amount(work, n - 1), item.fixed, |item.fixed|);
      RulesUncut(Push(before, item.fixed), Everything(work, n - 1) + item.fixed, Amount(work, n - 1) + |item.fixed|,
                 item.rules, |item.rules|, domain, w);
    }
  }

  /** What compaction keeps outscores what it drops: of each name the best, and of the names the best. */
  lemma KeptOutscoresDropped(xs: seq<Proposal>, domain: string, limit: nat, p: Proposal, q: Proposal)
    requires p in Compact(xs, domain, limit) && q in xs && Fits(q, domain) && q !in Compact(xs, domain, limit)
    ensures q.relativeName == p.relativeName ==>
              p.score > q.score || (p.score == q.score && CompareStrings(p.generator, q.generator) == Less)
    ensures q.relativeName !in Names(Compact(xs, domain, limit)) ==>
              && |Compact(xs, domain, limit)| == limit
              && (p.score > q.score || (p.score == q.score && CompareStrings(p.relativeName, q.relativeName) == Less))
  {
    var r, s := Compact(xs, domain, limit), Champions(Elements(xs), domain);
    CompactIsBest(xs, domain, limit);
    BeforeIsStrict();
    assert p in Elements(r) && Leads(p, Elements(xs), domain);
    if q.relativeName !in Names(r) {
      var c := ChampionExists(Elements(xs), domain, q);
      assert c in s && c.relativeName == q.relativeName;
      assert c !in Elements(r) by { assert c in r ==> c.relativeName in Names(r); }
      if |r| < limit {
        AscendingCardinality(Before, r);
        SubsetSameSize(Elements(r), s);
      }
      assert Before(p, c);
      StringsTotal();
    }
  }

  // ----- the generator -----

  /** The working set only gets full with the last candidate. */
  lemma FullAtTheLast(candidates: seq<Option<Proposal>>, i: nat, size: nat, w: nat)
    requires i < |candidates| <= Room(size, w) && size + |Values(candidates[..i + 1])| >= w
    ensures candidates[..i + 1] == candidates
  {
    ValuesLength(candidates[..i + 1]);
  }

  lemma Appended(proposals: seq<Proposal>, candidates: seq<Option<Proposal>>, i: nat)
    requires i < |candidates|
    ensures (proposals + Values(candidates[..i])) + Offered(candidates[i]) == proposals + Values(candidates[..i + 1])
  {
    OneMoreValue(candidates, i);
  }

  lemma TakeProposed(texts: seq<string>, propose: string -> Option<Proposal>, k: nat)
    ensures Take(Proposed(texts, propose), k) == Proposed(Take(texts, k), propose)
  {
  }

  /** The candidates of one rule, of which there are not more than fit; the loop stops when the working set is full. */
  method Inspect(candidates: seq<string>, propose: string -> Option<Proposal>, w: nat, proposals: seq<Proposal>)
    returns (r: seq<Proposal>)
    requires |candidates| <= Room(|proposals|, w)
    ensures r == proposals + Values(Proposed(candidates, propose))
  {
    ghost var inspected := Proposed(candidates, propose);
    r := proposals;
    for i := 0 to |candidates|
      invariant r == proposals + Values(inspected[..i])
    {
      Appended(proposals, inspected, i);
      var proposal := propose(candidates[i]);
      if proposal.Some? {
        r := r + [proposal.value];
      } else {
        assert r + [] == r;
      }
      if |r| >= w {
        FullAtTheLast(inspected, i, |proposals|, w);
        return;
      }
    }
    assert inspected[..|candidates|] == inspected;
  }

  /** One rule: at least one expansion is inspected, and the working cap stops the rest. */
  method ApplyRule(rule: Rule, w: nat, proposals: seq<Proposal>) returns (r: seq<Proposal>)
    requires w >= 1
    ensures r == proposals + Values(Take(Offers(rule), Room(|proposals|, w)))
    ensures |r| <= (if |proposals| < w then w else |proposals| + 1)
    ensures exists k :: Inspects(k, |Offers(rule)|, |proposals|, w) && r == proposals + Values(Take(Offers(rule), k))
  {
    var remaining := if |proposals| < w then w - |proposals| else 1;
    var candidates := PatternExpansion.ExpandPattern(rule.pattern, rule.word, rule.parent, remaining);
    r := Inspect(candidates, rule.propose, w, proposals);
    TakeProposed(PatternExpansion.Expansions(rule.pattern, rule.word, rule.parent), rule.propose, remaining);
    ValuesLength(Proposed(candidates, rule.propose));
    ghost var k := RoomInspects(|Offers(rule)|, |proposals|, w);
  }

  /** A function that says what each rule offers; the loop over the rules only needs to know that there is one. */
  ghost predicate IsOffers(offers: Rule -> seq<Option<Proposal>>) {
    forall rule {:trigger Offers(rule)} :: offers(rule) == Offers(rule)
  }

  method ApplyOffers(rule: Rule, ghost offers: Rule -> seq<Option<Proposal>>, w: nat, proposals: seq<Proposal>)
    returns (r: seq<Proposal>)
    requires w >= 1 && IsOffers(offers)
    ensures r == proposals + Values(Take(offers(rule), Room(|proposals|, w)))
  {
    r := ApplyRule(rule, w, proposals);
  }

  method TrimWorkingSet(proposals: seq<Proposal>, ghost s: Gen, domain: string, w: nat) returns (r: seq<Proposal>)
    requires proposals == s.proposals
    ensures r == Trim(s, domain, w).proposals
  {
    r := proposals;
    if |proposals| >= 2 * w {
      r := CompactProposals(proposals, domain, w);
    }
  }

  /** The rules of one name. */
  method ApplyRules(
      proposals: seq<Proposal>, ghost s: Gen, rules: seq<Rule>, ghost offers: Rule -> seq<Option<Proposal>>, ghost item: NameWork,
      domain: string, w: nat)
    returns (r: seq<Proposal>)
    requires w >= 1 && proposals == s.proposals && IsOffers(offers)
    requires |item.rules| == |rules| && forall m :: 0 <= m < |rules| ==> item.rules[m] == offers(rules[m])
    ensures r == AfterRules(s, item.rules, |item.rules|, domain, w).proposals
  {
    r := proposals;
    for m := 0 to |rules|
      invariant r == AfterRules(s, item.rules, m, domain, w).proposals
    {
      ghost var before := AfterRules(s, item.rules, m, domain, w);
      r := ApplyOffers(rules[m], offers, w, r);
      r := TrimWorkingSet(r, Push(before, RuleAdds(before, item.rules[m], w)), domain, w);
    }
  }

  /**
   The bounded generator: whatever was compacted on the way, the result is the compaction of everything ever
   appended, and the working set never exceeds twice the working limit plus a constant per name.
   */
  method GenerateContextual(names: seq<NameRules>, domain: string, limit: nat) returns (r: seq<Proposal>)
    requires forall i :: 0 <= i < |names| ==> |names[i].fixed| <= MAX_FIXED_PROPOSALS
    ensures var s := AfterNames(AllWork(names), |names|, domain, WorkingLimit(limit));
            && r == (if limit == 0 then [] else Compact(s.proposals, domain, Min(limit, MAX_WORKING_SET)))
            && r == (if limit == 0 then [] else Compact(s.log, domain, Min(limit, MAX_WORKING_SET)))
            && s.peak <= 2 * WorkingLimit(limit) + MAX_FIXED_PROPOSALS
    ensures 0 < limit && Amount(AllWork(names), |names|) <= Min(4 * limit, 100_000) ==>
              r == Compact(Everything(AllWork(names), |names|), domain, Min(limit, 100_000))
  {
    var w := WorkingLimit(limit);
    ghost var work := AllWork(names);
    assert forall i :: 0 <= i < |names| ==> work[i].fixed == names[i].fixed;
    NamesKeep(work, |work|, domain, w);
    if limit == 0 {
      return [];
    }
    var proposals: seq<Proposal> := [];
    for n := 0 to |names|
      invariant proposals == AfterNames(work, n, domain, w).proposals
    {
      proposals := ApplyName(proposals, AfterNames(work, n, domain, w), names[n], work[n], domain, w);
    }
    if Amount(work, |work|) <= w {
      NothingIsCutWhatFits(work, |work|, domain, w);
    }
    r := CompactProposals(proposals, domain, Min(limit, MAX_WORKING_SET));
  }

  method ApplyName(proposals: seq<Proposal>, ghost s: Gen, name: NameRules, ghost item: NameWork, domain: string, w: nat)
    returns (r: seq<Proposal>)
    requires w >= 1 && proposals == s.proposals && item == WorkOf(name)
    ensures r == AfterName(s, item, domain, w).proposals
  {
    ghost var pushed := Push(s, item.fixed);
    r := ApplyRules(proposals + name.fixed, pushed, name.rules, Offers, item, domain, w);
    r := TrimWorkingSet(r, AfterRules(pushed, item.rules, |item.rules|, domain, w), domain, w);
  }
}
