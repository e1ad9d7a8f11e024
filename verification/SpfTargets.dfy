/** Where the terms of an SPF record point (src/dns_policy.rs): their domain or else their owner, in any spelling. */
module SpfTargets {
  import opened Basics
  import opened Hostnames
  import opened SpfPlanner
  import HostnameRules

  /** Any of the four qualifiers, as often as one likes. */
  predicate Qualifiers(s: string) { forall i :: 0 <= i < |s| ==> s[i] in {'+', '-', '~', '?'} }

  /**
   The target is what this domain names: nothing if it holds a macro or is no name; the name itself inside the scanned
   domain, with the host to report, or outside of it.
   */
  ghost predicate PointsTo(c: Setup, domain: string, target: Target) {
    var name := NormalizeQueryName(c.parse, TrimEnd(domain, ch => ch == '/'));
    if '%' in domain || name.None? then target == Unusable
    else if name.value == c.root || exists front :: name.value == front + ("." + c.root) then
      target == Inside(name.value, NormalizeObservedName(name.value, c.root))
    else target == Outside(name.value)
  }

  lemma {:induction false} QualifiersAreSkipped(qualifiers: string, term: string)
    requires Qualifiers(qualifiers) && (term == "" || term[0] !in {'+', '-', '~', '?'})
    ensures TrimStart(qualifiers + term, Qualifier) == term
  {
    if qualifiers == "" {
      assert qualifiers + term == term;
    } else {
      assert (qualifiers + term)[1..] == qualifiers[1..] + term;
      QualifiersAreSkipped(qualifiers[1..], term);
    }
  }

  lemma ResolvesToDomain(c: Setup, owner: string, term: Term)
    ensures PointsTo(c, if term.target.Some? then term.target.value else owner, Resolve(c, owner, term))
  {
    var written := if term.target.Some? then term.target.value else owner;
    var name := NormalizeQueryName(c.parse, TrimEnd(written, ch => ch == '/'));
    if name.Some? { HostnameRules.InScopeIff(name.value, c.root); }
  }

  lemma LowerJoins(a: string, b: string)
    ensures Lower(a + b) == Lower(a) + Lower(b)
  {
  }

  /** The mechanism that a word of these letters names when a domain must follow. */
  function LongMechanism(keyword: string): Option<Mechanism> {
    if Lower(keyword) == "include:" then Some(Include)
    else if Lower(keyword) == "redirect=" then Some(Redirect)
    else if Lower(keyword) == "exists:" then Some(Exists)
    else None
  }

  function ShortMechanism(keyword: string): Option<Mechanism> {
    if Lower(keyword) == "a" then Some(AddressA) else if Lower(keyword) == "mx" then Some(MailExchanger) else None
  }

  lemma {:induction false} LongIsParsed(qualifiers: string, keyword: string, domain: string)
    requires Qualifiers(qualifiers) && LongMechanism(keyword).Some?
    ensures ParseTerm(qualifiers + (keyword + domain)) == Some(Term(LongMechanism(keyword).value, Some(domain)))
  {
    var term := keyword + domain;
    var lower := Lower(term);
    LowerJoins(keyword, domain);
    FirstLetter(keyword);
    assert term[0] == keyword[0] && term[|keyword|..] == domain;
    QualifiersAreSkipped(qualifiers, term);
    assert lower[0] == Lower(keyword)[0];
    assert Lower(keyword) <= lower;
  }

  lemma FirstLetter(keyword: string)
    requires LongMechanism(keyword).Some? || ShortMechanism(keyword).Some?
    ensures keyword != "" && keyword[0] !in {'+', '-', '~', '?'}
  {
    assert Lower(keyword)[0] in {'i', 'r', 'e', 'a', 'm'};
  }

  /** `include:`, `redirect=` and `exists:`, in any case and with any qualifiers, point to the domain behind them. */
  lemma LongTermPoints(c: Setup, owner: string, qualifiers: string, keyword: string, domain: string)
    requires Qualifiers(qualifiers) && LongMechanism(keyword).Some?
    ensures var request := ReadTerm(c, owner, qualifiers + (keyword + domain));
            request.Some? && request.value.mechanism == LongMechanism(keyword).value && PointsTo(c, domain, request.value.target)
  {
    LongIsParsed(qualifiers, keyword, domain);
    ResolvesToDomain(c, owner, Term(LongMechanism(keyword).value, Some(domain)));
  }

  /** Nothing, or a prefix length behind a slash. */
  predicate PrefixLength(s: string) { s == "" || s[0] == '/' }

  lemma {:induction false} SlashEnds(domain: string, length: string)
    requires '/' !in domain && PrefixLength(length)
    ensures BeforeSlash(domain + length) == domain
  {
    var s := domain + length;
    if domain == "" {
      assert s == length;
    } else {
      assert s[1..] == domain[1..] + length && s[0] == domain[0];
      SlashEnds(domain[1..], length);
    }
  }

  lemma {:induction false} ShortIsParsed(qualifiers: string, keyword: string, tail: string)
    requires Qualifiers(qualifiers) && ShortMechanism(keyword).Some? && (PrefixLength(tail) || tail[0] == ':')
    ensures ParseTerm(qualifiers + (keyword + tail)) == Some(Term(ShortMechanism(keyword).value, MechanismTarget(tail)))
  {
    var term := keyword + tail;
    var lower := Lower(term);
    LowerJoins(keyword, tail);
    FirstLetter(keyword);
    assert term[0] == keyword[0] && term[|keyword|..] == tail;
    QualifiersAreSkipped(qualifiers, term);
    assert lower[0] == Lower(keyword)[0];
    if tail == "" {
      assert lower == Lower(keyword);
    } else {
      assert lower[|keyword|] == tail[0];
      assert lower[..|keyword| + 1] == Lower(keyword) + [tail[0]];
    }
  }

  /** `a` and `mx` point to the domain behind their colon, whatever prefix length follows. */
  lemma ShortTermPoints(c: Setup, owner: string, qualifiers: string, keyword: string, domain: string, length: string)
    requires Qualifiers(qualifiers) && ShortMechanism(keyword).Some?
    requires domain != "" && '/' !in domain && PrefixLength(length)
    ensures var request := ReadTerm(c, owner, qualifiers + (keyword + (":" + (domain + length))));
            request.Some? && request.value.mechanism == ShortMechanism(keyword).value && PointsTo(c, domain, request.value.target)
  {
    var tail := ":" + (domain + length);
    ShortIsParsed(qualifiers, keyword, tail);
    SlashEnds(domain, length);
    assert tail[1..] == domain + length;
    ResolvesToDomain(c, owner, Term(ShortMechanism(keyword).value, Some(domain)));
  }

  /** Without a domain they point to the owner of the record. */
  lemma BareTermPoints(c: Setup, owner: string, qualifiers: string, keyword: string, length: string)
    requires Qualifiers(qualifiers) && ShortMechanism(keyword).Some? && PrefixLength(length)
    ensures var request := ReadTerm(c, owner, qualifiers + (keyword + length));
            request.Some? && request.value.mechanism == ShortMechanism(keyword).value && PointsTo(c, owner, request.value.target)
  {
    ShortIsParsed(qualifiers, keyword, length);
    ResolvesToDomain(c, owner, Term(ShortMechanism(keyword).value, None));
  }
}
