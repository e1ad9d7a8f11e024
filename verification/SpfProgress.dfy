/**
 What an SPF record makes the planner ask (src/dns_policy.rs): the record types of each kind of term, one lookup for
 every term that costs one, and every term within the budget.
 */
module SpfProgress {
  import opened Basics
  import opened Hostnames
  import opened SpfPlanner
  import opened SpfTheorems

  // ----- reading a term -----

  /** The term, without its qualifier, begins with these letters in any case. */
  predicate Begins(raw: string, letters: string) {
    var term := TrimStart(raw, Qualifier);
    |letters| <= |term| && Lower(term[..|letters|]) == letters
  }

  lemma BeginsLower(raw: string, letters: string)
    requires Begins(raw, letters)
    ensures letters <= Lower(TrimStart(raw, Qualifier))
  {
    var term := TrimStart(raw, Qualifier);
    assert Lower(term)[..|letters|] == Lower(term[..|letters|]);
  }

  lemma Letter(raw: string, letters: string, i: nat)
    requires letters <= Lower(TrimStart(raw, Qualifier)) && i < |letters|
    ensures Lower(TrimStart(raw, Qualifier))[i] == letters[i]
  {
  }

  lemma IncludeIsRead(raw: string)
    requires Begins(raw, "include:")
    ensures ParseTerm(raw) == Some(Term(Include, Some(TrimStart(raw, Qualifier)[8..])))
  {
    BeginsLower(raw, "include:");
  }

  lemma RedirectIsRead(raw: string)
    requires Begins(raw, "redirect=")
    ensures ParseTerm(raw) == Some(Term(Redirect, Some(TrimStart(raw, Qualifier)[9..])))
  {
    BeginsLower(raw, "redirect=");
    Letter(raw, "redirect=", 0);
  }

  lemma AddressIsRead(raw: string)
    requires Begins(raw, "a:") || Begins(raw, "a/") || Lower(TrimStart(raw, Qualifier)) == "a"
    ensures ParseTerm(raw) == Some(Term(AddressA, MechanismTarget(TrimStart(raw, Qualifier)[1..])))
  {
    if Begins(raw, "a:") {
      BeginsLower(raw, "a:");
      Letter(raw, "a:", 0);
    } else if Begins(raw, "a/") {
      BeginsLower(raw, "a/");
      Letter(raw, "a/", 0);
    }
  }

  lemma MailIsRead(raw: string)
    requires Begins(raw, "mx:") || Begins(raw, "mx/") || Lower(TrimStart(raw, Qualifier)) == "mx"
    ensures ParseTerm(raw) == Some(Term(MailExchanger, MechanismTarget(TrimStart(raw, Qualifier)[2..])))
  {
    if Begins(raw, "mx:") {
      BeginsLower(raw, "mx:");
      Letter(raw, "mx:", 0);
    } else if Begins(raw, "mx/") {
      BeginsLower(raw, "mx/");
      Letter(raw, "mx/", 0);
    } else {
      assert "mx"[0] == 'm';
    }
  }

  lemma ExistsIsRead(raw: string)
    requires Begins(raw, "exists:")
    ensures ParseTerm(raw) == Some(Term(Exists, Some(TrimStart(raw, Qualifier)[7..])))
  {
    BeginsLower(raw, "exists:");
    Letter(raw, "exists:", 0);
  }

  // ----- one request -----

  /** p after a term that cost a lookup, with these further queries and the host it names. */
  function Charged(p: Progress, hostname: Option<string>, queries: seq<Query>): Progress {
    var named := if hostname.Some? then p.delta.names + {hostname.value} else p.delta.names;
    p.(lookups := p.lookups + 1, delta := p.delta.(names := named, queries := p.delta.queries + queries))
  }

  /** There is a lookup left for the term. */
  predicate Affordable(c: Setup, p: Progress) { !p.stopped && p.lookups < c.maxLookups }

  lemma PolicyRequestAsks(c: Setup, f: Frame, p: Progress, raw: string, m: Mechanism, target: string, hostname: Option<string>)
    requires Affordable(c, p) && (m.Include? || m.Redirect?) && target !in f.expanded && f.depth < c.maxDepth
    ensures var depth := if target in p.pending then Min(p.pending[target], f.depth + 1) else f.depth + 1;
            StepRequest(c, f, p, raw, Some(Request(m, Inside(target, hostname))))
            == Charged(p, hostname, [Query(target, TXT, Spf)]).(pending := p.pending[target := depth])
  {
  }

  lemma PolicyRequestStops(c: Setup, f: Frame, p: Progress, raw: string, m: Mechanism, target: string, hostname: Option<string>)
    requires Affordable(c, p) && (m.Include? || m.Redirect?) && (target in f.expanded || f.depth >= c.maxDepth)
    ensures var charged := Charged(p, hostname, []);
            StepRequest(c, f, p, raw, Some(Request(m, Inside(target, hostname))))
            == charged.(delta := if target in f.expanded then charged.delta.(loops := p.delta.loops + {target})
                                 else charged.delta.(limits := p.delta.limits + {SpfDepth}))
  {
    assert p.delta.queries + [] == p.delta.queries;
  }

  lemma OtherRequestAsks(c: Setup, f: Frame, p: Progress, raw: string, m: Mechanism, target: string, hostname: Option<string>)
    requires Affordable(c, p) && !m.Include? && !m.Redirect?
    ensures StepRequest(c, f, p, raw, Some(Request(m, Inside(target, hostname))))
         == Charged(p, hostname, if m.AddressA? then [Query(target, A, Spf), Query(target, AAAA, Spf)]
                                 else [Query(target, if m.Exists? then A else MX, Spf)])
  {
  }

  /** A target outside the scanned domain is reported with the kind of its term and not asked for; an unusable one is noted. */
  lemma ForeignRequestIsReported(c: Setup, f: Frame, p: Progress, raw: string, m: Mechanism, target: Target)
    requires Affordable(c, p) && !target.Inside?
    ensures var after, kind := StepRequest(c, f, p, raw, Some(Request(m, target))),
                               match m case Include => SpfInclude case Redirect => SpfRedirect case AddressA => SpfA
                                       case MailExchanger => SpfMx case Exists => SpfExists;
            && after.lookups == p.lookups + 1 && after.pending == p.pending && !after.stopped
            && after.delta == if target.Outside? then p.delta.(external := p.delta.external + {ExternalFeature(f.owner, target.name, kind)})
                              else p.delta.(unsupported := p.delta.unsupported + {raw})
  {
  }

  // ----- one term -----

  /** The planner follows a term whose reading is known. */
  lemma StepOfReading(c: Setup, f: Frame, p: Progress, raw: string, term: Term)
    requires ParseTerm(raw) == Some(term)
    ensures StepTerm(c, f, p, raw) == StepRequest(c, f, p, raw, Some(Request(term.mechanism, Resolve(c, f.owner, term))))
    ensures Costs(c, f.owner, raw)
  {
  }

  /** `include:` and `redirect=` ask for the TXT record of a new name, one level deeper. */
  lemma PolicyTermAsks(c: Setup, f: Frame, p: Progress, raw: string, term: Term, target: string, hostname: Option<string>)
    requires Affordable(c, p) && target !in f.expanded && f.depth < c.maxDepth
    requires (Begins(raw, "include:") && term == Term(Include, Some(TrimStart(raw, Qualifier)[8..])))
             || (Begins(raw, "redirect=") && term == Term(Redirect, Some(TrimStart(raw, Qualifier)[9..])))
    requires Resolve(c, f.owner, term) == Inside(target, hostname)
    ensures var depth := if target in p.pending then Min(p.pending[target], f.depth + 1) else f.depth + 1;
            StepTerm(c, f, p, raw) == Charged(p, hostname, [Query(target, TXT, Spf)]).(pending := p.pending[target := depth])
  {
    if term.mechanism.Include? { IncludeIsRead(raw); } else { RedirectIsRead(raw); }
    StepOfReading(c, f, p, raw, term);
    PolicyRequestAsks(c, f, p, raw, term.mechanism, target, hostname);
  }

  /** A name that was expanded before is reported as a loop, and one that lies too deep as a limit; neither is asked for. */
  lemma PolicyTermStops(c: Setup, f: Frame, p: Progress, raw: string, term: Term, target: string, hostname: Option<string>)
    requires Affordable(c, p) && (target in f.expanded || f.depth >= c.maxDepth)
    requires (Begins(raw, "include:") && term == Term(Include, Some(TrimStart(raw, Qualifier)[8..])))
             || (Begins(raw, "redirect=") && term == Term(Redirect, Some(TrimStart(raw, Qualifier)[9..])))
    requires Resolve(c, f.owner, term) == Inside(target, hostname)
    ensures var charged := Charged(p, hostname, []);
            StepTerm(c, f, p, raw)
            == charged.(delta := if target in f.expanded then charged.delta.(loops := p.delta.loops + {target})
                                 else charged.delta.(limits := p.delta.limits + {SpfDepth}))
  {
    if term.mechanism.Include? { IncludeIsRead(raw); } else { RedirectIsRead(raw); }
    StepOfReading(c, f, p, raw, term);
    PolicyRequestStops(c, f, p, raw, term.mechanism, target, hostname);
  }

  /** `a` asks for both addresses of its domain. */
  lemma AddressTermAsks(c: Setup, f: Frame, p: Progress, raw: string, target: string, hostname: Option<string>)
    requires Affordable(c, p) && (Begins(raw, "a:") || Begins(raw, "a/") || Lower(TrimStart(raw, Qualifier)) == "a")
    requires Resolve(c, f.owner, Term(AddressA, MechanismTarget(TrimStart(raw, Qualifier)[1..]))) == Inside(target, hostname)
    ensures StepTerm(c, f, p, raw) == Charged(p, hostname, [Query(target, A, Spf), Query(target, AAAA, Spf)])
  {
    AddressIsRead(raw);
    StepOfReading(c, f, p, raw, ParseTerm(raw).value);
    OtherRequestAsks(c, f, p, raw, AddressA, target, hostname);
  }

  /** `mx` asks for the mail exchangers of its domain. */
  lemma MailTermAsks(c: Setup, f: Frame, p: Progress, raw: string, target: string, hostname: Option<string>)
    requires Affordable(c, p) && (Begins(raw, "mx:") || Begins(raw, "mx/") || Lower(TrimStart(raw, Qualifier)) == "mx")
    requires Resolve(c, f.owner, Term(MailExchanger, MechanismTarget(TrimStart(raw, Qualifier)[2..]))) == Inside(target, hostname)
    ensures StepTerm(c, f, p, raw) == Charged(p, hostname, [Query(target, MX, Spf)])
  {
    MailIsRead(raw);
    StepOfReading(c, f, p, raw, ParseTerm(raw).value);
    OtherRequestAsks(c, f, p, raw, MailExchanger, target, hostname);
  }

  /** `exists:` asks for the IPv4 address of its domain. */
  lemma ExistsTermAsks(c: Setup, f: Frame, p: Progress, raw: string, target: string, hostname: Option<string>)
    requires Affordable(c, p) && Begins(raw, "exists:")
    requires Resolve(c, f.owner, Term(Exists, Some(TrimStart(raw, Qualifier)[7..]))) == Inside(target, hostname)
    ensures StepTerm(c, f, p, raw) == Charged(p, hostname, [Query(target, A, Spf)])
  {
    ExistsIsRead(raw);
    StepOfReading(c, f, p, raw, ParseTerm(raw).value);
    OtherRequestAsks(c, f, p, raw, Exists, target, hostname);
  }

  predicate PrefixOnly(raw: string, letters: string) { letters <= Lower(TrimStart(raw, Qualifier)) ==> Begins(raw, letters) }

  lemma PrefixBegins(raw: string, letters: string)
    ensures PrefixOnly(raw, letters)
  {
    var term := TrimStart(raw, Qualifier);
    if letters <= Lower(term) {
      assert Lower(term[..|letters|]) == Lower(term)[..|letters|];
    }
  }

  /** Only terms that begin in these ways cost a lookup. */
  lemma OtherTermsCostNothing(c: Setup, owner: string, raw: string)
    requires !Begins(raw, "include:") && !Begins(raw, "redirect=") && !Begins(raw, "exists:")
    requires !Begins(raw, "a:") && !Begins(raw, "a/") && !Begins(raw, "mx:") && !Begins(raw, "mx/")
    requires Lower(TrimStart(raw, Qualifier)) != "a" && Lower(TrimStart(raw, Qualifier)) != "mx"
    ensures !Costs(c, owner, raw)
  {
    PrefixBegins(raw, "include:");
    PrefixBegins(raw, "redirect=");
    PrefixBegins(raw, "exists:");
    PrefixBegins(raw, "a:");
    PrefixBegins(raw, "a/");
    PrefixBegins(raw, "mx:");
    PrefixBegins(raw, "mx/");
  }

  // ----- the lookups of a record -----

  predicate Costs(c: Setup, owner: string, raw: string) { ReadTerm(c, owner, raw).Some? }

  /** How many of these terms cost a lookup. */
  function Cost(c: Setup, owner: string, terms: seq<string>): nat {
    if terms == [] then 0
    else Cost(c, owner, terms[..|terms| - 1]) + if Costs(c, owner, terms[|terms| - 1]) then 1 else 0
  }

  /** After terms of this cost: each has been paid, and the record has stopped iff there were not enough lookups. */
  predicate Accounts(c: Setup, start: nat, cost: nat, after: Progress) {
    && after.lookups == Min(start + cost, c.maxLookups)
    && (after.stopped <==> start + cost > c.maxLookups)
    && (after.stopped ==> SpfLookupBudget in after.delta.limits)
  }

  /** A record pays one lookup for each term that costs one, and stops iff it has more of them than lookups are left. */
  lemma {:induction false} LookupsAreTheCost(c: Setup, f: Frame, p: Progress, terms: seq<string>)
    requires !p.stopped && p.lookups <= c.maxLookups
    ensures Accounts(c, p.lookups, Cost(c, f.owner, terms), StepTerms(c, f, p, terms))
  {
    if terms != [] {
      var front, last := terms[..|terms| - 1], terms[|terms| - 1];
      LookupsAreTheCost(c, f, p, front);
      OneCost(c, f, StepTerms(c, f, p, front), last, ReadTerm(c, f.owner, last), p.lookups, Cost(c, f.owner, front));
    }
  }

  lemma OneCost(c: Setup, f: Frame, p: Progress, raw: string, request: Option<Request>, start: nat, cost: nat)
    requires start <= c.maxLookups && Accounts(c, start, cost, p)
    ensures Accounts(c, start, cost + (if request.Some? then 1 else 0), StepRequest(c, f, p, raw, request))
  {
  }

  // ----- every term within the budget -----

  predicate Grown(a: Progress, b: Progress) {
    a.delta.queries <= b.delta.queries && a.delta.names <= b.delta.names && a.delta.external <= b.delta.external
  }

  lemma {:induction false} TermsOnlyAdd(c: Setup, f: Frame, p: Progress, terms: seq<string>, k: nat)
    requires k <= |terms|
    ensures Grown(StepTerms(c, f, p, terms[..k]), StepTerms(c, f, p, terms))
    decreases |terms| - k
  {
    if k < |terms| {
      NextTerm(c, f, p, terms, k);
      TermsOnlyAdd(c, f, p, terms, k + 1);
      TermOnlyAdds(c, f, StepTerms(c, f, p, terms[..k]), terms[k], ReadTerm(c, f.owner, terms[k]));
    } else {
      assert terms[..k] == terms;
    }
  }

  lemma TermOnlyAdds(c: Setup, f: Frame, p: Progress, raw: string, request: Option<Request>)
    ensures Grown(p, StepRequest(c, f, p, raw, request))
  {
  }

  /** The state of an expansion before its term k. */
  function Before(c: Setup, s: SpfState, owner: string, words: seq<string>, k: nat): Progress
    requires k < |words| - 1
  {
    StepTerms(c, Frame(owner, DepthOf(s, owner), s.expanded + {owner}), Progress(s.lookups, s.pending - {owner}, Nothing(), false), words[1..][..k])
  }

  /**
   An expansion asks for whatever its term k asks for, as long as the terms before it have left a lookup: each of those
   names and types is among its queries.
   */
  lemma RecordAsks(c: Setup, s: SpfState, rawOwner: string, record: string, k: nat, q: Query)
    requires Expands(c, s, rawOwner).Some? && s.lookups <= c.maxLookups
    requires var words := Words(c.unquote(record)); k < |words| - 1 && Lower(words[0]) == "v=spf1"
    requires var owner, words := Expands(c, s, rawOwner).value, Words(c.unquote(record));
             && s.lookups + Cost(c, owner, words[1..][..k]) < c.maxLookups
             && q in StepTerm(c, Frame(owner, DepthOf(s, owner), s.expanded + {owner}), Before(c, s, owner, words, k), words[k + 1]).delta.queries
    ensures Key(q) in Keys(Expand(c, s, rawOwner, record).1.queries)
    ensures !Before(c, s, Expands(c, s, rawOwner).value, Words(c.unquote(record)), k).stopped
  {
    var owner, words := Expands(c, s, rawOwner).value, Words(c.unquote(record));
    var f, first := Frame(owner, DepthOf(s, owner), s.expanded + {owner}), Progress(s.lookups, s.pending - {owner}, Nothing(), false);
    var terms := words[1..];
    LookupsAreTheCost(c, f, first, terms[..k]);
    NextTerm(c, f, first, terms, k);
    TermsOnlyAdd(c, f, first, terms, k + 1);
    var all := StepTerms(c, f, first, terms).delta.queries;
    assert q in all;
    DeduplicateKeepsKeys(all);
    assert Key(q) in Keys(all);
  }
}
