/**
 The bounded expansion of SPF records (src/dns_policy.rs; section 4.6.4 of RFC 7208). One planner serves a whole
 scan: lookups and loop detection are shared by all records it is given.
 */
module SpfPlanner {
  import opened Basics
  import opened Hostnames

  const SPF_DNS_LOOKUP_LIMIT: nat := 10
  const MAX_DEPTH: nat := 16

  // ----- data -----

  datatype RecordType = TXT | A | AAAA | MX | PTR | SRV | NAPTR | URI | OtherType

  datatype Purpose =
    | DnsSdBrowse | DnsSdService | DnsSdInstance | ForNaptr | ForUri | Spf | Dmarc | MtaSts | TlsReporting | Bimi

  datatype Query = Query(name: string, recordType: RecordType, purpose: Purpose)

  datatype FeatureKind =
    | ServiceFeature | InstanceFeature | SrvTarget | NaptrReplacement | UriTarget
    | SpfInclude | SpfRedirect | SpfA | SpfMx | SpfExists | TxtReference

  datatype ExternalFeature = ExternalFeature(owner: string, value: string, kind: FeatureKind)

  datatype PlanLimit = QueryBudget | ZoneBudget | ServiceBudget | InstanceBudget | SpfDepth | SpfLookupBudget

  datatype Delta = Delta(
    queries: seq<Query>, names: set<string>, external: set<ExternalFeature>,
    unsupported: set<string>, loops: set<string>, limits: set<PlanLimit>)

  function Nothing(): Delta { Delta([], {}, {}, {}, {}, {}) }

  /**
   What the planner takes from libraries: parse is the DNS name parser (followed by printing the name), unquote
   joins the quoted strings of a TXT value.
   */
  datatype Setup = Setup(
    parse: string -> Option<string>, unquote: string -> string, root: string, maxDepth: nat, maxLookups: nat)

  predicate Sanitized(c: Setup) {
    c.maxDepth <= MAX_DEPTH && c.maxLookups <= SPF_DNS_LOOKUP_LIMIT
  }

  /** The planner's own fields. */
  datatype SpfState = SpfState(lookups: nat, expanded: set<string>, pending: map<string, nat>)

  function FreshSpf(): SpfState { SpfState(0, {}, map[]) }

  // ----- names and terms -----

  function NormalizeQueryName(parse: string -> Option<string>, value: string): (r: Option<string>) {
    var text := TrimEnd(TrimEnd(TrimStart(Trim(value), c => c == '"'), c => c == '"'), c => c == '.');
    if text == "" then None
    else
      var name :- parse(text);
      var normalized := Lower(TrimEnd(name, c => c == '.'));
      if |normalized| <= 253 then Some(normalized) else None
  }

  predicate Blank(c: char) { c == ' ' || c == '\t' || c == '\n' || c == '\r' || c == '\U{0C}' }

  function WordLength(s: string): (n: nat)
    ensures n <= |s|
  {
    if s == "" || Blank(s[0]) then 0 else 1 + WordLength(s[1..])
  }

  /** The words between ASCII white space. */
  function Words(s: string): seq<string>
    decreases |s|
  {
    var rest := TrimStart(s, Blank);
    if rest == "" then []
    else
      assert WordLength(rest) >= 1;
      [rest[..WordLength(rest)]] + Words(rest[WordLength(rest)..])
  }

  datatype Mechanism = Include | Redirect | AddressA | MailExchanger | Exists
  {
    function Kind(): FeatureKind {
      match this
      case Include => SpfInclude
      case Redirect => SpfRedirect
      case AddressA => SpfA
      case MailExchanger => SpfMx
      case Exists => SpfExists
    }
  }

  /** A mechanism that costs a lookup, with its domain if one is written. */
  datatype Term = Term(mechanism: Mechanism, target: Option<string>)

  /** Where a term points: nowhere usable, outside the scanned domain, or inside it (with a host name to report). */
  datatype Target = Unusable | Outside(name: string) | Inside(name: string, hostname: Option<string>)

  datatype Request = Request(mechanism: Mechanism, target: Target)

  /** The domain after the colon, up to a prefix length. */
  function MechanismTarget(tail: string): Option<string> {
    if tail == "" || tail[0] != ':' then None
    else
      var domain := BeforeSlash(tail[1..]);
      if domain == "" then None else Some(domain)
  }

  function BeforeSlash(s: string): string {
    if s == "" || s[0] == '/' then "" else [s[0]] + BeforeSlash(s[1..])
  }

  predicate Qualifier(c: char) { c == '+' || c == '-' || c == '~' || c == '?' }

  function ParseTerm(raw: string): Option<Term> {
    var term := TrimStart(raw, Qualifier);
    var lower := Lower(term);
    if "include:" <= lower then Some(Term(Include, Some(term[8..])))
    else if "redirect=" <= lower then Some(Term(Redirect, Some(term[9..])))
    else if lower == "a" || "a:" <= lower || "a/" <= lower then Some(Term(AddressA, MechanismTarget(term[1..])))
    else if lower == "mx" || "mx:" <= lower || "mx/" <= lower then Some(Term(MailExchanger, MechanismTarget(term[2..])))
    else if "exists:" <= lower then Some(Term(Exists, Some(term[7..])))
    else None
  }

  function Resolve(c: Setup, owner: string, term: Term): Target {
    var written := if term.target.Some? then term.target.value else owner;
    if '%' in written then Unusable
    else
      var target := NormalizeQueryName(c.parse, TrimEnd(written, ch => ch == '/'));
      if target.None? then Unusable
      else if !InScope(target.value, c.root) then Outside(target.value)
      else Inside(target.value, NormalizeObservedName(target.value, c.root))
  }

  /** What a word of the record asks for; None for words that cost no lookup. */
  function ReadTerm(c: Setup, owner: string, raw: string): Option<Request> {
    var term :- ParseTerm(raw);
    Some(Request(term.mechanism, Resolve(c, owner, term)))
  }

  // ----- one term -----

  /** The loop variables of one expansion; stopped records a break. */
  datatype Progress = Progress(lookups: nat, pending: map<string, nat>, delta: Delta, stopped: bool)

  /** What does not change during one expansion. */
  datatype Frame = Frame(owner: string, depth: nat, expanded: set<string>)

  function FollowPolicy(c: Setup, f: Frame, p: Progress, target: string): Progress {
    if target in f.expanded then p.(delta := p.delta.(loops := p.delta.loops + {target}))
    else if f.depth + 1 > c.maxDepth then p.(delta := p.delta.(limits := p.delta.limits + {SpfDepth}))
    else
      var known := if target in p.pending then Min(p.pending[target], f.depth + 1) else f.depth + 1;
      p.(pending := p.pending[target := known], delta := p.delta.(queries := p.delta.queries + [Query(target, TXT, Spf)]))
  }

  function Ask(p: Progress, queries: seq<Query>): Progress {
    p.(delta := p.delta.(queries := p.delta.queries + queries))
  }

  /** A mechanism whose target is inside the scanned domain. */
  function FollowTarget(c: Setup, f: Frame, p: Progress, mechanism: Mechanism, target: string): Progress {
    match mechanism
    case Include => FollowPolicy(c, f, p, target)
    case Redirect => FollowPolicy(c, f, p, target)
    case AddressA => Ask(p, [Query(target, A, Spf), Query(target, AAAA, Spf)])
    case MailExchanger => Ask(p, [Query(target, MX, Spf)])
    case Exists => Ask(p, [Query(target, A, Spf)])
  }

  function FollowRequest(c: Setup, f: Frame, p: Progress, raw: string, r: Request): Progress {
    match r.target
    case Unusable => p.(delta := p.delta.(unsupported := p.delta.unsupported + {raw}))
    case Outside(name) => p.(delta := p.delta.(external := p.delta.external + {ExternalFeature(f.owner, name, r.mechanism.Kind())}))
    case Inside(name, hostname) =>
      FollowTarget(c, f, Report(p, hostname), r.mechanism, name)
  }

  function Report(p: Progress, hostname: Option<string>): Progress {
    if hostname.Some? then p.(delta := p.delta.(names := p.delta.names + {hostname.value})) else p
  }

  /** Every request costs a lookup, and an exhausted budget ends the record. */
  function StepRequest(c: Setup, f: Frame, p: Progress, raw: string, request: Option<Request>): Progress {
    if p.stopped || request.None? then p
    else if p.lookups >= c.maxLookups then p.(delta := p.delta.(limits := p.delta.limits + {SpfLookupBudget}), stopped := true)
    else FollowRequest(c, f, p.(lookups := p.lookups + 1), raw, request.value)
  }

  function StepTerm(c: Setup, f: Frame, p: Progress, raw: string): Progress {
    StepRequest(c, f, p, raw, ReadTerm(c, f.owner, raw))
  }

  /** `ptr` terms, with any qualifier and any domain, cost no lookup and ask for nothing. */
  lemma PtrCostsNothing(c: Setup, f: Frame, p: Progress, raw: string)
    requires "ptr" <= Lower(TrimStart(raw, Qualifier))
    ensures ParseTerm(raw) == None && StepTerm(c, f, p, raw) == p
  {
    assert Lower(TrimStart(raw, Qualifier))[0] == 'p';
  }

  function StepTerms(c: Setup, f: Frame, p: Progress, terms: seq<string>): Progress {
    if terms == [] then p else StepTerm(c, f, StepTerms(c, f, p, terms[..|terms| - 1]), terms[|terms| - 1])
  }

  // ----- one record -----

  function Key(q: Query): (string, RecordType) { (q.name, q.recordType) }

  function Keys(queries: seq<Query>): set<(string, RecordType)> { set q | q in queries :: Key(q) }

  /** The first query of every name and type. */
  function Deduplicate(queries: seq<Query>): (r: seq<Query>) {
    if queries == [] then []
    else
      var front, last := queries[..|queries| - 1], queries[|queries| - 1];
      Deduplicate(front) + if Key(last) in Keys(front) then [] else [last]
  }

  function DepthOf(s: SpfState, owner: string): nat {
    if owner in s.pending then s.pending[owner] else 0
  }

  /** The owner whose record an expansion reads, if it is one that this planner expands now. */
  function Expands(c: Setup, s: SpfState, rawOwner: string): Option<string> {
    var owner :- NormalizeQueryName(c.parse, rawOwner);
    if InScope(owner, c.root) && DepthOf(s, owner) <= c.maxDepth && owner !in s.expanded then Some(owner) else None
  }

  function ReadTerms(c: Setup, s: SpfState, owner: string, text: string): (SpfState, Delta) {
    var started := SpfState(s.lookups, s.expanded + {owner}, s.pending - {owner});
    var words := Words(text);
    if words == [] then (started, Nothing())
    else if Lower(words[0]) != "v=spf1" then (started, Nothing().(unsupported := {Trim(text)}))
    else
      var p := StepTerms(c, Frame(owner, DepthOf(s, owner), started.expanded), Progress(s.lookups, started.pending, Nothing(), false), words[1..]);
      (SpfState(p.lookups, started.expanded, p.pending), p.delta.(queries := Deduplicate(p.delta.queries)))
  }

  function Expand(c: Setup, s: SpfState, rawOwner: string, record: string): (SpfState, Delta) {
    var owner := NormalizeQueryName(c.parse, rawOwner);
    if owner.None? then (s, Nothing().(unsupported := {rawOwner}))
    else if !InScope(owner.value, c.root) then
      (s, Nothing().(external := {ExternalFeature(c.root, owner.value, SpfInclude)}))
    else if DepthOf(s, owner.value) > c.maxDepth then
      (s.(pending := s.pending - {owner.value}), Nothing().(limits := {SpfDepth}))
    else if owner.value in s.expanded then
      (s.(pending := s.pending - {owner.value}), Nothing().(loops := {owner.value}))
    else ReadTerms(c, s, owner.value, c.unquote(record))
  }

  // ----- the planner -----

  class Planner {
    const setup: Setup
    var lookupsUsed: nat
    var expanded: set<string>
    var pendingDepths: map<string, nat>

    constructor (parse: string -> Option<string>, unquote: string -> string, root: string, maxDepth: nat, maxLookups: nat)
      ensures setup == Setup(parse, unquote, root, Min(maxDepth, MAX_DEPTH), Min(maxLookups, SPF_DNS_LOOKUP_LIMIT))
      ensures State() == FreshSpf() && Sanitized(setup)
    {
      setup := Setup(parse, unquote, root, Min(maxDepth, MAX_DEPTH), Min(maxLookups, SPF_DNS_LOOKUP_LIMIT));
      lookupsUsed, expanded, pendingDepths := 0, {}, map[];
    }

    function State(): SpfState
      reads this
    {
      SpfState(lookupsUsed, expanded, pendingDepths)
    }

    method ExpandRecord(rawOwner: string, record: string) returns (delta: Delta)
      modifies this
      ensures (State(), delta) == Expand(setup, old(State()), rawOwner, record)
    {
      delta := Nothing();
      var normalized := NormalizeQueryName(setup.parse, rawOwner);
      if normalized.None? {
        return delta.(unsupported := {rawOwner});
      }
      var owner := normalized.value;
      if !InScope(owner, setup.root) {
        return delta.(external := {ExternalFeature(setup.root, owner, SpfInclude)});
      }
      var depth := if owner in pendingDepths then pendingDepths[owner] else 0;
      pendingDepths := pendingDepths - {owner};
      if depth > setup.maxDepth {
        return delta.(limits := {SpfDepth});
      }
      if owner in expanded {
        return delta.(loops := {owner});
      }
      expanded := expanded + {owner};
      var text := setup.unquote(record);
      var words := Words(text);
      if words == [] {
        return;
      }
      if Lower(words[0]) != "v=spf1" {
        return delta.(unsupported := {Trim(text)});
      }
      delta := FollowTerms(owner, depth, words[1..]);
      var queries := RetainFirst(delta.queries);
      delta := delta.(queries := queries);
    }

    /** The loop over the terms of one record. */
    method FollowTerms(owner: string, depth: nat, terms: seq<string>) returns (delta: Delta)
      modifies this`lookupsUsed, this`pendingDepths
      ensures var p := StepTerms(setup, Frame(owner, depth, expanded), Progress(old(lookupsUsed), old(pendingDepths), Nothing(), false), terms);
              lookupsUsed == p.lookups && pendingDepths == p.pending && delta == p.delta
    {
      delta := Nothing();
      var k, stopped := 0, false;
      ghost var f, first := Frame(owner, depth, expanded), Progress(lookupsUsed, pendingDepths, Nothing(), false);
      ghost var p := first;
      while k < |terms| && !stopped
        invariant k <= |terms| && p == StepTerms(setup, f, first, terms[..k])
        invariant p == Progress(lookupsUsed, pendingDepths, delta, stopped)
        decreases |terms| - k
      {
        delta, stopped := FollowOne(owner, depth, delta, terms[k], ReadTerm(setup, owner, terms[k]));
        p := Progress(lookupsUsed, pendingDepths, delta, stopped);
        NextTerm(setup, f, first, terms, k);
        k := k + 1;
      }
      if stopped {
        OnceStopped(setup, f, first, terms, k);
      }
      assert terms[..|terms|] == terms;
    }

    /** One term: words that ask for nothing cost nothing, and an exhausted budget ends the loop. */
    method FollowOne(owner: string, depth: nat, soFar: Delta, raw: string, request: Option<Request>)
      returns (delta: Delta, stopped: bool)
      modifies this`lookupsUsed, this`pendingDepths
      ensures Progress(lookupsUsed, pendingDepths, delta, stopped)
           == StepRequest(setup, Frame(owner, depth, expanded), Progress(old(lookupsUsed), old(pendingDepths), soFar, false), raw, request)
    {
      delta, stopped := soFar, false;
      if request.None? {
        return;
      }
      if lookupsUsed >= setup.maxLookups {
        return delta.(limits := delta.limits + {SpfLookupBudget}), true;
      }
      lookupsUsed := lookupsUsed + 1;
      match request.value.target {
        case Unusable =>
          delta := delta.(unsupported := delta.unsupported + {raw});
        case Outside(name) =>
          delta := delta.(external := delta.external + {ExternalFeature(owner, name, request.value.mechanism.Kind())});
        case Inside(name, hostname) =>
          if hostname.Some? {
            delta := delta.(names := delta.names + {hostname.value});
          }
          match request.value.mechanism {
            case Include =>
              delta := FollowInclude(owner, depth, delta, name);
            case Redirect =>
              delta := FollowInclude(owner, depth, delta, name);
            case AddressA =>
              delta := delta.(queries := delta.queries + [Query(name, A, Spf), Query(name, AAAA, Spf)]);
            case MailExchanger =>
              delta := delta.(queries := delta.queries + [Query(name, MX, Spf)]);
            case Exists =>
              delta := delta.(queries := delta.queries + [Query(name, A, Spf)]);
          }
      }
    }

    method FollowInclude(ghost owner: string, depth: nat, soFar: Delta, target: string) returns (delta: Delta)
      modifies this`pendingDepths
      ensures Progress(lookupsUsed, pendingDepths, delta, false)
           == FollowPolicy(setup, Frame(owner, depth, expanded), Progress(lookupsUsed, old(pendingDepths), soFar, false), target)
    {
      if target in expanded {
        return soFar.(loops := soFar.loops + {target});
      }
      var nextDepth := depth + 1;
      if nextDepth > setup.maxDepth {
        return soFar.(limits := soFar.limits + {SpfDepth});
      }
      if target in pendingDepths {
        pendingDepths := pendingDepths[target := Min(pendingDepths[target], nextDepth)];
      } else {
        pendingDepths := pendingDepths[target := nextDepth];
      }
      delta := soFar.(queries := soFar.queries + [Query(target, TXT, Spf)]);
    }
  }

  lemma NextTerm(c: Setup, f: Frame, first: Progress, terms: seq<string>, k: nat)
    requires k < |terms|
    ensures StepTerms(c, f, first, terms[..k + 1]) == StepTerm(c, f, StepTerms(c, f, first, terms[..k]), terms[k])
  {
    assert terms[..k + 1][..k] == terms[..k];
  }

  /** After a break the remaining terms change nothing. */
  lemma {:induction false} OnceStopped(c: Setup, f: Frame, first: Progress, terms: seq<string>, k: nat)
    requires k <= |terms| && StepTerms(c, f, first, terms[..k]).stopped
    ensures StepTerms(c, f, first, terms) == StepTerms(c, f, first, terms[..k])
  {
    if k == |terms| {
      assert terms[..k] == terms;
    } else {
      var front := terms[..|terms| - 1];
      assert front[..k] == terms[..k];
      OnceStopped(c, f, first, front, k);
    }
  }

  method RetainFirst(queries: seq<Query>) returns (kept: seq<Query>)
    ensures kept == Deduplicate(queries)
  {
    kept := [];
    var seen := {};
    for i := 0 to |queries|
      invariant seen == Keys(queries[..i]) && kept == Deduplicate(queries[..i])
    {
      assert queries[..i + 1][..i] == queries[..i];
      if Key(queries[i]) !in seen {
        kept := kept + [queries[i]];
      }
      seen := seen + {Key(queries[i])};
    }
    assert queries[..|queries|] == queries;
  }
}
