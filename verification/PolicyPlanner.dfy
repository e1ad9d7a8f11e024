/** The planner of DNS policy queries (src/dns_policy.rs): first wave, answers, budgets and scope. */
module PolicyPlanner {
  import opened Basics
  import opened Hostnames
  import opened Orders
  import opened SpfPlanner

  /** references extracts the names that SRV, NAPTR, URI and other TXT values mention. */
  datatype Policy = Policy(
    spf: Setup, maxQueries: nat, maxZones: nat, maxTypes: nat, maxInstances: nat,
    references: (RecordType, string) -> seq<(string, FeatureKind)>)

  type QueryKey = (string, RecordType)

  datatype PlannerState = PlannerState(planned: set<QueryKey>, types: set<string>, instances: set<string>, spf: SpfState)

  function Unused(): PlannerState { PlannerState({}, {}, {}, FreshSpf()) }

  // ----- one query -----

  datatype Plan = Plan(planned: set<QueryKey>, delta: Delta)

  /** Where a name stands: not a name, outside the scanned domain, or inside it. */
  datatype Address = Malformed | Foreign(name: string) | Own(name: string)

  function Locate(c: Setup, raw: string): Address {
    var name := NormalizeQueryName(c.parse, raw);
    if name.None? then Malformed else if InScope(name.value, c.root) then Own(name.value) else Foreign(name.value)
  }

  function PushTo(maxQueries: nat, p: Plan, q: Query, address: Address): Plan {
    match address
    case Malformed => p.(delta := p.delta.(unsupported := p.delta.unsupported + {q.name}))
    case Foreign(_) => p
    case Own(name) =>
      var key := (name, q.recordType);
      if key in p.planned then p
      else if |p.planned| >= maxQueries then p.(delta := p.delta.(limits := p.delta.limits + {QueryBudget}))
      else Plan(p.planned + {key}, p.delta.(queries := p.delta.queries + [q.(name := name)]))
  }

  function Push(c: Policy, p: Plan, q: Query): Plan {
    PushTo(c.maxQueries, p, q, Locate(c.spf, q.name))
  }

  function PushAll(c: Policy, p: Plan, queries: seq<Query>): Plan {
    if queries == [] then p else Push(c, PushAll(c, p, queries[..|queries| - 1]), queries[|queries| - 1])
  }

  // ----- the first wave -----

  /** Insertion into a sorted set. */
  function InsertZone(zone: string, zones: seq<string>): seq<string> {
    if zones == [] then [zone]
    else if zone == zones[0] then zones
    else if CompareStrings(zone, zones[0]) == Less then [zone] + zones
    else [zones[0]] + InsertZone(zone, zones[1..])
  }

  /** The normalised zones strictly below the root, sorted. */
  function ZonesBelow(root: string, zones: seq<string>): seq<string> {
    if zones == [] then []
    else
      var rest := ZonesBelow(root, zones[..|zones| - 1]);
      var zone := NormalizeObservedName(zones[|zones| - 1], root);
      if zone.Some? then InsertZone(zone.value, rest) else rest
  }

  function PlannedZones(c: Policy, zones: seq<string>): seq<string> {
    var all := [c.spf.root] + ZonesBelow(c.spf.root, zones);
    all[..Min(c.maxZones, |all|)]
  }

  function QueriesOfZone(zone: string): seq<Query> {
    [Query("_services._dns-sd._udp." + zone, PTR, DnsSdBrowse), Query(zone, NAPTR, ForNaptr), Query(zone, URI, ForUri)]
  }

  function QueriesOfZones(zones: seq<string>): seq<Query> {
    if zones == [] then [] else QueriesOfZones(zones[..|zones| - 1]) + QueriesOfZone(zones[|zones| - 1])
  }

  function MailQueries(domain: string): seq<Query> {
    [Query(domain, TXT, Spf), Query("_dmarc." + domain, TXT, Dmarc), Query("_mta-sts." + domain, TXT, MtaSts),
     Query("_smtp._tls." + domain, TXT, TlsReporting), Query("default._bimi." + domain, TXT, Bimi),
     Query("mta-sts." + domain, A, MtaSts), Query("mta-sts." + domain, AAAA, MtaSts)]
  }

  function InitialQueries(c: Policy, zones: seq<string>): seq<Query> {
    var mail := NormalizeHostname(c.spf.root);
    QueriesOfZones(PlannedZones(c, zones)) + if mail.Some? then MailQueries(mail.value) else []
  }

  /** What the first wave reports besides its queries. */
  function InitialNotes(c: Policy, zones: seq<string>): Delta {
    var mail := NormalizeHostname(c.spf.root);
    var host := if mail.Some? then NormalizeObservedName("mta-sts." + mail.value, c.spf.root) else None;
    Nothing().(
      limits := if |ZonesBelow(c.spf.root, zones)| + 1 > c.maxZones then {ZoneBudget} else {},
      names := if host.Some? then {host.value} else {})
  }

  function InitialPlan(c: Policy, s: PlannerState, zones: seq<string>): (PlannerState, Delta) {
    var p := PushAll(c, Plan(s.planned, InitialNotes(c, zones)), InitialQueries(c, zones));
    (s.(planned := p.planned), p.delta)
  }

  // ----- answers -----

  function ClassifyReference(owner: string, address: Address, kind: FeatureKind, root: string, delta: Delta): Delta {
    match address
    case Malformed => delta
    case Foreign(name) => delta.(external := delta.external + {ExternalFeature(owner, name, kind)})
    case Own(name) =>
      var hostname := NormalizeObservedName(name, root);
      if hostname.Some? then delta.(names := delta.names + {hostname.value}) else delta
  }

  function ClassifyAll(c: Setup, owner: string, references: seq<(string, FeatureKind)>): Delta {
    if references == [] then Nothing()
    else
      var last := references[|references| - 1];
      ClassifyReference(owner, Locate(c, last.0), last.1, c.root, ClassifyAll(c, owner, references[..|references| - 1]))
  }

  predicate BrowseOwner(owner: string) { "_services._dns-sd._udp." <= owner }

  function IngestPtr(c: Policy, s: PlannerState, owner: string, value: string, target: Address): (PlannerState, Delta) {
    match target
    case Malformed => (s, Nothing().(unsupported := {value}))
    case Foreign(name) =>
      (s, Nothing().(external := {ExternalFeature(owner, name, if BrowseOwner(owner) then ServiceFeature else InstanceFeature)}))
    case Own(name) =>
      if BrowseOwner(owner) then
        if |s.types| >= c.maxTypes then (s, Nothing().(limits := {ServiceBudget}))
        else if name in s.types then (s, Nothing())
        else
          var p := PushAll(c, Plan(s.planned, Nothing()), [Query(name, PTR, DnsSdService)]);
          (s.(planned := p.planned, types := s.types + {name}), p.delta)
      else if owner in s.types then
        if |s.instances| >= c.maxInstances then (s, Nothing().(limits := {InstanceBudget}))
        else if name in s.instances then (s, Nothing())
        else
          var p := PushAll(c, Plan(s.planned, Nothing()), [Query(name, SRV, DnsSdInstance), Query(name, TXT, DnsSdInstance)]);
          (s.(planned := p.planned, instances := s.instances + {name}), p.delta)
      else (s, ClassifyReference(owner, Locate(c.spf, name), InstanceFeature, c.spf.root, Nothing()))
  }

  predicate SpfRecord(text: string) {
    Words(text) != [] && Lower(Words(text)[0]) == "v=spf1"
  }

  /** The queries of an SPF expansion pass through the planner's own scope and budget. */
  function IngestSpf(c: Policy, s: PlannerState, answer: (SpfState, Delta)): (PlannerState, Delta) {
    var p := PushAll(c, Plan(s.planned, answer.1.(queries := [])), answer.1.queries);
    (s.(planned := p.planned, spf := answer.0), p.delta)
  }

  function IngestOwned(c: Policy, s: PlannerState, owner: string, recordType: RecordType, value: string): (PlannerState, Delta) {
    match recordType
    case PTR => IngestPtr(c, s, owner, value, Locate(c.spf, value))
    case TXT =>
      var text := c.spf.unquote(value);
      if SpfRecord(text) then IngestSpf(c, s, Expand(c.spf, s.spf, owner, text))
      else (s, ClassifyAll(c.spf, owner, c.references(TXT, text)))
    case SRV => (s, ClassifyAll(c.spf, owner, c.references(SRV, value)))
    case NAPTR => (s, ClassifyAll(c.spf, owner, c.references(NAPTR, value)))
    case URI => (s, ClassifyAll(c.spf, owner, c.references(URI, value)))
    case _ => (s, Nothing())
  }

  function IngestRecord(c: Policy, s: PlannerState, rawOwner: string, recordType: RecordType, value: string): (PlannerState, Delta) {
    match Locate(c.spf, rawOwner)
    case Malformed => (s, Nothing().(unsupported := {rawOwner}))
    case Foreign(_) => (s, Nothing())
    case Own(owner) => IngestOwned(c, s, owner, recordType, value)
  }

  // ----- the planner -----

  class QueryPlanner {
    const policy: Policy
    const spf: Planner
    var plannedQueries: set<QueryKey>
    var serviceTypes: set<string>
    var serviceInstances: set<string>

    ghost predicate Valid()
      reads this, spf
    {
      spf.setup == policy.spf
    }

    /** Limits are as SpfPlanner's constructor leaves them. */
    constructor (policy: Policy)
      requires Sanitized(policy.spf)
      ensures Valid() && fresh(spf) && this.policy == policy && State() == Unused()
    {
      this.policy := policy;
      spf := new Planner(policy.spf.parse, policy.spf.unquote, policy.spf.root, policy.spf.maxDepth, policy.spf.maxLookups);
      plannedQueries, serviceTypes, serviceInstances := {}, {}, {};
    }

    function State(): PlannerState
      reads this, spf
    {
      PlannerState(plannedQueries, serviceTypes, serviceInstances, spf.State())
    }

    method PushQuery(soFar: Delta, q: Query) returns (delta: Delta)
      modifies this`plannedQueries
      ensures Plan(plannedQueries, delta) == Push(policy, Plan(old(plannedQueries), soFar), q)
    {
      delta := soFar;
      match Locate(policy.spf, q.name) {
        case Malformed =>
          delta := delta.(unsupported := delta.unsupported + {q.name});
        case Foreign(_) =>
        case Own(name) =>
          var key := (name, q.recordType);
          if key !in plannedQueries {
            if |plannedQueries| >= policy.maxQueries {
              delta := delta.(limits := delta.limits + {QueryBudget});
            } else {
              plannedQueries := plannedQueries + {key};
              delta := delta.(queries := delta.queries + [Query(name, q.recordType, q.purpose)]);
            }
          }
      }
    }

    method PushQueries(soFar: Delta, queries: seq<Query>) returns (delta: Delta)
      modifies this`plannedQueries
      ensures Plan(plannedQueries, delta) == PushAll(policy, Plan(old(plannedQueries), soFar), queries)
    {
      delta := soFar;
      ghost var start := Plan(plannedQueries, soFar);
      for k := 0 to |queries|
        invariant Plan(plannedQueries, delta) == PushAll(policy, start, queries[..k])
      {
        assert queries[..k + 1][..k] == queries[..k];
        delta := PushQuery(delta, queries[k]);
      }
      assert queries[..|queries|] == queries;
    }

    method PlanFirstWave(zones: seq<string>) returns (delta: Delta)
      requires Valid()
      modifies this`plannedQueries
      ensures Valid() && (State(), delta) == InitialPlan(policy, old(State()), zones)
    {
      delta := PushQueries(InitialNotes(policy, zones), InitialQueries(policy, zones));
    }

    method Ingest(rawOwner: string, recordType: RecordType, value: string) returns (delta: Delta)
      requires Valid()
      modifies this, spf
      ensures Valid() && (State(), delta) == IngestRecord(policy, old(State()), rawOwner, recordType, value)
    {
      match Locate(policy.spf, rawOwner) {
        case Malformed => return Nothing().(unsupported := {rawOwner});
        case Foreign(_) => return Nothing();
        case Own(owner) =>
          match recordType {
            case PTR => delta := IngestPointer(owner, value, Locate(policy.spf, value));
            case TXT =>
              var text := policy.spf.unquote(value);
              if SpfRecord(text) {
                delta := IngestPolicy(owner, text);
              } else {
                delta := ClassifyAll(policy.spf, owner, policy.references(TXT, text));
              }
            case SRV => delta := ClassifyAll(policy.spf, owner, policy.references(SRV, value));
            case NAPTR => delta := ClassifyAll(policy.spf, owner, policy.references(NAPTR, value));
            case URI => delta := ClassifyAll(policy.spf, owner, policy.references(URI, value));
            case _ => delta := Nothing();
          }
      }
    }

    method IngestPolicy(owner: string, text: string) returns (delta: Delta)
      requires Valid()
      modifies this, spf
      ensures Valid() && (State(), delta) == IngestSpf(policy, old(State()), Expand(policy.spf, old(spf.State()), owner, text))
    {
      var answer := spf.ExpandRecord(owner, text);
      delta := PushQueries(answer.(queries := []), answer.queries);
    }

    method IngestPointer(owner: string, value: string, target: Address) returns (delta: Delta)
      requires Valid()
      modifies this
      ensures Valid() && (State(), delta) == IngestPtr(policy, old(State()), owner, value, target)
    {
      delta := Nothing();
      match target {
        case Malformed =>
          delta := delta.(unsupported := {value});
        case Foreign(name) =>
          delta := delta.(external := {ExternalFeature(owner, name, if BrowseOwner(owner) then ServiceFeature else InstanceFeature)});
        case Own(name) =>
          if BrowseOwner(owner) {
            if |serviceTypes| >= policy.maxTypes {
              return delta.(limits := {ServiceBudget});
            }
            if name !in serviceTypes {
              serviceTypes := serviceTypes + {name};
              delta := PushQueries(delta, [Query(name, PTR, DnsSdService)]);
            }
          } else if owner in serviceTypes {
            if |serviceInstances| >= policy.maxInstances {
              return delta.(limits := {InstanceBudget});
            }
            if name !in serviceInstances {
              serviceInstances := serviceInstances + {name};
              delta := PushQueries(delta, [Query(name, SRV, DnsSdInstance), Query(name, TXT, DnsSdInstance)]);
            }
          } else {
            delta := ClassifyReference(owner, Locate(policy.spf, name), InstanceFeature, policy.spf.root, delta);
          }
      }
    }
  }
}
