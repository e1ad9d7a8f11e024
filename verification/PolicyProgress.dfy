/**
 That the policy planner follows what it is told (src/dns_policy.rs): zones and mail names are asked for, browse answers
 lead to services, services to instances, SPF records to their targets, and what records mention is reported.
 */
module PolicyProgress {
  import opened Basics
  import opened Hostnames
  import opened Orders
  import opened SpfPlanner
  import opened SpfTheorems
  import opened PolicyPlanner
  import opened PolicyTheorems
  import Ranking

  /** The name, if it is inside the scanned domain, has been asked for with this type, or the query budget is spent. */
  ghost predicate Asked(c: Policy, planned: set<QueryKey>, name: string, recordType: RecordType) {
    var address := Locate(c.spf, name);
    address.Own? ==> (address.name, recordType) in planned || |planned| >= c.maxQueries
  }

  lemma AskedForGood(c: Policy, planned: set<QueryKey>, more: set<QueryKey>, name: string, recordType: RecordType)
    requires planned <= more && Asked(c, planned, name, recordType)
    ensures Asked(c, more, name, recordType)
  {
    Ranking.SubsetSize(planned, more);
  }

  lemma LastIsAsked(c: Policy, p: Plan, q: Query)
    ensures Asked(c, Push(c, p, q).planned, q.name, q.recordType) && p.planned <= Push(c, p, q).planned
  {
  }

  lemma {:induction false} PushedAreAsked(c: Policy, p: Plan, queries: seq<Query>, k: nat)
    requires k < |queries|
    ensures Asked(c, PushAll(c, p, queries).planned, queries[k].name, queries[k].recordType)
    ensures p.planned <= PushAll(c, p, queries).planned
  {
    var front, last := queries[..|queries| - 1], queries[|queries| - 1];
    PushedGrow(c, p, queries);
    LastIsAsked(c, PushAll(c, p, front), last);
    if k < |front| {
      PushedAreAsked(c, p, front, k);
      AskedForGood(c, PushAll(c, p, front).planned, PushAll(c, p, queries).planned, queries[k].name, queries[k].recordType);
    }
  }

  lemma {:induction false} PushedGrow(c: Policy, p: Plan, queries: seq<Query>)
    ensures p.planned <= PushAll(c, p, queries).planned
  {
    if queries != [] { PushedGrow(c, p, queries[..|queries| - 1]); }
  }

  // ----- the first wave -----

  predicate AscendingZones(zones: seq<string>) {
    forall i, j :: 0 <= i < j < |zones| ==> CompareStrings(zones[i], zones[j]) == Less
  }

  lemma {:induction false} InsertionKeepsOrder(zone: string, zones: seq<string>)
    requires AscendingZones(zones)
    ensures AscendingZones(InsertZone(zone, zones))
    ensures forall z :: z in InsertZone(zone, zones) <==> z == zone || z in zones
    ensures |InsertZone(zone, zones)| <= |zones| + 1
  {
    StringsTotal();
    var r := InsertZone(zone, zones);
    if zones == [] || zone == zones[0] {
    } else if CompareStrings(zone, zones[0]) == Less {
      assert zones == [zones[0]] + zones[1..];
      forall j | 1 <= j < |r| ensures CompareStrings(zone, r[j]) == Less {
        if j > 1 { assert CompareStrings(zones[0], zones[j - 1]) == Less; }
      }
    } else {
      InsertionKeepsOrder(zone, zones[1..]);
      assert CompareStrings(zones[0], zone) == CompareStrings(zone, zones[0]).Reverse();
      forall j | 1 <= j < |r| ensures CompareStrings(zones[0], r[j]) == Less {
        assert r[j] in InsertZone(zone, zones[1..]);
        if r[j] != zone {
          var m :| 0 <= m < |zones[1..]| && zones[1..][m] == r[j];
          assert CompareStrings(zones[0], zones[m + 1]) == Less;
        }
      }
      assert zones == [zones[0]] + zones[1..];
    }
  }

  /** One of the zones is this one once it is normalised. */
  predicate NamesZone(root: string, zones: seq<string>, zone: string) {
    exists i :: 0 <= i < |zones| && NormalizeObservedName(zones[i], root) == Some(zone)
  }

  lemma NamesZoneMore(root: string, front: seq<string>, last: string, zone: string)
    ensures NamesZone(root, front + [last], zone) <==> NamesZone(root, front, zone) || NormalizeObservedName(last, root) == Some(zone)
  {
    var zones := front + [last];
    if i :| 0 <= i < |front| && NormalizeObservedName(front[i], root) == Some(zone) { assert zones[i] == front[i]; }
    if NormalizeObservedName(last, root) == Some(zone) { assert zones[|front|] == last; }
  }

  lemma {:induction false} MoreZonesAreNamed(root: string, front: seq<string>, last: string, more: seq<string>)
    requires forall z :: z in ZonesBelow(root, front) <==> NamesZone(root, front, z)
    requires forall z :: z in more <==> z in ZonesBelow(root, front) || NormalizeObservedName(last, root) == Some(z)
    ensures forall z :: z in more <==> NamesZone(root, front + [last], z)
  {
    forall z ensures z in more <==> NamesZone(root, front + [last], z) { NamesZoneMore(root, front, last, z); }
  }

  /** The zones that are planned for are the normalised ones below the root, each once, in ascending order. */
  lemma {:induction false} ZonesAreSorted(root: string, zones: seq<string>)
    ensures AscendingZones(ZonesBelow(root, zones)) && |ZonesBelow(root, zones)| <= |zones|
    ensures forall z :: z in ZonesBelow(root, zones) <==> NamesZone(root, zones, z)
  {
    if zones != [] {
      var front, last := zones[..|zones| - 1], zones[|zones| - 1];
      ZonesAreSorted(root, front);
      OneMoreZone(ZonesBelow(root, front), NormalizeObservedName(last, root));
      MoreZonesAreNamed(root, front, last, ZonesBelow(root, zones));
      assert zones == front + [last];
    }
  }

  lemma OneMoreZone(zones: seq<string>, zone: Option<string>)
    requires AscendingZones(zones)
    ensures var r := if zone.Some? then InsertZone(zone.value, zones) else zones;
            && AscendingZones(r) && |r| <= |zones| + 1
            && forall z :: z in r <==> z in zones || zone == Some(z)
  {
    if zone.Some? { InsertionKeepsOrder(zone.value, zones); }
  }

  lemma {:induction false} ZoneQuery(zones: seq<string>, zone: string, i: nat) returns (k: nat)
    requires zone in zones && i < 3
    ensures k < |QueriesOfZones(zones)| && QueriesOfZones(zones)[k] == QueriesOfZone(zone)[i]
  {
    var front, last := zones[..|zones| - 1], zones[|zones| - 1];
    if zone == last {
      k := |QueriesOfZones(front)| + i;
    } else {
      k := ZoneQuery(front, zone, i);
    }
  }

  lemma InitialIsAsked(c: Policy, s: PlannerState, zones: seq<string>, k: nat)
    requires k < |InitialQueries(c, zones)|
    ensures var q := InitialQueries(c, zones)[k]; Asked(c, InitialPlan(c, s, zones).0.planned, q.name, q.recordType)
  {
    PushedAreAsked(c, Plan(s.planned, InitialNotes(c, zones)), InitialQueries(c, zones), k);
  }

  lemma PlannedZone(c: Policy, zones: seq<string>, zone: string)
    requires c.maxZones > 0
    requires zone == c.spf.root || (|zones| < c.maxZones && NamesZone(c.spf.root, zones, zone))
    ensures zone in PlannedZones(c, zones)
  {
    ZonesAreSorted(c.spf.root, zones);
    var all := [c.spf.root] + ZonesBelow(c.spf.root, zones);
    if zone == c.spf.root {
      assert PlannedZones(c, zones)[0] == zone;
    } else {
      assert PlannedZones(c, zones) == all;
    }
  }

  /** The first wave asks for the service types, the NAPTR and the URI records of the root and of every zone, as budgets allow. */
  lemma ZonesAreAsked(c: Policy, s: PlannerState, zones: seq<string>, zone: string)
    requires c.maxZones > 0
    requires zone == c.spf.root || (|zones| < c.maxZones && NamesZone(c.spf.root, zones, zone))
    ensures var planned := Apply(c, s, First(zones)).0.planned;
            && Asked(c, planned, "_services._dns-sd._udp." + zone, PTR)
            && Asked(c, planned, zone, NAPTR)
            && Asked(c, planned, zone, URI)
  {
    PlannedZone(c, zones, zone);
    forall i: nat | i < 3 ensures var q := QueriesOfZone(zone)[i]; Asked(c, InitialPlan(c, s, zones).0.planned, q.name, q.recordType) {
      var k := ZoneQuery(PlannedZones(c, zones), zone, i);
      assert InitialQueries(c, zones)[k] == QueriesOfZone(zone)[i];
      InitialIsAsked(c, s, zones, k);
    }
    var qs := QueriesOfZone(zone);
    assert qs[0] == Query("_services._dns-sd._udp." + zone, PTR, DnsSdBrowse) && qs[1].name == qs[2].name == zone;
  }

  ghost predicate MailQueryIsAsked(c: Policy, s: PlannerState, zones: seq<string>, domain: string, i: nat)
    requires i < 7
  {
    Asked(c, Apply(c, s, First(zones)).0.planned, MailQueries(domain)[i].name, MailQueries(domain)[i].recordType)
  }

  lemma {:induction false} OneMailQuery(c: Policy, s: PlannerState, zones: seq<string>, domain: string, i: nat)
    requires NormalizeHostname(c.spf.root) == Some(domain) && i < 7
    ensures MailQueryIsAsked(c, s, zones, domain, i)
  {
    var n := |InitialQueries(c, zones)| - 7;
    assert InitialQueries(c, zones)[n + i] == MailQueries(domain)[i];
    InitialIsAsked(c, s, zones, n + i);
  }

  /** It asks for the mail policies of the domain: SPF, DMARC, MTA-STS, TLS reporting, BIMI, and the policy host. */
  lemma {:induction false} MailIsAsked(c: Policy, s: PlannerState, zones: seq<string>, domain: string)
    requires NormalizeHostname(c.spf.root) == Some(domain)
    ensures var planned := Apply(c, s, First(zones)).0.planned;
            && Asked(c, planned, domain, TXT) && Asked(c, planned, "_dmarc." + domain, TXT)
            && Asked(c, planned, "_mta-sts." + domain, TXT) && Asked(c, planned, "_smtp._tls." + domain, TXT)
            && Asked(c, planned, "default._bimi." + domain, TXT)
            && Asked(c, planned, "mta-sts." + domain, A) && Asked(c, planned, "mta-sts." + domain, AAAA)
  {
    forall i: nat | i < 7 ensures MailQueryIsAsked(c, s, zones, domain, i) { OneMailQuery(c, s, zones, domain, i); }
    assert MailQueryIsAsked(c, s, zones, domain, 0) && MailQueryIsAsked(c, s, zones, domain, 1) && MailQueryIsAsked(c, s, zones, domain, 2);
    assert MailQueryIsAsked(c, s, zones, domain, 3) && MailQueryIsAsked(c, s, zones, domain, 4);
    assert MailQueryIsAsked(c, s, zones, domain, 5) && MailQueryIsAsked(c, s, zones, domain, 6);
  }

  // ----- service discovery -----

  /** Whatever became a service type has been asked for its instances, and every instance for its records. */
  ghost predicate FollowedUp(c: Policy, s: PlannerState) {
    && (forall t :: t in s.types ==> Asked(c, s.planned, t, PTR))
    && (forall i :: i in s.instances ==> Asked(c, s.planned, i, SRV) && Asked(c, s.planned, i, TXT))
  }

  lemma FollowedForGood(c: Policy, s: PlannerState, after: PlannerState)
    requires FollowedUp(c, s) && s.planned <= after.planned && after.types == s.types && after.instances == s.instances
    ensures FollowedUp(c, after)
  {
    forall t | t in s.types ensures Asked(c, after.planned, t, PTR) { AskedForGood(c, s.planned, after.planned, t, PTR); }
    forall i | i in s.instances ensures Asked(c, after.planned, i, SRV) && Asked(c, after.planned, i, TXT) {
      AskedForGood(c, s.planned, after.planned, i, SRV);
      AskedForGood(c, s.planned, after.planned, i, TXT);
    }
  }

  /** An answer to a browse query becomes a service type, unless there are too many; its instances are asked for. */
  lemma BrowseIsFollowed(c: Policy, s: PlannerState, owner: string, value: string, name: string)
    requires FollowedUp(c, s) && "_services._dns-sd._udp." <= owner
    ensures var (after, delta) := IngestPtr(c, s, owner, value, Own(name));
            && FollowedUp(c, after) && after.instances == s.instances
            && after.types == (if |s.types| < c.maxTypes then s.types + {name} else s.types)
            && (|s.types| >= c.maxTypes ==> ServiceBudget in delta.limits)
  {
    if |s.types| < c.maxTypes && name !in s.types {
      var queries := [Query(name, PTR, DnsSdService)];
      var p := PushAll(c, Plan(s.planned, Nothing()), queries);
      PushedAreAsked(c, Plan(s.planned, Nothing()), queries, 0);
      FollowedForGood(c, s, s.(planned := p.planned));
    } else {
      assert s.types + {name} == s.types || |s.types| >= c.maxTypes;
    }
  }

  /** An answer from a service type becomes an instance, unless there are too many; its address and its text are asked for. */
  lemma ServiceIsFollowed(c: Policy, s: PlannerState, owner: string, value: string, name: string)
    requires FollowedUp(c, s) && !("_services._dns-sd._udp." <= owner) && owner in s.types
    ensures var (after, delta) := IngestPtr(c, s, owner, value, Own(name));
            && FollowedUp(c, after) && after.types == s.types
            && after.instances == (if |s.instances| < c.maxInstances then s.instances + {name} else s.instances)
            && (|s.instances| >= c.maxInstances ==> InstanceBudget in delta.limits)
  {
    if |s.instances| < c.maxInstances && name !in s.instances {
      var queries := [Query(name, SRV, DnsSdInstance), Query(name, TXT, DnsSdInstance)];
      var p := PushAll(c, Plan(s.planned, Nothing()), queries);
      PushedAreAsked(c, Plan(s.planned, Nothing()), queries, 0);
      PushedAreAsked(c, Plan(s.planned, Nothing()), queries, 1);
      FollowedForGood(c, s, s.(planned := p.planned));
    } else {
      assert s.instances + {name} == s.instances || |s.instances| >= c.maxInstances;
    }
  }

  lemma PtrFollows(c: Policy, s: PlannerState, owner: string, value: string, target: Address)
    requires FollowedUp(c, s)
    ensures FollowedUp(c, IngestPtr(c, s, owner, value, target).0)
  {
    if target.Own? {
      if BrowseOwner(owner) {
        BrowseIsFollowed(c, s, owner, value, target.name);
      } else if owner in s.types {
        ServiceIsFollowed(c, s, owner, value, target.name);
      }
    }
  }

  lemma SpfFollows(c: Policy, s: PlannerState, answer: (SpfState, Delta))
    requires FollowedUp(c, s)
    ensures FollowedUp(c, IngestSpf(c, s, answer).0)
    ensures forall k :: 0 <= k < |answer.1.queries| ==>
              Asked(c, IngestSpf(c, s, answer).0.planned, answer.1.queries[k].name, answer.1.queries[k].recordType)
  {
    var start := Plan(s.planned, answer.1.(queries := []));
    PushedGrow(c, start, answer.1.queries);
    FollowedForGood(c, s, IngestSpf(c, s, answer).0);
    forall k | 0 <= k < |answer.1.queries|
      ensures Asked(c, IngestSpf(c, s, answer).0.planned, answer.1.queries[k].name, answer.1.queries[k].recordType)
    {
      PushedAreAsked(c, start, answer.1.queries, k);
    }
  }

  lemma OwnedFollows(c: Policy, s: PlannerState, owner: string, recordType: RecordType, value: string)
    requires FollowedUp(c, s)
    ensures FollowedUp(c, IngestOwned(c, s, owner, recordType, value).0)
  {
    if recordType == PTR {
      PtrFollows(c, s, owner, value, Locate(c.spf, value));
    } else if recordType == TXT && SpfRecord(c.spf.unquote(value)) {
      SpfFollows(c, s, Expand(c.spf, s.spf, owner, c.spf.unquote(value)));
    }
  }

  lemma InitialFollows(c: Policy, s: PlannerState, zones: seq<string>)
    requires FollowedUp(c, s)
    ensures FollowedUp(c, InitialPlan(c, s, zones).0)
  {
    PushedGrow(c, Plan(s.planned, InitialNotes(c, zones)), InitialQueries(c, zones));
    FollowedForGood(c, s, InitialPlan(c, s, zones).0);
  }

  lemma CallFollows(c: Policy, s: PlannerState, op: Op)
    requires FollowedUp(c, s)
    ensures FollowedUp(c, Apply(c, s, op).0)
  {
    match op
    case First(zones) => InitialFollows(c, s, zones);
    case Answer(owner, recordType, value) =>
      if Locate(c.spf, owner).Own? { OwnedFollows(c, s, Locate(c.spf, owner).name, recordType, value); }
  }

  /** In every run whatever became a service type or an instance has been followed up. */
  lemma {:induction false} RunIsFollowedUp(c: Policy, call: PlannerCall, ops: seq<Op>)
    requires IsPolicyPlanner(c, call)
    ensures FollowedUp(c, StateAfter(call, ops))
  {
    if ops != [] {
      var front, last := ops[..|ops| - 1], ops[|ops| - 1];
      RunIsFollowedUp(c, call, front);
      CallFollows(c, StateAfter(call, front), last);
      assert call(StateAfter(call, front), last) == Apply(c, StateAfter(call, front), last);
    }
  }

  lemma {:induction false} RunOnlyGrows(c: Policy, call: PlannerCall, ops: seq<Op>, k: nat)
    requires IsPolicyPlanner(c, call) && k <= |ops|
    ensures var s, after := StateAfter(call, ops[..k]), StateAfter(call, ops);
            s.planned <= after.planned && s.types <= after.types && s.instances <= after.instances
    decreases |ops|
  {
    if k == |ops| {
      assert ops[..k] == ops;
    } else {
      var front, last := ops[..|ops| - 1], ops[|ops| - 1];
      RunOnlyGrows(c, call, front, k);
      assert front[..k] == ops[..k];
      EmittedOnceInScopeWithinBudget(c, call, front);
      ApplyMoves(c, StateAfter(call, front), last);
      assert call(StateAfter(call, front), last) == Apply(c, StateAfter(call, front), last);
    }
  }

  lemma CallAt(c: Policy, call: PlannerCall, ops: seq<Op>, k: nat)
    requires IsPolicyPlanner(c, call) && k < |ops|
    ensures StateAfter(call, ops[..k + 1]) == Apply(c, StateAfter(call, ops[..k]), ops[k]).0
  {
    assert ops[..k + 1][..k] == ops[..k];
    assert call(StateAfter(call, ops[..k]), ops[k]) == Apply(c, StateAfter(call, ops[..k]), ops[k]);
  }

  lemma PointerAnswer(c: Policy, s: PlannerState, raw: string, value: string, owner: string, name: string)
    requires Locate(c.spf, raw) == Own(owner) && Locate(c.spf, value) == Own(name)
    ensures Apply(c, s, Answer(raw, PTR, value)) == IngestPtr(c, s, owner, value, Own(name))
  {
  }

  /** What a PTR answer of a run does, and that the run keeps it. */
  lemma {:induction false} PointerIsKept(
      c: Policy, call: PlannerCall, ops: seq<Op>, k: nat, raw: string, value: string, owner: string, name: string)
    requires IsPolicyPlanner(c, call) && k < |ops| && ops[k] == Answer(raw, PTR, value)
    requires Locate(c.spf, raw) == Own(owner) && Locate(c.spf, value) == Own(name)
    ensures var before, after := StateAfter(call, ops[..k]), StateAfter(call, ops);
            var next := IngestPtr(c, before, owner, value, Own(name)).0;
            && FollowedUp(c, before) && FollowedUp(c, after)
            && next.types <= after.types && next.instances <= after.instances
            && before.types <= after.types && before.instances <= after.instances
  {
    RunIsFollowedUp(c, call, ops[..k]);
    RunIsFollowedUp(c, call, ops);
    CallAt(c, call, ops, k);
    PointerAnswer(c, StateAfter(call, ops[..k]), raw, value, owner, name);
    RunOnlyGrows(c, call, ops, k + 1);
    RunOnlyGrows(c, call, ops, k);
  }

  /** Every answer to a browse query has led to a query for the instances of that service, unless a budget is spent. */
  lemma {:induction false} BrowseAnswersAreFollowed(
      c: Policy, call: PlannerCall, ops: seq<Op>, k: nat, raw: string, value: string, owner: string, name: string)
    requires IsPolicyPlanner(c, call) && k < |ops| && ops[k] == Answer(raw, PTR, value)
    requires Locate(c.spf, raw) == Own(owner) && "_services._dns-sd._udp." <= owner && Locate(c.spf, value) == Own(name)
    ensures var s := StateAfter(call, ops); (name in s.types && Asked(c, s.planned, name, PTR)) || |s.types| >= c.maxTypes
  {
    PointerIsKept(c, call, ops, k, raw, value, owner, name);
    BrowseIsFollowed(c, StateAfter(call, ops[..k]), owner, value, name);
    Ranking.SubsetSize(StateAfter(call, ops[..k]).types, StateAfter(call, ops).types);
  }

  /** Every answer from a known service has led to queries for the instance's SRV and TXT records, unless a budget is spent. */
  lemma {:induction false} ServiceAnswersAreFollowed(
      c: Policy, call: PlannerCall, ops: seq<Op>, k: nat, raw: string, value: string, owner: string, name: string)
    requires IsPolicyPlanner(c, call) && k < |ops| && ops[k] == Answer(raw, PTR, value)
    requires Locate(c.spf, raw) == Own(owner) && !("_services._dns-sd._udp." <= owner) && Locate(c.spf, value) == Own(name)
    requires owner in StateAfter(call, ops[..k]).types
    ensures var s := StateAfter(call, ops);
            (name in s.instances && Asked(c, s.planned, name, SRV) && Asked(c, s.planned, name, TXT)) || |s.instances| >= c.maxInstances
  {
    PointerIsKept(c, call, ops, k, raw, value, owner, name);
    ServiceIsFollowed(c, StateAfter(call, ops[..k]), owner, value, name);
    Ranking.SubsetSize(StateAfter(call, ops[..k]).instances, StateAfter(call, ops).instances);
  }

  /** Every query of an SPF expansion has been passed on, unless the query budget is spent. */
  lemma SpfAnswersAreFollowed(c: Policy, call: PlannerCall, ops: seq<Op>, k: nat, raw: string, value: string, owner: string, q: Query)
    requires IsPolicyPlanner(c, call) && k < |ops| && ops[k] == Answer(raw, TXT, value) && Locate(c.spf, raw) == Own(owner)
    requires var words := Words(c.spf.unquote(value)); words != [] && Lower(words[0]) == "v=spf1"
    requires q in Expand(c.spf, StateAfter(call, ops[..k]).spf, owner, c.spf.unquote(value)).1.queries
    ensures Asked(c, StateAfter(call, ops).planned, q.name, q.recordType)
  {
    var s := StateAfter(call, ops[..k]);
    var answer := Expand(c.spf, s.spf, owner, c.spf.unquote(value));
    RunIsFollowedUp(c, call, ops[..k]);
    SpfFollows(c, s, answer);
    CallAt(c, call, ops, k);
    RunOnlyGrows(c, call, ops, k + 1);
    var i :| 0 <= i < |answer.1.queries| && answer.1.queries[i] == q;
    AskedForGood(c, IngestSpf(c, s, answer).0.planned, StateAfter(call, ops).planned, q.name, q.recordType);
  }

  // ----- what records mention -----

  /** A mentioned name stands in the report: outside the domain as a feature, inside as a host if it is one. */
  predicate Mentions(delta: Delta, owner: string, address: Address, kind: FeatureKind, root: string) {
    && (address.Foreign? ==> ExternalFeature(owner, address.name, kind) in delta.external)
    && (address.Own? && NormalizeObservedName(address.name, root).Some? ==> NormalizeObservedName(address.name, root).value in delta.names)
  }

  lemma OneReference(owner: string, address: Address, kind: FeatureKind, root: string, delta: Delta)
    ensures var after := ClassifyReference(owner, address, kind, root, delta);
            Mentions(after, owner, address, kind, root) && delta.external <= after.external && delta.names <= after.names
  {
  }

  lemma {:induction false} ReferencesAreClassified(c: Setup, owner: string, references: seq<(string, FeatureKind)>, k: nat)
    requires k < |references|
    ensures Mentions(ClassifyAll(c, owner, references), owner, Locate(c, references[k].0), references[k].1, c.root)
  {
    var front, last := references[..|references| - 1], references[|references| - 1];
    OneReference(owner, Locate(c, last.0), last.1, c.root, ClassifyAll(c, owner, front));
    if k < |front| {
      ReferencesAreClassified(c, owner, front, k);
      assert front[k] == references[k];
    }
  }

  /** Every name that an SRV, NAPTR, URI or other TXT record mentions is reported: hosts of the domain, and what lies outside. */
  lemma MentionsAreReported(c: Policy, s: PlannerState, raw: string, owner: string, recordType: RecordType, value: string, k: nat)
    requires Locate(c.spf, raw) == Own(owner) && recordType in {SRV, NAPTR, URI, TXT}
    requires recordType == TXT ==> !SpfRecord(c.spf.unquote(value))
    requires k < |c.references(recordType, if recordType == TXT then c.spf.unquote(value) else value)|
    ensures var references := c.references(recordType, if recordType == TXT then c.spf.unquote(value) else value);
            Mentions(Apply(c, s, Answer(raw, recordType, value)).1, owner, Locate(c.spf, references[k].0), references[k].1, c.spf.root)
  {
    ReferencesAreClassified(c.spf, owner, c.references(recordType, if recordType == TXT then c.spf.unquote(value) else value), k);
  }
}
