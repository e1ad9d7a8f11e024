/** What every run of the policy planner keeps, and the wave loop that drives it (src/discovery.rs). */
module PolicyTheorems {
  import opened Basics
  import opened Hostnames
  import opened SpfPlanner
  import opened SpfTheorems
  import opened PolicyPlanner

  // ----- one query -----

  ghost predicate AllInScope(queries: seq<Query>, root: string) {
    forall q :: q in queries ==> InScope(q.name, root)
  }

  /** The plan after grows from the plan before by exactly the new queries, inside the scope and the budget. */
  ghost predicate Grows(root: string, maxQueries: nat, before: set<QueryKey>, p: Plan) {
    && DistinctKeys(p.delta.queries)
    && Keys(p.delta.queries) !! before
    && p.planned == before + Keys(p.delta.queries)
    && |p.planned| == |before| + |p.delta.queries|
    && (|before| <= maxQueries ==> |p.planned| <= maxQueries)
    && AllInScope(p.delta.queries, root)
  }

  lemma OneMoreQuery(queries: seq<Query>, q: Query, root: string)
    requires DistinctKeys(queries) && Key(q) !in Keys(queries) && AllInScope(queries, root) && InScope(q.name, root)
    ensures DistinctKeys(queries + [q]) && AllInScope(queries + [q], root)
    ensures Keys(queries + [q]) == Keys(queries) + {Key(q)}
  {
    DistinctMore(queries, q);
  }

  lemma PushGrows(root: string, maxQueries: nat, before: set<QueryKey>, p: Plan, q: Query, address: Address)
    requires Grows(root, maxQueries, before, p) && (address.Own? ==> InScope(address.name, root))
    ensures Grows(root, maxQueries, before, PushTo(maxQueries, p, q, address))
  {
    if address.Own? && (address.name, q.recordType) !in p.planned && |p.planned| < maxQueries {
      OneMoreQuery(p.delta.queries, q.(name := address.name), root);
    }
  }

  lemma {:induction false} PushAllGrows(c: Policy, before: set<QueryKey>, p: Plan, queries: seq<Query>)
    requires Grows(c.spf.root, c.maxQueries, before, p)
    ensures Grows(c.spf.root, c.maxQueries, before, PushAll(c, p, queries))
  {
    if queries != [] {
      var last := queries[|queries| - 1];
      PushAllGrows(c, before, p, queries[..|queries| - 1]);
      PushGrows(c.spf.root, c.maxQueries, before, PushAll(c, p, queries[..|queries| - 1]), last, Locate(c.spf, last.name));
    }
  }

  lemma NothingGrows(root: string, maxQueries: nat, before: set<QueryKey>, delta: Delta)
    requires delta.queries == []
    ensures Grows(root, maxQueries, before, Plan(before, delta))
  {
  }

  // ----- one call -----

  datatype Op = First(zones: seq<string>) | Answer(owner: string, recordType: RecordType, value: string)

  function Apply(c: Policy, s: PlannerState, op: Op): (PlannerState, Delta) {
    match op
    case First(zones) => InitialPlan(c, s, zones)
    case Answer(owner, recordType, value) => IngestRecord(c, s, owner, recordType, value)
  }

  /** The budgets of the planner. */
  ghost predicate Within(c: Policy, s: PlannerState) {
    && |s.planned| <= c.maxQueries && |s.types| <= c.maxTypes && |s.instances| <= c.maxInstances
    && Safe(c.spf, s.spf)
  }

  /** What every call does. */
  ghost predicate Moves(c: Policy, s: PlannerState, after: PlannerState, delta: Delta) {
    && Within(c, after)
    && Grows(c.spf.root, c.maxQueries, s.planned, Plan(after.planned, delta))
    && s.types <= after.types && s.instances <= after.instances && s.spf.expanded <= after.spf.expanded
  }

  lemma {:induction false} ClassifyAsksNothing(c: Setup, owner: string, references: seq<(string, FeatureKind)>)
    ensures ClassifyAll(c, owner, references).queries == []
  {
    if references != [] {
      ClassifyAsksNothing(c, owner, references[..|references| - 1]);
    }
  }

  /** Pushing queries from an unchanged plan. */
  lemma PushMoves(c: Policy, s: PlannerState, queries: seq<Query>, types: set<string>, instances: set<string>)
    requires Within(c, s) && s.types <= types && s.instances <= instances && |types| <= c.maxTypes && |instances| <= c.maxInstances
    ensures var p := PushAll(c, Plan(s.planned, Nothing()), queries);
            Moves(c, s, PlannerState(p.planned, types, instances, s.spf), p.delta)
  {
    NothingGrows(c.spf.root, c.maxQueries, s.planned, Nothing());
    PushAllGrows(c, s.planned, Plan(s.planned, Nothing()), queries);
  }

  lemma BrowseMoves(c: Policy, s: PlannerState, owner: string, value: string, name: string)
    requires Within(c, s) && BrowseOwner(owner)
    ensures var (after, delta) := IngestPtr(c, s, owner, value, Own(name)); Moves(c, s, after, delta)
  {
    if |s.types| < c.maxTypes && name !in s.types {
      PushMoves(c, s, [Query(name, PTR, DnsSdService)], s.types + {name}, s.instances);
    } else {
      StayMoves(c, s, IngestPtr(c, s, owner, value, Own(name)).1);
    }
  }

  lemma InstanceMoves(c: Policy, s: PlannerState, owner: string, value: string, name: string)
    requires Within(c, s) && !BrowseOwner(owner)
    ensures var (after, delta) := IngestPtr(c, s, owner, value, Own(name)); Moves(c, s, after, delta)
  {
    if owner in s.types && |s.instances| < c.maxInstances && name !in s.instances {
      PushMoves(c, s, [Query(name, SRV, DnsSdInstance), Query(name, TXT, DnsSdInstance)], s.types, s.instances + {name});
    } else {
      StayMoves(c, s, IngestPtr(c, s, owner, value, Own(name)).1);
    }
  }

  lemma PtrMoves(c: Policy, s: PlannerState, owner: string, value: string, target: Address)
    requires Within(c, s)
    ensures var (after, delta) := IngestPtr(c, s, owner, value, target); Moves(c, s, after, delta)
  {
    if !target.Own? {
      StayMoves(c, s, IngestPtr(c, s, owner, value, target).1);
    } else if BrowseOwner(owner) {
      BrowseMoves(c, s, owner, value, target.name);
    } else {
      InstanceMoves(c, s, owner, value, target.name);
    }
  }

  lemma SpfMoves(c: Policy, s: PlannerState, answer: (SpfState, Delta))
    requires Within(c, s) && Safe(c.spf, answer.0) && s.spf.expanded <= answer.0.expanded
    ensures var (after, delta) := IngestSpf(c, s, answer); Moves(c, s, after, delta)
  {
    NothingGrows(c.spf.root, c.maxQueries, s.planned, answer.1.(queries := []));
    PushAllGrows(c, s.planned, Plan(s.planned, answer.1.(queries := [])), answer.1.queries);
  }

  lemma StayMoves(c: Policy, s: PlannerState, delta: Delta)
    requires Within(c, s) && delta.queries == []
    ensures Moves(c, s, s, delta)
  {
    NothingGrows(c.spf.root, c.maxQueries, s.planned, delta);
  }

  lemma OwnedMoves(c: Policy, s: PlannerState, owner: string, recordType: RecordType, value: string)
    requires Within(c, s)
    ensures var (after, delta) := IngestOwned(c, s, owner, recordType, value); Moves(c, s, after, delta)
  {
    match recordType
    case PTR => PtrMoves(c, s, owner, value, Locate(c.spf, value));
    case TXT =>
      var text := c.spf.unquote(value);
      if SpfRecord(text) {
        ExpandKeeps(c.spf, s.spf, owner, text);
        SpfMoves(c, s, Expand(c.spf, s.spf, owner, text));
      } else {
        ClassifyAsksNothing(c.spf, owner, c.references(TXT, text));
        StayMoves(c, s, ClassifyAll(c.spf, owner, c.references(TXT, text)));
      }
    case SRV =>
      ClassifyAsksNothing(c.spf, owner, c.references(SRV, value));
      StayMoves(c, s, ClassifyAll(c.spf, owner, c.references(SRV, value)));
    case NAPTR =>
      ClassifyAsksNothing(c.spf, owner, c.references(NAPTR, value));
      StayMoves(c, s, ClassifyAll(c.spf, owner, c.references(NAPTR, value)));
    case URI =>
      ClassifyAsksNothing(c.spf, owner, c.references(URI, value));
      StayMoves(c, s, ClassifyAll(c.spf, owner, c.references(URI, value)));
    case _ => StayMoves(c, s, Nothing());
  }

  lemma IngestMoves(c: Policy, s: PlannerState, rawOwner: string, recordType: RecordType, value: string)
    requires Within(c, s)
    ensures var (after, delta) := IngestRecord(c, s, rawOwner, recordType, value); Moves(c, s, after, delta)
  {
    match Locate(c.spf, rawOwner)
    case Malformed => StayMoves(c, s, Nothing().(unsupported := {rawOwner}));
    case Foreign(_) => StayMoves(c, s, Nothing());
    case Own(owner) => OwnedMoves(c, s, owner, recordType, value);
  }

  lemma FirstMoves(c: Policy, s: PlannerState, zones: seq<string>)
    requires Within(c, s)
    ensures var (after, delta) := InitialPlan(c, s, zones); Moves(c, s, after, delta)
  {
    NothingGrows(c.spf.root, c.maxQueries, s.planned, InitialNotes(c, zones));
    PushAllGrows(c, s.planned, Plan(s.planned, InitialNotes(c, zones)), InitialQueries(c, zones));
  }

  lemma ApplyMoves(c: Policy, s: PlannerState, op: Op)
    requires Within(c, s)
    ensures var (after, delta) := Apply(c, s, op); Moves(c, s, after, delta)
  {
    match op
    case First(zones) => FirstMoves(c, s, zones);
    case Answer(owner, recordType, value) => IngestMoves(c, s, owner, recordType, value);
  }

  // ----- whole runs -----

  type PlannerCall = (PlannerState, Op) -> (PlannerState, Delta)

  /** call is Apply. */
  ghost predicate IsPolicyPlanner(c: Policy, call: PlannerCall) {
    forall s, op {:trigger Apply(c, s, op)} :: call(s, op) == Apply(c, s, op)
  }

  function StateAfter(call: PlannerCall, ops: seq<Op>): PlannerState {
    if ops == [] then Unused() else call(StateAfter(call, ops[..|ops| - 1]), ops[|ops| - 1]).0
  }

  /** All queries that a run emits, in order. */
  function Emitted(call: PlannerCall, ops: seq<Op>): seq<Query> {
    if ops == [] then []
    else
      var front := ops[..|ops| - 1];
      Emitted(call, front) + call(StateAfter(call, front), ops[|ops| - 1]).1.queries
  }

  lemma Together(a: seq<Query>, b: seq<Query>, root: string)
    requires DistinctKeys(a) && DistinctKeys(b) && Keys(a) !! Keys(b) && AllInScope(a, root) && AllInScope(b, root)
    ensures DistinctKeys(a + b) && Keys(a + b) == Keys(a) + Keys(b) && AllInScope(a + b, root)
  {
    var both := a + b;
    forall i, j | 0 <= i < j < |both| ensures Key(both[i]) != Key(both[j]) {
      if i < |a| <= j {
        assert Key(a[i]) in Keys(a) && Key(b[j - |a|]) in Keys(b);
      }
    }
    assert forall q :: q in both <==> q in a || q in b;
  }

  /**
   Over any sequence of calls, every name and type is emitted at most once, inside the scanned domain, and no more
   than the budget allows; the planner remembers exactly what it emitted.
   */
  lemma {:induction false} EmittedOnceInScopeWithinBudget(c: Policy, call: PlannerCall, ops: seq<Op>)
    requires IsPolicyPlanner(c, call)
    ensures DistinctKeys(Emitted(call, ops)) && AllInScope(Emitted(call, ops), c.spf.root)
    ensures Keys(Emitted(call, ops)) == StateAfter(call, ops).planned
    ensures |Emitted(call, ops)| == |StateAfter(call, ops).planned| <= c.maxQueries
    ensures Within(c, StateAfter(call, ops))
  {
    if ops != [] {
      var front, last := ops[..|ops| - 1], ops[|ops| - 1];
      EmittedOnceInScopeWithinBudget(c, call, front);
      ApplyMoves(c, StateAfter(call, front), last);
      assert call(StateAfter(call, front), last) == Apply(c, StateAfter(call, front), last);
      Together(Emitted(call, front), call(StateAfter(call, front), last).1.queries, c.spf.root);
    }
  }

  // ----- the second boundary -----

  function Filter(queries: seq<Query>, domain: string): seq<Query> {
    if queries == [] then []
    else
      var last := queries[|queries| - 1];
      Filter(queries[..|queries| - 1], domain) + if InScope(last.name, domain) then [last] else []
  }

  /** What queue_policy_delta lets through to the network. */
  function Queue(queries: seq<Query>, domain: string): seq<Query> {
    Deduplicate(Filter(queries, domain))
  }

  lemma {:induction false} FilterKeepsScope(queries: seq<Query>, domain: string)
    ensures AllInScope(Filter(queries, domain), domain) && |Filter(queries, domain)| <= |queries|
    ensures forall q :: q in Filter(queries, domain) ==> q in queries
  {
    if queries != [] {
      FilterKeepsScope(queries[..|queries| - 1], domain);
    }
  }

  lemma {:induction false} FilterKeepsAll(queries: seq<Query>, domain: string)
    requires AllInScope(queries, domain)
    ensures Filter(queries, domain) == queries
  {
    if queries != [] {
      var front, last := queries[..|queries| - 1], queries[|queries| - 1];
      assert AllInScope(front, domain) by { assert forall q :: q in front ==> q in queries; }
      FilterKeepsAll(front, domain);
      assert last in queries && InScope(last.name, domain);
      assert Filter(queries, domain) == front + [last] == queries;
    }
  }

  lemma LastIsNew(queries: seq<Query>)
    requires DistinctKeys(queries) && queries != []
    ensures Key(queries[|queries| - 1]) !in Keys(queries[..|queries| - 1])
  {
    var front, last := queries[..|queries| - 1], queries[|queries| - 1];
    forall q | q in front ensures Key(q) != Key(last) {
      var i :| 0 <= i < |front| && front[i] == q;
      assert queries[i] == q;
    }
  }

  lemma {:induction false} DistinctAreKept(queries: seq<Query>)
    requires DistinctKeys(queries)
    ensures Deduplicate(queries) == queries
  {
    if queries != [] {
      var front, last := queries[..|queries| - 1], queries[|queries| - 1];
      DistinctAreKept(front);
      LastIsNew(queries);
      calc {
        Deduplicate(queries);
        Deduplicate(front) + [last];
        front + [last];
        queries;
      }
    }
  }

  /** The network boundary: nothing outside the domain passes, and of a clean list nothing is dropped. */
  lemma QueueIsABoundary(queries: seq<Query>, domain: string)
    ensures AllInScope(Queue(queries, domain), domain) && DistinctKeys(Queue(queries, domain))
    ensures forall q :: q in Queue(queries, domain) ==> q in queries
    ensures |Queue(queries, domain)| <= |queries|
    ensures DistinctKeys(queries) && AllInScope(queries, domain) ==> Queue(queries, domain) == queries
  {
    FilterKeepsScope(queries, domain);
    DeduplicateKeepsKeys(Filter(queries, domain));
    if DistinctKeys(queries) && AllInScope(queries, domain) {
      FilterKeepsAll(queries, domain);
      DistinctAreKept(queries);
    }
  }

  /**
   The second filter compares with the domain as it was requested, the planner with its normalised form. The second
   filter passes every name the planner may emit exactly when the two are equal; otherwise it drops the root itself.
   */
  lemma SecondFilterIsRedundantIff(domain: string)
    requires NormalizeHostname(domain).Some?
    ensures var root := NormalizeHostname(domain).value;
            (forall name :: InScope(name, root) ==> InScope(name, domain)) <==> domain == root
    ensures domain != NormalizeHostname(domain).value ==> !InScope(NormalizeHostname(domain).value, domain)
  {
    var root := NormalizeHostname(domain).value;
    assert InScope(root, root);
    assert |"." + domain| > |root|;
  }

  lemma TrailingDotDropsTheRoot()
    ensures NormalizeHostname("a.b.") == Some("a.b") && !InScope("a.b", "a.b.")
  {
    var dot := (c: char) => c == '.';
    assert TrimStart("a.b.", Whitespace) == "a.b.";
    assert TrimEnd("a.b.", Whitespace) == "a.b.";
    assert "a.b."[..3] == "a.b";
    assert TrimEnd("a.b.", dot) == "a.b";
    assert Lower("a.b") == "a.b";
    assert "a.b"[1..] == ".b" && ".b"[1..] == "b" && "b"[1..] == "";
    assert SplitDots("") == [""] && ['a'] + "" == "a" && ['b'] + "" == "b";
    assert SplitDots("b") == [['b'] + ""] + [""][1..] == ["b"];
    assert SplitDots(".b") == [""] + ["b"] == ["", "b"];
    assert SplitDots("a.b") == [['a'] + ""] + ["", "b"][1..] == ["a", "b"];
    assert ValidLabel("a") && ValidLabel("b");
    assert "a.b"[1] == '.';
  }
}
