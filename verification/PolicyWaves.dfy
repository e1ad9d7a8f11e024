/** The wave loop over the policy planner (src/discovery.rs): ask, read every answer, ask again. */
module PolicyWaves {
  import opened Basics
  import opened Hostnames
  import opened SpfPlanner
  import opened SpfTheorems
  import opened PolicyPlanner
  import opened PolicyTheorems
  import Ranking

  datatype Reply = Reply(owner: string, recordType: RecordType, values: seq<string>)

  /** What the resolver answers to each wave; it may answer anything, in any order. */
  type Resolver = (nat, seq<Query>) -> seq<Reply>

  // ----- what a run of waves is -----

  function ValueOps(reply: Reply): seq<Op> {
    seq(|reply.values|, k requires 0 <= k < |reply.values| => Answer(reply.owner, reply.recordType, reply.values[k]))
  }

  /** One call of the planner for every value of every reply, in order. */
  function ReplyOps(replies: seq<Reply>): seq<Op> {
    if replies == [] then [] else ReplyOps(replies[..|replies| - 1]) + ValueOps(replies[|replies| - 1])
  }

  /** The calls of a whole run: the first wave is planned, and then every wave that was asked is answered. */
  function RunOf(zones: seq<string>, resolver: Resolver, waves: seq<seq<Query>>): seq<Op> {
    if waves == [] then [First(zones)]
    else
      var n := |waves| - 1;
      RunOf(zones, resolver, waves[..n]) + ReplyOps(resolver(n, waves[n]))
  }

  function Concat(waves: seq<seq<Query>>): seq<Query> {
    if waves == [] then [] else Concat(waves[..|waves| - 1]) + waves[|waves| - 1]
  }

  /** What the planner emits in a run, in order, as far as the second filter lets it through. */
  function Wanted(call: PlannerCall, domain: string, ops: seq<Op>): seq<Query> { Filter(Emitted(call, ops), domain) }

  /** Each wave is what the planner emitted upon the answers to the wave before; the last one waits. */
  ghost predicate IsWaveRun(
      call: PlannerCall, domain: string, zones: seq<string>, resolver: Resolver, waves: seq<seq<Query>>, pending: seq<Query>) {
    forall k :: 0 <= k <= |waves| ==>
      Concat(waves[..k]) + (if k < |waves| then waves[k] else pending) == Wanted(call, domain, RunOf(zones, resolver, waves[..k]))
  }

  /** Everything that the planner reports on the way. */
  datatype Findings = Findings(names: set<string>, external: set<ExternalFeature>, limits: set<PlanLimit>, loops: set<string>)

  function Note(f: Findings, delta: Delta): Findings {
    Findings(f.names + delta.names, f.external + delta.external, f.limits + delta.limits, f.loops + delta.loops)
  }

  function Reported(call: PlannerCall, ops: seq<Op>): Findings {
    if ops == [] then Findings({}, {}, {}, {})
    else Note(Reported(call, ops[..|ops| - 1]), call(StateAfter(call, ops[..|ops| - 1]), ops[|ops| - 1]).1)
  }

  // ----- one more call -----

  lemma {:induction false} FilterJoins(a: seq<Query>, b: seq<Query>, domain: string)
    ensures Filter(a + b, domain) == Filter(a, domain) + Filter(b, domain)
  {
    if b == [] {
      assert a + b == a && Filter(a, domain) + [] == Filter(a, domain);
    } else {
      var front, last := b[..|b| - 1], b[|b| - 1];
      FilterJoins(a, front, domain);
      assert (a + b)[..|a + b| - 1] == a + front && (a + b)[|a + b| - 1] == last;
    }
  }

  /** The planner, the queries and the findings stand where these calls have led. */
  ghost predicate Stands(c: Policy, call: PlannerCall, domain: string, ops: seq<Op>, s: PlannerState, all: seq<Query>, found: Findings) {
    IsPolicyPlanner(c, call) && s == StateAfter(call, ops) && all == Wanted(call, domain, ops) && found == Reported(call, ops)
  }

  lemma OneMoreCall(c: Policy, call: PlannerCall, domain: string, ops: seq<Op>, s: PlannerState, all: seq<Query>, found: Findings,
                    op: Op, after: PlannerState, delta: Delta)
    requires Stands(c, call, domain, ops, s, all, found) && (after, delta) == call(s, op)
    ensures Stands(c, call, domain, ops + [op], after, all + Filter(delta.queries, domain), Note(found, delta))
  {
    assert (ops + [op])[..|ops|] == ops;
    FilterJoins(Emitted(call, ops), delta.queries, domain);
  }

  lemma {:induction false} FilterKeepsDistinct(queries: seq<Query>, domain: string)
    requires DistinctKeys(queries)
    ensures DistinctKeys(Filter(queries, domain)) && Keys(Filter(queries, domain)) <= Keys(queries)
  {
    if queries != [] {
      var front, last := queries[..|queries| - 1], queries[|queries| - 1];
      FilterKeepsDistinct(front, domain);
      LastIsNew(queries);
      assert queries == front + [last];
      KeysOfMore(front, last);
      if InScope(last.name, domain) { DistinctMore(Filter(front, domain), last); }
    }
  }

  /** Of clean queries the second boundary drops only those outside the domain. */
  lemma QueueOfDistinct(queries: seq<Query>, domain: string)
    requires DistinctKeys(queries)
    ensures Queue(queries, domain) == Filter(queries, domain)
  {
    FilterKeepsDistinct(queries, domain);
    DistinctAreKept(Filter(queries, domain));
  }

  lemma {:induction false} DistinctSize(queries: seq<Query>)
    requires DistinctKeys(queries)
    ensures |Keys(queries)| == |queries|
  {
    if queries != [] {
      var front, last := queries[..|queries| - 1], queries[|queries| - 1];
      DistinctSize(front);
      LastIsNew(queries);
      KeysOfMore(front, last);
      assert queries == front + [last];
    }
  }

  /** What all wanted queries have in common, whatever the calls were. */
  lemma WantedIsClean(c: Policy, call: PlannerCall, domain: string, ops: seq<Op>)
    requires IsPolicyPlanner(c, call)
    ensures var all := Wanted(call, domain, ops);
            && DistinctKeys(all) && AllInScope(all, domain) && |all| <= c.maxQueries
            && (domain == c.spf.root ==> Keys(all) == StateAfter(call, ops).planned)
    ensures Within(c, StateAfter(call, ops))
  {
    EmittedOnceInScopeWithinBudget(c, call, ops);
    FilterKeepsDistinct(Emitted(call, ops), domain);
    FilterKeepsScope(Emitted(call, ops), domain);
    if domain == c.spf.root { FilterKeepsAll(Emitted(call, ops), domain); }
  }

  /** The last part of what is wanted is already clean: filtering it again drops nothing. */
  lemma TailIsClean(asked: seq<Query>, next: seq<Query>, domain: string)
    requires DistinctKeys(asked + next) && AllInScope(asked + next, domain)
    ensures Queue(next, domain) == next
  {
    var all := asked + next;
    forall i, j | 0 <= i < j < |next| ensures Key(next[i]) != Key(next[j]) {
      assert all[|asked| + i] == next[i] && all[|asked| + j] == next[j];
    }
    forall q | q in next ensures InScope(q.name, domain) { assert q in all; }
    QueueIsABoundary(next, domain);
  }

  // ----- the loops -----

  method IngestOne(planner: QueryPlanner, op: Op) returns (delta: Delta)
    requires planner.Valid() && op.Answer?
    modifies planner, planner.spf
    ensures planner.Valid() && (planner.State(), delta) == Apply(planner.policy, old(planner.State()), op)
  {
    delta := planner.Ingest(op.owner, op.recordType, op.value);
  }

  /** What the call of this operation is, and that its queries are clean. */
  lemma CallIsClean(c: Policy, call: PlannerCall, ops: seq<Op>, s: PlannerState, op: Op)
    requires IsPolicyPlanner(c, call) && s == StateAfter(call, ops)
    ensures call(s, op) == Apply(c, s, op) && DistinctKeys(call(s, op).1.queries)
  {
    EmittedOnceInScopeWithinBudget(c, call, ops);
    ApplyMoves(c, s, op);
  }

  /** What one call adds behind the second filter at the network call. */
  lemma CallAdds(c: Policy, call: PlannerCall, domain: string, ops: seq<Op>, s: PlannerState, asked: seq<Query>, soFar: seq<Query>,
                 noted: Findings, op: Op, after: PlannerState, delta: Delta)
    requires Stands(c, call, domain, ops, s, asked + soFar, noted) && (after, delta) == call(s, op) && DistinctKeys(delta.queries)
    ensures Stands(c, call, domain, ops + [op], after, asked + (soFar + Queue(delta.queries, domain)), Note(noted, delta))
  {
    QueueOfDistinct(delta.queries, domain);
    OneMoreCall(c, call, domain, ops, s, asked + soFar, noted, op, after, delta);
    assert asked + soFar + Filter(delta.queries, domain) == asked + (soFar + Queue(delta.queries, domain));
  }

  /** One value. */
  method ReadValue(
      planner: QueryPlanner, ghost call: PlannerCall, domain: string, ghost ops: seq<Op>, ghost asked: seq<Query>,
      op: Op, soFar: seq<Query>, noted: Findings)
    returns (next: seq<Query>, found: Findings)
    requires planner.Valid() && Stands(planner.policy, call, domain, ops, planner.State(), asked + soFar, noted) && op.Answer?
    modifies planner, planner.spf
    ensures planner.Valid() && Stands(planner.policy, call, domain, ops + [op], planner.State(), asked + next, found)
  {
    ghost var s := planner.State();
    CallIsClean(planner.policy, call, ops, s, op);
    var delta := IngestOne(planner, op);
    next, found := soFar + Queue(delta.queries, domain), Note(noted, delta);
    CallAdds(planner.policy, call, domain, ops, s, asked, soFar, noted, op, planner.State(), delta);
  }

  lemma OpsMore(ops: seq<Op>, all: seq<Op>, k: nat)
    requires k < |all|
    ensures ops + all[..k] + [all[k]] == ops + all[..k + 1]
  {
  }

  method ReadValues(
      planner: QueryPlanner, ghost call: PlannerCall, domain: string, ghost ops: seq<Op>, ghost asked: seq<Query>,
      reply: Reply, soFar: seq<Query>, noted: Findings)
    returns (next: seq<Query>, found: Findings)
    requires planner.Valid() && Stands(planner.policy, call, domain, ops, planner.State(), asked + soFar, noted)
    modifies planner, planner.spf
    ensures planner.Valid() && Stands(planner.policy, call, domain, ops + ValueOps(reply), planner.State(), asked + next, found)
  {
    next, found := soFar, noted;
    ghost var all, done := ValueOps(reply), ops;
    for k := 0 to |reply.values|
      invariant planner.Valid() && done == ops + all[..k]
      invariant Stands(planner.policy, call, domain, done, planner.State(), asked + next, found)
    {
      var op := Answer(reply.owner, reply.recordType, reply.values[k]);
      next, found := ReadValue(planner, call, domain, done, asked, op, next, found);
      OpsMore(ops, all, k);
      done := done + [op];
    }
    assert done == ops + all;
  }

  lemma RepliesMore(ops: seq<Op>, replies: seq<Reply>, k: nat)
    requires k < |replies|
    ensures ops + ReplyOps(replies[..k]) + ValueOps(replies[k]) == ops + ReplyOps(replies[..k + 1])
  {
    assert replies[..k + 1][..k] == replies[..k];
  }

  method ReadReplies(
      planner: QueryPlanner, ghost call: PlannerCall, domain: string, ghost ops: seq<Op>, ghost asked: seq<Query>,
      replies: seq<Reply>, noted: Findings)
    returns (next: seq<Query>, found: Findings)
    requires planner.Valid() && Stands(planner.policy, call, domain, ops, planner.State(), asked, noted)
    modifies planner, planner.spf
    ensures planner.Valid() && Stands(planner.policy, call, domain, ops + ReplyOps(replies), planner.State(), asked + next, found)
  {
    next, found := [], noted;
    ghost var done := ops;
    assert asked + [] == asked;
    for k := 0 to |replies|
      invariant planner.Valid() && done == ops + ReplyOps(replies[..k])
      invariant Stands(planner.policy, call, domain, done, planner.State(), asked + next, found)
    {
      next, found := ReadValues(planner, call, domain, done, asked, replies[k], next, found);
      RepliesMore(ops, replies, k);
      done := done + ValueOps(replies[k]);
    }
    assert replies[..|replies|] == replies;
  }

  lemma OneMoreWave(
      call: PlannerCall, domain: string, zones: seq<string>, resolver: Resolver, waves: seq<seq<Query>>, wave: seq<Query>, pending: seq<Query>)
    requires IsWaveRun(call, domain, zones, resolver, waves, wave)
    requires Concat(waves) + wave + pending == Wanted(call, domain, RunOf(zones, resolver, waves + [wave]))
    ensures IsWaveRun(call, domain, zones, resolver, waves + [wave], pending)
    ensures Concat(waves + [wave]) == Concat(waves) + wave
  {
    var more := waves + [wave];
    assert more[..|waves|] == waves && waves[..|waves|] == waves && more[..|more|] == more;
    forall k | 0 <= k < |waves| ensures more[..k] == waves[..k] && more[k] == waves[k] { }
  }

  lemma FirstWave(call: PlannerCall, domain: string, zones: seq<string>, resolver: Resolver, pending: seq<Query>)
    requires pending == Wanted(call, domain, [First(zones)])
    ensures IsWaveRun(call, domain, zones, resolver, [], pending)
  {
  }

  /**
   The policy waves of one scan. Whatever the resolver answers, the planner has been given exactly the first wave and
   every value of every reply, in order; each wave is what it emitted upon the wave before, and nothing it emitted or
   reported is lost but for queries outside the requested domain. No query is asked twice, and all of them together fit
   the budget; so the loop ends within maxQueries waves even where the cap on waves is larger (the scan passes ten).
   */
  method DiscoverPolicies(policy: Policy, domain: string, zones: seq<string>, resolver: Resolver, maxWaves: nat, ghost call: PlannerCall)
    returns (asked: seq<Query>, pending: seq<Query>, waves: seq<seq<Query>>, planner: QueryPlanner, found: Findings)
    requires Sanitized(policy.spf) && IsPolicyPlanner(policy, call)
    ensures asked == Concat(waves) && IsWaveRun(call, domain, zones, resolver, waves, pending)
    ensures planner.State() == StateAfter(call, RunOf(zones, resolver, waves))
    ensures found == Reported(call, RunOf(zones, resolver, waves))
    ensures DistinctKeys(asked + pending) && AllInScope(asked + pending, domain)
    ensures |asked| + |pending| <= policy.maxQueries
    ensures |waves| <= maxWaves && |waves| <= |asked| && forall k :: 0 <= k < |waves| ==> waves[k] != []
    ensures pending != [] ==> |waves| == maxWaves
    ensures maxWaves >= policy.maxQueries ==> pending == []
    ensures domain == policy.spf.root ==> Keys(asked + pending) == planner.plannedQueries
  {
    planner := new QueryPlanner(policy);
    asked, waves, found := [], [], Findings({}, {}, {}, {});
    CallIsClean(policy, call, [], Unused(), First(zones));
    var delta := planner.PlanFirstWave(zones);
    pending := Queue(delta.queries, domain);
    QueueOfDistinct(delta.queries, domain);
    OneMoreCall(policy, call, domain, [], Unused(), [], found, First(zones), planner.State(), delta);
    found := Note(found, delta);
    assert [] + [First(zones)] == [First(zones)] && [] + pending == pending == asked + pending;
    FirstWave(call, domain, zones, resolver, pending);
    while |waves| < maxWaves && pending != []
      invariant fresh(planner) && fresh(planner.spf) && planner.policy == policy && planner.Valid()
      invariant Stands(policy, call, domain, RunOf(zones, resolver, waves), planner.State(), asked + pending, found)
      invariant asked == Concat(waves) && IsWaveRun(call, domain, zones, resolver, waves, pending)
      invariant |waves| <= maxWaves && |waves| <= |asked| && forall k :: 0 <= k < |waves| ==> waves[k] != []
      decreases maxWaves - |waves|
    {
      var replies := resolver(|waves|, pending);
      ghost var ops := RunOf(zones, resolver, waves);
      var next;
      next, found := ReadReplies(planner, call, domain, ops, asked + pending, replies, found);
      assert (waves + [pending])[..|waves|] == waves;
      WantedIsClean(policy, call, domain, ops + ReplyOps(replies));
      OneMoreWave(call, domain, zones, resolver, waves, pending, next);
      asked, waves := asked + pending, waves + [pending];
      TailIsClean(asked, next, domain);
      pending := Queue(next, domain);
    }
    WantedIsClean(policy, call, domain, RunOf(zones, resolver, waves));
  }
}
