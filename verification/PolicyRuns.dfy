/** What a run of policy waves consists of (src/discovery.rs): every value of every reply, in order, and all that is reported. */
module PolicyRuns {
  import opened Basics
  import opened SpfPlanner
  import opened PolicyPlanner
  import opened PolicyTheorems
  import opened PolicyWaves
  import Hostnames
  import HostnameRules

  // ----- the calls of a run -----

  /** How many values these replies hold. */
  function ValueCount(replies: seq<Reply>): nat {
    if replies == [] then 0 else |replies[0].values| + ValueCount(replies[1..])
  }

  lemma {:induction false} CountJoins(a: seq<Reply>, b: seq<Reply>)
    ensures ValueCount(a + b) == ValueCount(a) + ValueCount(b)
  {
    if a == [] {
      assert a + b == b;
    } else {
      assert (a + b)[1..] == a[1..] + b;
      CountJoins(a[1..], b);
    }
  }

  lemma CountLast(replies: seq<Reply>)
    requires replies != []
    ensures ValueCount(replies) == ValueCount(replies[..|replies| - 1]) + |replies[|replies| - 1].values|
  {
    var front, last := replies[..|replies| - 1], replies[|replies| - 1];
    CountJoins(front, [last]);
    assert replies == front + [last];
    assert ValueCount([last]) == |last.values|;
  }

  lemma {:induction false} AsManyAsValues(replies: seq<Reply>)
    ensures |ReplyOps(replies)| == ValueCount(replies)
  {
    if replies != [] {
      AsManyAsValues(replies[..|replies| - 1]);
      CountLast(replies);
    }
  }

  /** Value j of reply i is given to the planner behind all values of the replies before it, and no others are. */
  lemma {:induction false} RepliesAreReadInOrder(replies: seq<Reply>, i: nat, j: nat)
    requires i < |replies| && j < |replies[i].values|
    ensures |ReplyOps(replies)| == ValueCount(replies) > ValueCount(replies[..i]) + j
    ensures ReplyOps(replies)[ValueCount(replies[..i]) + j] == Answer(replies[i].owner, replies[i].recordType, replies[i].values[j])
  {
    var n := |replies| - 1;
    var front := replies[..n];
    AsManyAsValues(replies);
    AsManyAsValues(front);
    CountLast(replies);
    if i < n {
      assert front[..i] == replies[..i] && front[i] == replies[i];
      RepliesAreReadInOrder(front, i, j);
    }
  }

  lemma StillBegins(start: seq<Op>, all: seq<Op>, more: seq<Op>)
    requires start <= all
    ensures start <= all + more
  {
  }

  /** A run plans the first wave and then reads the replies to each wave behind those to the waves before it. */
  lemma {:induction false} WavesAreAnsweredInOrder(zones: seq<string>, resolver: Resolver, waves: seq<seq<Query>>, k: nat)
    requires k < |waves|
    ensures RunOf(zones, resolver, []) == [First(zones)]
    ensures RunOf(zones, resolver, waves[..k]) + ReplyOps(resolver(k, waves[k])) <= RunOf(zones, resolver, waves)
  {
    var n := |waves| - 1;
    if k < n {
      WavesAreAnsweredInOrder(zones, resolver, waves[..n], k);
      assert waves[..n][..k] == waves[..k] && waves[..n][k] == waves[k];
      StillBegins(RunOf(zones, resolver, waves[..k]) + ReplyOps(resolver(k, waves[k])), RunOf(zones, resolver, waves[..n]), ReplyOps(resolver(n, waves[n])));
    }
  }

  /** Nothing else happens in a run. */
  lemma {:induction false} RunIsItsAnswers(zones: seq<string>, resolver: Resolver, waves: seq<seq<Query>>, op: Op)
    ensures op in RunOf(zones, resolver, waves) <==>
            op == First(zones) || exists k :: 0 <= k < |waves| && op in ReplyOps(resolver(k, waves[k]))
  {
    if waves != [] {
      var n := |waves| - 1;
      RunIsItsAnswers(zones, resolver, waves[..n], op);
      assert forall k :: 0 <= k < n ==> waves[..n][k] == waves[k];
    }
  }

  // ----- what a run reports -----

  /** The report of call k. */
  function DeltaAt(call: PlannerCall, ops: seq<Op>, k: nat): Delta
    requires k < |ops|
  {
    call(StateAfter(call, ops[..k]), ops[k]).1
  }

  lemma DeltaBefore(call: PlannerCall, ops: seq<Op>, k: nat)
    requires k < |ops| - 1
    ensures DeltaAt(call, ops[..|ops| - 1], k) == DeltaAt(call, ops, k)
  {
    assert ops[..|ops| - 1][..k] == ops[..k];
  }

  /** Whatever some call of a run reports is in the report of the run. */
  lemma {:induction false} ReportsAreGathered(call: PlannerCall, ops: seq<Op>, k: nat)
    requires k < |ops|
    ensures var delta, found := DeltaAt(call, ops, k), Reported(call, ops);
            delta.names <= found.names && delta.external <= found.external && delta.limits <= found.limits && delta.loops <= found.loops
  {
    if k < |ops| - 1 {
      DeltaBefore(call, ops, k);
      ReportsAreGathered(call, ops[..|ops| - 1], k);
    }
  }

  /** Whatever is in the report of a run was reported by some call. */
  lemma {:induction false} ReportsComeFromCalls(call: PlannerCall, ops: seq<Op>, name: string, feature: ExternalFeature)
    ensures name in Reported(call, ops).names ==> exists k :: 0 <= k < |ops| && name in DeltaAt(call, ops, k).names
    ensures feature in Reported(call, ops).external ==> exists k :: 0 <= k < |ops| && feature in DeltaAt(call, ops, k).external
  {
    if ops != [] {
      var n := |ops| - 1;
      ReportsComeFromCalls(call, ops[..n], name, feature);
      assert DeltaAt(call, ops, n) == call(StateAfter(call, ops[..n]), ops[n]).1;
      forall k: nat | k < n ensures DeltaAt(call, ops[..n], k) == DeltaAt(call, ops, k) { DeltaBefore(call, ops, k); }
    }
  }

  /** Whatever a call of a run asks for inside the requested domain is among the queries of the run. */
  lemma {:induction false} WantedHoldsQueries(call: PlannerCall, domain: string, ops: seq<Op>, k: nat, q: Query)
    requires k < |ops| && q in DeltaAt(call, ops, k).queries && (q.name == domain || exists front :: q.name == front + ("." + domain))
    ensures q in Wanted(call, domain, ops)
  {
    var n := |ops| - 1;
    FilterJoins(Emitted(call, ops[..n]), DeltaAt(call, ops, n).queries, domain);
    if k < n {
      DeltaBefore(call, ops, k);
      WantedHoldsQueries(call, domain, ops[..n], k, q);
    } else {
      HostnameRules.InScopeIff(q.name, domain);
      FilterHolds(DeltaAt(call, ops, n).queries, domain, q);
    }
  }

  lemma {:induction false} FilterHolds(queries: seq<Query>, domain: string, q: Query)
    requires q in queries && Hostnames.InScope(q.name, domain)
    ensures q in Filter(queries, domain)
  {
    var front, last := queries[..|queries| - 1], queries[|queries| - 1];
    if q in front { FilterHolds(front, domain, q); }
  }
}
