/** What every sequence of SPF expansions keeps: the lookup budget, the depths, and one expansion per owner. */
module SpfTheorems {
  import opened Basics
  import opened Hostnames
  import opened SpfPlanner

  // ----- deduplication -----

  predicate DistinctKeys(queries: seq<Query>) {
    forall i, j :: 0 <= i < j < |queries| ==> Key(queries[i]) != Key(queries[j])
  }

  lemma KeysOfMore(queries: seq<Query>, q: Query)
    ensures Keys(queries + [q]) == Keys(queries) + {Key(q)}
  {
    var more := queries + [q];
    assert forall x :: x in more <==> x in queries || x == q;
    forall k ensures k in Keys(more) <==> k in Keys(queries) + {Key(q)} {
      if k in Keys(queries) {
        var x :| x in queries && Key(x) == k;
        assert x in more;
      }
      if k == Key(q) {
        assert q in more;
      }
    }
  }

  lemma DistinctMore(kept: seq<Query>, q: Query)
    requires DistinctKeys(kept) && Key(q) !in Keys(kept)
    ensures DistinctKeys(kept + [q]) && Keys(kept + [q]) == Keys(kept) + {Key(q)}
  {
    KeysOfMore(kept, q);
    assert forall i :: 0 <= i < |kept| ==> Key(kept[i]) in Keys(kept);
  }

  /** Deduplication keeps the names and types that are asked for, once each, and adds nothing. */
  lemma {:induction false} DeduplicateKeepsKeys(queries: seq<Query>)
    ensures DistinctKeys(Deduplicate(queries)) && Keys(Deduplicate(queries)) == Keys(queries)
    ensures |Deduplicate(queries)| <= |queries|
    ensures forall q :: q in Deduplicate(queries) ==> q in queries
  {
    if queries != [] {
      var front, last := queries[..|queries| - 1], queries[|queries| - 1];
      DeduplicateKeepsKeys(front);
      assert queries == front + [last];
      KeysOfMore(front, last);
      if Key(last) !in Keys(front) {
        DistinctMore(Deduplicate(front), last);
      }
    }
  }

  // ----- one expansion -----

  /** The invariant of the planner. */
  ghost predicate Safe(c: Setup, s: SpfState) {
    && s.lookups <= c.maxLookups
    && forall o :: o in s.pending ==> 1 <= s.pending[o] <= c.maxDepth && o !in s.expanded
  }

  /** Emitted queries stay in scope, and record queries go only to names that wait to be expanded. */
  ghost predicate Honest(c: Setup, expanded: set<string>, pending: map<string, nat>, queries: seq<Query>) {
    forall q :: q in queries ==>
      InScope(q.name, c.root) && (q.recordType == TXT ==> q.name !in expanded && q.name in pending)
  }

  /** The loop invariant of an expansion that began with before lookups. */
  ghost predicate Kept(c: Setup, f: Frame, p: Progress, before: nat) {
    && before <= p.lookups
    && Safe(c, SpfState(p.lookups, f.expanded, p.pending))
    && Honest(c, f.expanded, p.pending, p.delta.queries)
    && p.delta.loops <= f.expanded
    && |p.delta.queries| <= 2 * (p.lookups - before)
  }

  lemma StepKeeps(c: Setup, f: Frame, p: Progress, raw: string, before: nat)
    requires Kept(c, f, p, before)
    ensures Kept(c, f, StepTerm(c, f, p, raw), before)
    ensures p.pending.Keys <= StepTerm(c, f, p, raw).pending.Keys
  {
    var request := ReadTerm(c, f.owner, raw);
    if request.Some? && request.value.target.Inside? {
      RequestKeeps(c, f, p, raw, request.value.mechanism, request.value.target.name, request.value.target.hostname, before);
    }
  }

  /** The loop invariant with a lookup paid and its queries still to come. */
  ghost predicate Paid(c: Setup, f: Frame, p: Progress, before: nat) {
    && Safe(c, SpfState(p.lookups, f.expanded, p.pending))
    && Honest(c, f.expanded, p.pending, p.delta.queries)
    && p.delta.loops <= f.expanded
    && |p.delta.queries| + 2 <= 2 * (p.lookups - before)
  }

  lemma PolicyKeeps(c: Setup, f: Frame, p: Progress, target: string, before: nat)
    requires Paid(c, f, p, before) && InScope(target, c.root)
    ensures Kept(c, f, FollowPolicy(c, f, p, target), before)
    ensures p.pending.Keys <= FollowPolicy(c, f, p, target).pending.Keys
  {
  }

  lemma AskKeeps(c: Setup, f: Frame, p: Progress, queries: seq<Query>, before: nat)
    requires Paid(c, f, p, before) && |queries| <= 2
    requires forall q :: q in queries ==> InScope(q.name, c.root) && q.recordType != TXT
    ensures Kept(c, f, Ask(p, queries), before)
  {
    assert forall q :: q in p.delta.queries + queries <==> q in p.delta.queries || q in queries;
  }

  lemma TargetKeeps(c: Setup, f: Frame, p: Progress, mechanism: Mechanism, target: string, before: nat)
    requires Paid(c, f, p, before) && InScope(target, c.root)
    ensures Kept(c, f, FollowTarget(c, f, p, mechanism, target), before)
    ensures p.pending.Keys <= FollowTarget(c, f, p, mechanism, target).pending.Keys
  {
    match mechanism
    case Include => PolicyKeeps(c, f, p, target, before);
    case Redirect => PolicyKeeps(c, f, p, target, before);
    case AddressA => AskKeeps(c, f, p, [Query(target, A, Spf), Query(target, AAAA, Spf)], before);
    case MailExchanger => AskKeeps(c, f, p, [Query(target, MX, Spf)], before);
    case Exists => AskKeeps(c, f, p, [Query(target, A, Spf)], before);
  }

  lemma RequestKeeps(c: Setup, f: Frame, p: Progress, raw: string, mechanism: Mechanism, name: string, hostname: Option<string>, before: nat)
    requires Kept(c, f, p, before) && InScope(name, c.root)
    ensures var after := StepRequest(c, f, p, raw, Some(Request(mechanism, Inside(name, hostname))));
            Kept(c, f, after, before) && p.pending.Keys <= after.pending.Keys
  {
    if !p.stopped && p.lookups < c.maxLookups {
      TargetKeeps(c, f, Report(p.(lookups := p.lookups + 1), hostname), mechanism, name, before);
    }
  }

  lemma {:induction false} TermsKeep(c: Setup, f: Frame, p: Progress, terms: seq<string>, before: nat)
    requires Kept(c, f, p, before)
    ensures Kept(c, f, StepTerms(c, f, p, terms), before)
  {
    if terms != [] {
      var front := terms[..|terms| - 1];
      TermsKeep(c, f, p, front, before);
      StepKeeps(c, f, StepTerms(c, f, p, front), terms[|terms| - 1], before);
    }
  }

  /**
   One call: the invariant is kept, an owner is expanded only when it is new, every query costs half a lookup at
   least, and a name that is reported as a loop is not queued.
   */
  lemma ExpandKeeps(c: Setup, s: SpfState, rawOwner: string, record: string)
    requires Safe(c, s)
    ensures var (after, delta) := Expand(c, s, rawOwner, record);
            && Safe(c, after)
            && s.lookups <= after.lookups
            && after.expanded == s.expanded + (if Expands(c, s, rawOwner).Some? then {Expands(c, s, rawOwner).value} else {})
            && Honest(c, after.expanded, after.pending, delta.queries)
            && delta.loops <= after.expanded
            && |delta.queries| <= 2 * (after.lookups - s.lookups)
            && DistinctKeys(delta.queries)
            && (Expands(c, s, rawOwner).None? ==> delta.queries == [] && after.lookups == s.lookups)
  {
    var expands := Expands(c, s, rawOwner);
    if expands.Some? {
      ReadKeeps(c, s, expands.value, c.unquote(record));
    }
  }

  lemma ReadKeeps(c: Setup, s: SpfState, owner: string, text: string)
    requires Safe(c, s) && owner !in s.expanded && DepthOf(s, owner) <= c.maxDepth
    ensures var (after, delta) := ReadTerms(c, s, owner, text);
            && Safe(c, after)
            && s.lookups <= after.lookups
            && after.expanded == s.expanded + {owner}
            && Honest(c, after.expanded, after.pending, delta.queries)
            && delta.loops <= after.expanded
            && |delta.queries| <= 2 * (after.lookups - s.lookups)
            && DistinctKeys(delta.queries)
  {
    var words := Words(text);
    var f := Frame(owner, DepthOf(s, owner), s.expanded + {owner});
    var first := Progress(s.lookups, s.pending - {owner}, Nothing(), false);
    if words != [] {
      TermsKeep(c, f, first, words[1..], s.lookups);
      DeduplicateKeepsKeys(StepTerms(c, f, first, words[1..]).delta.queries);
    }
  }

  // ----- where depths come from -----

  /** Each pending depth was there before, or is one more than the depth of the owner that is being expanded. */
  ghost predicate Explained(f: Frame, start: map<string, nat>, p: Progress) {
    forall o :: o in p.pending ==>
      || (o in start && p.pending[o] == start[o])
      || (p.pending[o] == f.depth + 1 && Query(o, TXT, Spf) in p.delta.queries)
  }

  /** A step extends the queries, and sets at most the depth of a name it asks for. */
  lemma StepExplains(c: Setup, f: Frame, start: map<string, nat>, p: Progress, raw: string, request: Option<Request>)
    requires Explained(f, start, p)
    ensures Explained(f, start, StepRequest(c, f, p, raw, request))
  {
  }

  lemma {:induction false} TermsExplain(c: Setup, f: Frame, start: map<string, nat>, p: Progress, terms: seq<string>)
    requires Explained(f, start, p)
    ensures Explained(f, start, StepTerms(c, f, p, terms))
  {
    if terms != [] {
      var front, last := terms[..|terms| - 1], terms[|terms| - 1];
      TermsExplain(c, f, start, p, front);
      StepExplains(c, f, start, StepTerms(c, f, p, front), last, ReadTerm(c, f.owner, last));
    }
  }

  ghost predicate AllForSpf(queries: seq<Query>) {
    forall q :: q in queries ==> q.purpose == Spf
  }

  lemma StepAsksForSpf(c: Setup, f: Frame, p: Progress, raw: string, request: Option<Request>)
    requires AllForSpf(p.delta.queries)
    ensures AllForSpf(StepRequest(c, f, p, raw, request).delta.queries)
  {
  }

  lemma {:induction false} TermsAskForSpf(c: Setup, f: Frame, p: Progress, terms: seq<string>)
    requires AllForSpf(p.delta.queries)
    ensures AllForSpf(StepTerms(c, f, p, terms).delta.queries)
  {
    if terms != [] {
      var front, last := terms[..|terms| - 1], terms[|terms| - 1];
      TermsAskForSpf(c, f, p, front);
      StepAsksForSpf(c, f, StepTerms(c, f, p, front), last, ReadTerm(c, f.owner, last));
    }
  }

  lemma KeptKey(queries: seq<Query>, q: Query)
    requires q in queries && AllForSpf(queries) && q.purpose == Spf
    ensures q in Deduplicate(queries)
  {
    DeduplicateKeepsKeys(queries);
    assert Key(q) in Keys(Deduplicate(queries));
    var kept :| kept in Deduplicate(queries) && Key(kept) == Key(q);
    assert kept == q;
  }

  /** The same for one call. */
  lemma CallExplains(c: Setup, s: SpfState, rawOwner: string, record: string, o: string)
    requires Safe(c, s) && o in Expand(c, s, rawOwner, record).0.pending
    ensures var (after, delta) := Expand(c, s, rawOwner, record);
            || (o in s.pending && after.pending[o] == s.pending[o])
            || (Expands(c, s, rawOwner).Some? && after.pending[o] == DepthOf(s, Expands(c, s, rawOwner).value) + 1
                && Query(o, TXT, Spf) in delta.queries)
  {
    var expands := Expands(c, s, rawOwner);
    var words := Words(c.unquote(record));
    if expands.Some? && words != [] {
      var f := Frame(expands.value, DepthOf(s, expands.value), s.expanded + {expands.value});
      var first := Progress(s.lookups, s.pending - {expands.value}, Nothing(), false);
      TermsExplain(c, f, s.pending, first, words[1..]);
      TermsAskForSpf(c, f, first, words[1..]);
      var queries := StepTerms(c, f, first, words[1..]).delta.queries;
      if Query(o, TXT, Spf) in queries {
        KeptKey(queries, Query(o, TXT, Spf));
      }
    }
  }

  // ----- whole runs -----

  /** How a planner answers: its state, an owner and a record give the next state and what to do. */
  type Call = (SpfState, string, string) -> (SpfState, Delta)

  /** call is Expand. */
  ghost predicate IsPlanner(c: Setup, call: Call) {
    Sanitized(c) && forall s, owner, record {:trigger Expand(c, s, owner, record)} :: call(s, owner, record) == Expand(c, s, owner, record)
  }

  /** The planner after a sequence of owners and records. */
  function After(call: Call, inputs: seq<(string, string)>): SpfState {
    if inputs == [] then FreshSpf()
    else
      var last := inputs[|inputs| - 1];
      call(After(call, inputs[..|inputs| - 1]), last.0, last.1).0
  }

  function StateAt(call: Call, inputs: seq<(string, string)>, i: nat): SpfState
    requires i <= |inputs|
  {
    After(call, inputs[..i])
  }

  /** What call i of a run returns. */
  function DeltaAt(call: Call, inputs: seq<(string, string)>, i: nat): Delta
    requires i < |inputs|
  {
    call(StateAt(call, inputs, i), inputs[i].0, inputs[i].1).1
  }

  /** Call i expands this owner. */
  predicate ExpandsAt(call: Call, inputs: seq<(string, string)>, i: nat, owner: string)
    requires i < |inputs|
  {
    owner in StateAt(call, inputs, i + 1).expanded && owner !in StateAt(call, inputs, i).expanded
  }

  function TotalQueries(call: Call, inputs: seq<(string, string)>, n: nat): nat
    requires n <= |inputs|
  {
    if n == 0 then 0 else TotalQueries(call, inputs, n - 1) + |DeltaAt(call, inputs, n - 1).queries|
  }

  /** A depth that was not pending before is one more than that of the owner being expanded. */
  ghost predicate FromParent(s: SpfState, after: SpfState, delta: Delta, o: string, parent: string)
    requires o in after.pending
  {
    && parent in after.expanded && parent !in s.expanded
    && after.pending[o] == DepthOf(s, parent) + 1 && Query(o, TXT, Spf) in delta.queries
  }

  /** What every call does. */
  ghost predicate Transition(c: Setup, s: SpfState, after: SpfState, delta: Delta) {
    && Safe(c, s) && Safe(c, after)
    && s.lookups <= after.lookups
    && s.expanded <= after.expanded
    && (forall o, p :: o in after.expanded && p in after.expanded && o !in s.expanded && p !in s.expanded ==> o == p)
    && Honest(c, after.expanded, after.pending, delta.queries)
    && delta.loops <= after.expanded
    && |delta.queries| <= 2 * (after.lookups - s.lookups)
    && DistinctKeys(delta.queries)
    && (forall o :: o in after.pending ==>
         (o in s.pending && after.pending[o] == s.pending[o]) || exists parent :: FromParent(s, after, delta, o, parent))
  }

  lemma ExpandIsTransition(c: Setup, s: SpfState, owner: string, record: string)
    requires Safe(c, s)
    ensures var (after, delta) := Expand(c, s, owner, record); Transition(c, s, after, delta)
  {
    var (after, delta) := Expand(c, s, owner, record);
    ExpandKeeps(c, s, owner, record);
    forall o | o in after.pending
      ensures (o in s.pending && after.pending[o] == s.pending[o]) || exists parent :: FromParent(s, after, delta, o, parent)
    {
      CallExplains(c, s, owner, record, o);
      if !(o in s.pending && after.pending[o] == s.pending[o]) {
        assert FromParent(s, after, delta, o, Expands(c, s, owner).value);
      }
    }
  }

  lemma CallIsTransition(c: Setup, call: Call, s: SpfState, owner: string, record: string)
    requires IsPlanner(c, call) && Safe(c, s)
    ensures Transition(c, s, call(s, owner, record).0, call(s, owner, record).1)
  {
    ExpandIsTransition(c, s, owner, record);
    assert call(s, owner, record) == Expand(c, s, owner, record);
  }

  lemma NextState(call: Call, inputs: seq<(string, string)>, i: nat)
    requires i < |inputs|
    ensures StateAt(call, inputs, i + 1) == call(StateAt(call, inputs, i), inputs[i].0, inputs[i].1).0
  {
    assert inputs[..i + 1][..i] == inputs[..i];
  }

  /** Every call of every run keeps the invariant. */
  lemma {:induction false} RunIsSafe(c: Setup, call: Call, inputs: seq<(string, string)>, i: nat)
    requires IsPlanner(c, call) && i <= |inputs|
    ensures Safe(c, StateAt(call, inputs, i))
    decreases i, 0
  {
    if i > 0 {
      RunTransition(c, call, inputs, i - 1);
    }
  }

  lemma {:induction false} RunTransition(c: Setup, call: Call, inputs: seq<(string, string)>, i: nat)
    requires IsPlanner(c, call) && i < |inputs|
    ensures Transition(c, StateAt(call, inputs, i), StateAt(call, inputs, i + 1), DeltaAt(call, inputs, i))
    decreases i, 1
  {
    RunIsSafe(c, call, inputs, i);
    NextState(call, inputs, i);
    CallIsTransition(c, call, StateAt(call, inputs, i), inputs[i].0, inputs[i].1);
  }

  /** The over-depth return of expand cannot be taken. */
  lemma OverDepthIsUnreachable(c: Setup, call: Call, inputs: seq<(string, string)>, i: nat, owner: string)
    requires IsPlanner(c, call) && i <= |inputs|
    ensures DepthOf(StateAt(call, inputs, i), owner) <= c.maxDepth
  {
    RunIsSafe(c, call, inputs, i);
  }

  /** The lookup budget over a whole run: at most ten lookups, and at most two queries for each. */
  lemma {:induction false} LookupsStayInBudget(c: Setup, call: Call, inputs: seq<(string, string)>, n: nat)
    requires IsPlanner(c, call) && n <= |inputs|
    ensures StateAt(call, inputs, n).lookups <= Min(c.maxLookups, SPF_DNS_LOOKUP_LIMIT)
    ensures TotalQueries(call, inputs, n) <= 2 * StateAt(call, inputs, n).lookups <= 20
  {
    RunIsSafe(c, call, inputs, n);
    if n > 0 {
      LookupsStayInBudget(c, call, inputs, n - 1);
      RunTransition(c, call, inputs, n - 1);
    }
  }

  /** Expanded owners stay expanded. */
  lemma {:induction false} ExpandedForEver(c: Setup, call: Call, inputs: seq<(string, string)>, i: nat, j: nat)
    requires IsPlanner(c, call) && i <= j <= |inputs|
    ensures StateAt(call, inputs, i).expanded <= StateAt(call, inputs, j).expanded
  {
    if i < j {
      ExpandedForEver(c, call, inputs, i, j - 1);
      RunTransition(c, call, inputs, j - 1);
    }
  }

  /** No owner is expanded twice, and no call expands two owners. */
  lemma EachOwnerExpandsOnce(c: Setup, call: Call, inputs: seq<(string, string)>, i: nat, j: nat, owner: string, other: string)
    requires IsPlanner(c, call) && i <= j < |inputs| && ExpandsAt(call, inputs, i, owner) && ExpandsAt(call, inputs, j, other)
    ensures i < j ==> owner != other
    ensures i == j ==> owner == other
  {
    if i < j {
      ExpandedForEver(c, call, inputs, i + 1, j);
    } else {
      RunTransition(c, call, inputs, i);
    }
  }

  /** A name reported as a loop has been expanded, and its record is not asked for then or later. */
  lemma LoopsAreNeverQueued(c: Setup, call: Call, inputs: seq<(string, string)>, i: nat, j: nat, looped: string, purpose: Purpose)
    requires IsPlanner(c, call) && i <= j < |inputs| && looped in DeltaAt(call, inputs, i).loops
    ensures looped in StateAt(call, inputs, i + 1).expanded
    ensures Query(looped, TXT, purpose) !in DeltaAt(call, inputs, j).queries
  {
    RunTransition(c, call, inputs, i);
    RunTransition(c, call, inputs, j);
    ExpandedForEver(c, call, inputs, i + 1, j + 1);
  }

  // ----- depths are chains of includes -----

  /** Call i expands an owner and asks for the record of child, which is then expanded by call j. */
  ghost predicate Leads(call: Call, inputs: seq<(string, string)>, i: nat, j: nat, child: string) {
    i < j < |inputs| && ExpandsAt(call, inputs, j, child) && Query(child, TXT, Spf) in DeltaAt(call, inputs, i).queries
  }

  /** Every pending depth stems from a call that expanded an owner one level above and asked for this record. */
  lemma {:induction false} PendingHasAParent(c: Setup, call: Call, inputs: seq<(string, string)>, n: nat, o: string)
    returns (i: nat, parent: string)
    requires IsPlanner(c, call) && n <= |inputs| && o in StateAt(call, inputs, n).pending
    ensures i < n && ExpandsAt(call, inputs, i, parent) && Query(o, TXT, Spf) in DeltaAt(call, inputs, i).queries
    ensures StateAt(call, inputs, n).pending[o] == DepthOf(StateAt(call, inputs, i), parent) + 1
  {
    assert n > 0;
    RunTransition(c, call, inputs, n - 1);
    var s, after := StateAt(call, inputs, n - 1), StateAt(call, inputs, n);
    if o in s.pending && after.pending[o] == s.pending[o] {
      i, parent := PendingHasAParent(c, call, inputs, n - 1, o);
    } else {
      i := n - 1;
      parent :| FromParent(s, after, DeltaAt(call, inputs, n - 1), o, parent);
    }
  }

  /** Expansions, each of which asked for the record that the next one reads. */
  ghost predicate Chain(call: Call, inputs: seq<(string, string)>, chain: seq<(nat, string)>) {
    && (forall k :: 0 <= k < |chain| ==> chain[k].0 < |inputs| && ExpandsAt(call, inputs, chain[k].0, chain[k].1))
    && (forall k :: 0 <= k < |chain| - 1 ==> Leads(call, inputs, chain[k].0, chain[k + 1].0, chain[k + 1].1))
  }

  lemma LongerChain(call: Call, inputs: seq<(string, string)>, chain: seq<(nat, string)>, j: nat, child: string)
    requires chain != [] && Chain(call, inputs, chain) && Leads(call, inputs, chain[|chain| - 1].0, j, child)
    ensures Chain(call, inputs, chain + [(j, child)])
  {
    var longer := chain + [(j, child)];
    forall k | 0 <= k < |longer| - 1 ensures Leads(call, inputs, longer[k].0, longer[k + 1].0, longer[k + 1].1) {
      assert k < |chain| - 1 || longer[k] == chain[|chain| - 1];
    }
  }

  /**
   The depth at which an owner is expanded is the length of a chain of earlier expansions, each of which asked for
   the record of the next; so no chain of includes and redirects is longer than the depth limit.
   */
  lemma {:induction false} DepthIsAChain(c: Setup, call: Call, inputs: seq<(string, string)>, j: nat, owner: string)
    returns (chain: seq<(nat, string)>)
    requires IsPlanner(c, call) && j < |inputs| && ExpandsAt(call, inputs, j, owner)
    ensures |chain| == DepthOf(StateAt(call, inputs, j), owner) + 1 <= c.maxDepth + 1
    ensures Chain(call, inputs, chain) && chain[|chain| - 1] == (j, owner)
    decreases j
  {
    OverDepthIsUnreachable(c, call, inputs, j, owner);
    RunIsSafe(c, call, inputs, j);
    if owner in StateAt(call, inputs, j).pending {
      var i, parent := PendingHasAParent(c, call, inputs, j, owner);
      var above := DepthIsAChain(c, call, inputs, i, parent);
      LongerChain(call, inputs, above, j, owner);
      chain := above + [(j, owner)];
    } else {
      chain := [(j, owner)];
    }
  }
}
