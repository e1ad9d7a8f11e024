/**
 Round-robin selection of Certificate Transparency logs (src/ct_monitor.rs, select_logs): logs without a state
 first, then the least recently updated ones.
 */
module LogSelection {
  import opened Orders
  import opened Ranking

  /** When the state of each log was last updated; logs never indexed are absent. */
  type States = map<string, int>

  predicate Earlier(states: States, a: string, b: string) {
    if (a in states) != (b in states) then a !in states
    else if a in states && states[a] != states[b] then states[a] < states[b]
    else CompareStrings(a, b) == Less
  }

  function ByAge(states: States): (string, string) -> bool {
    (a, b) => Earlier(states, a, b)
  }

  lemma AgeIsStrict(states: States)
    ensures StrictOrder(ByAge(states))
  {
    StringsTotal();
    var before := ByAge(states);
    forall x, y ensures (before(x, y) ==> !before(y, x)) && (before(x, y) || before(y, x) || x == y) {
      assert CompareStrings(x, y) == CompareStrings(y, x).Reverse();
      assert CompareStrings(x, y) == Equal <==> x == y;
    }
    forall x, y, z | before(x, y) && before(y, z) ensures before(x, z) {
      assert CompareStrings(x, y) == Less && CompareStrings(y, z) == Less ==> CompareStrings(x, z) == Less;
    }
  }

  /** logs lists a set without repetition, as iterating a BTreeSet does. */
  method SelectLogs(logs: seq<string>, states: States, maxLogs: nat) returns (selected: seq<string>)
    requires forall i, j :: 0 <= i < j < |logs| ==> logs[i] != logs[j]
    ensures Best(ByAge(states), Elements(logs), maxLogs, selected)
  {
    ghost var before := ByAge(states);
    AgeIsStrict(states);
    var sorted := Sort((a, b) => Earlier(states, a, b), logs);
    assert before == ((a, b) => Earlier(states, a, b));
    SortSorts(before, logs);
    selected := sorted[..if maxLogs <= |sorted| then maxLogs else |sorted|];
    forall x ensures x in sorted <==> x in logs { SameElements(before, logs, x); }
    assert Elements(sorted) == Elements(logs);
    forall i, j | 0 <= i < j < |sorted| ensures before(sorted[i], sorted[j]) {
      NoRepetition(before, logs, i, j);
    }
    TakeIsBest(before, Elements(logs), sorted, maxLogs);
    assert selected == Take(sorted, maxLogs);
  }

  /** What is selected was never indexed, or longer ago than what is left out; ties go by name. */
  lemma SelectedAreTheStalest(states: States, logs: set<string>, maxLogs: nat, selected: seq<string>, x: string, y: string)
    requires Best(ByAge(states), logs, maxLogs, selected) && x in selected && y in logs && y !in selected
    ensures |selected| == maxLogs
    ensures x !in states || (y in states && states[x] <= states[y])
    ensures (x !in states && y !in states) || (x in states && y in states && states[x] == states[y]) ==> CompareStrings(x, y) == Less
  {
    var before := ByAge(states);
    assert before(x, y);
    if |selected| < maxLogs {
      AgeIsStrict(states);
      AscendingCardinality(before, selected);
      SubsetSameSize(Elements(selected), logs);
    }
  }

  /** Sorting a listing without repetition gives one. */
  lemma NoRepetition(before: (string, string) -> bool, logs: seq<string>, i: nat, j: nat)
    requires WeakOrder(before) && i < j < |Sort(before, logs)|
    requires forall i, j :: 0 <= i < j < |logs| ==> logs[i] != logs[j]
    ensures Sort(before, logs)[i] != Sort(before, logs)[j]
  {
    var sorted := Sort(before, logs);
    SortSorts(before, logs);
    AtMostOnce(logs, sorted[i]);
    OnceEach(sorted, i, j);
  }

  lemma OnceEach(s: seq<string>, i: nat, j: nat)
    requires i < j < |s| && multiset(s)[s[i]] <= 1
    ensures s[i] != s[j]
  {
    var x := s[i];
    assert s == s[..j] + [s[j]] + s[j + 1..];
    assert s[..j][i] == x;
    assert multiset(s[..j])[x] >= 1;
    assert multiset(s)[x] == multiset(s[..j])[x] + multiset([s[j]])[x] + multiset(s[j + 1..])[x];
  }

  lemma {:induction false} AtMostOnce(s: seq<string>, x: string)
    requires forall i, j :: 0 <= i < j < |s| ==> s[i] != s[j]
    ensures multiset(s)[x] <= 1
  {
    if s != [] {
      AtMostOnce(s[1..], x);
      assert s == [s[0]] + s[1..];
      if s[0] == x { assert x !in multiset(s[1..]); }
    }
  }

  // ----- fairness -----

  datatype Pass = Pass(states: States, selected: seq<string>)

  predicate Untouched(states: States, next: States, log: string) {
    if log in states then log in next && next[log] == states[log] else log !in next
  }

  /** The log was indexed at a time later than every recorded one. */
  ghost predicate Refreshed(states: States, next: States, log: string) {
    log in next && forall other :: other in states ==> states[other] < next[log]
  }

  /** What a pass does to the states when the logs in failing may fail to be indexed. */
  ghost predicate Step(pass: Pass, next: States, failing: set<string>) {
    forall log {:trigger log in pass.selected} ::
      if log in pass.selected then Refreshed(pass.states, next, log) || (log in failing && Untouched(pass.states, next, log))
      else Untouched(pass.states, next, log)
  }

  /** Successive passes over the same list of logs. */
  ghost predicate Run(logs: set<string>, maxLogs: nat, failing: set<string>, run: seq<Pass>) {
    && (forall j {:trigger run[j].selected} :: 0 <= j < |run| ==> Best(ByAge(run[j].states), logs, maxLogs, run[j].selected))
    && (forall j {:trigger Follows(run, j, failing)} :: 0 <= j < |run| - 1 ==> Follows(run, j, failing))
  }

  ghost predicate Follows(run: seq<Pass>, j: nat, failing: set<string>)
    requires j + 1 < |run|
  {
    Step(run[j], run[j + 1].states, failing)
  }

  /** The reliable logs that stand between x and its turn. */
  ghost function Ahead(logs: set<string>, failing: set<string>, states: States, x: string): set<string> {
    set y | y in logs && y !in failing && Earlier(states, y, x)
  }

  /** A pass that leaves x out selects at least maxLogs - |failing| reliable logs that were ahead of it. */
  lemma SelectedWereAhead(logs: set<string>, maxLogs: nat, failing: set<string>, pass: Pass, x: string)
    requires Best(ByAge(pass.states), logs, maxLogs, pass.selected) && x in logs && x !in pass.selected
    ensures Elements(pass.selected) - failing <= Ahead(logs, failing, pass.states, x)
    ensures |Elements(pass.selected) - failing| >= maxLogs - |failing|
  {
    var before, chosen := ByAge(pass.states), Elements(pass.selected);
    AgeIsStrict(pass.states);
    AscendingCardinality(before, pass.selected);
    SubsetSize(chosen, logs - {x});
    SubsetSize(chosen * failing, failing);
    assert |chosen| == |chosen - failing| + |chosen * failing| by {
      assert chosen == (chosen - failing) + (chosen * failing);
    }
    forall y | y in chosen - failing ensures y in Ahead(logs, failing, pass.states, x) {
      assert before(y, x);
    }
  }

  /** After such a pass, the selected reliable logs stand behind x and nothing has overtaken it. */
  lemma SelectedFallBehind(logs: set<string>, maxLogs: nat, failing: set<string>, pass: Pass, next: States, x: string)
    requires Best(ByAge(pass.states), logs, maxLogs, pass.selected) && x in logs && x !in pass.selected
    requires Step(pass, next, failing)
    ensures Ahead(logs, failing, next, x) <= Ahead(logs, failing, pass.states, x) - Elements(pass.selected)
  {
    assert Untouched(pass.states, next, x);
    forall y | y in pass.selected && y !in failing ensures !Earlier(next, y, x) {
      assert Refreshed(pass.states, next, y);
    }
    forall y | y in Ahead(logs, failing, next, x)
      ensures y in Ahead(logs, failing, pass.states, x) && y !in pass.selected
    {
      assert y !in pass.selected ==> Untouched(pass.states, next, y);
    }
  }

  lemma OnePass(logs: set<string>, maxLogs: nat, failing: set<string>, pass: Pass, next: States, x: string)
    requires Best(ByAge(pass.states), logs, maxLogs, pass.selected) && x in logs && x !in pass.selected
    requires Step(pass, next, failing)
    ensures |Ahead(logs, failing, next, x)| + (maxLogs - |failing|) <= |Ahead(logs, failing, pass.states, x)|
  {
    var was, chosen := Ahead(logs, failing, pass.states, x), Elements(pass.selected) - failing;
    SelectedWereAhead(logs, maxLogs, failing, pass, x);
    SelectedFallBehind(logs, maxLogs, failing, pass, next, x);
    SubsetSize(Ahead(logs, failing, next, x), was - chosen);
  }

  lemma {:induction false} LeftOutSoFar(logs: set<string>, maxLogs: nat, failing: set<string>, run: seq<Pass>, x: string, n: nat)
    requires Run(logs, maxLogs, failing, run) && x in logs && n < |run|
    requires forall j :: 0 <= j < n ==> x !in run[j].selected
    ensures |Ahead(logs, failing, run[n].states, x)| + n * (maxLogs - |failing|) <= |logs| - 1
  {
    if n == 0 {
      AgeIsStrict(run[0].states);
      assert !ByAge(run[0].states)(x, x);
      SubsetSize(Ahead(logs, failing, run[0].states, x), logs - {x});
    } else {
      LeftOutSoFar(logs, maxLogs, failing, run, x, n - 1);
      assert Follows(run, n - 1, failing);
      OnePass(logs, maxLogs, failing, run[n - 1], run[n].states, x);
      OneMore(n, maxLogs - |failing|);
    }
  }

  lemma LeftOutBound(logs: set<string>, maxLogs: nat, failing: set<string>, run: seq<Pass>, x: string)
    requires Run(logs, maxLogs, failing, run) && x in logs
    requires forall j :: 0 <= j < |run| ==> x !in run[j].selected
    ensures |run| * (maxLogs - |failing|) < |logs|
  {
    if run != [] {
      var n := |run| - 1;
      LeftOutSoFar(logs, maxLogs, failing, run, x, n);
      SelectedWereAhead(logs, maxLogs, failing, run[n], x);
      SubsetSize(Elements(run[n].selected) - failing, Ahead(logs, failing, run[n].states, x));
      OneMore(|run|, maxLogs - |failing|);
    }
  }

  lemma OneMore(n: nat, step: int)
    requires n > 0
    ensures n * step == (n - 1) * step + step
  {
  }

  /**
   No starvation: when fewer than maxLogs logs may fail, every log is selected in any window of passes that is long
   enough. With no failing log the window is the number of logs over maxLogs, rounded up.
   */
  lemma EveryLogGetsItsTurn(logs: set<string>, maxLogs: nat, failing: set<string>, run: seq<Pass>, x: string)
    requires Run(logs, maxLogs, failing, run) && x in logs
    requires |failing| < maxLogs && |run| * (maxLogs - |failing|) >= |logs|
    ensures exists j :: 0 <= j < |run| && x in run[j].selected
  {
    if !(exists j :: 0 <= j < |run| && x in run[j].selected) {
      LeftOutBound(logs, maxLogs, failing, run, x);
    }
  }

  /** A run in which no state ever changes. */
  function Stuck(states: States, selected: seq<string>, n: nat): (r: seq<Pass>) {
    seq(n, _ => Pass(states, selected))
  }

  /** Failing logs that come before all others fill the selection. */
  lemma FailingFillTheSelection(before: (string, string) -> bool, logs: set<string>, maxLogs: nat, failing: set<string>, selected: seq<string>)
    requires StrictOrder(before) && Best(before, logs, maxLogs, selected)
    requires failing <= logs && |failing| >= maxLogs
    requires forall y, z :: y in failing && z in logs - failing ==> before(y, z)
    ensures Elements(selected) <= failing
  {
    var chosen := Elements(selected);
    AscendingCardinality(before, selected);
    assert chosen == (chosen - failing) + chosen * failing;
    if chosen - failing != {} {
      var x :| x in chosen - failing;
      forall y | y in failing ensures y in chosen {
        assert before(y, x) && !before(x, y);
      }
      SubsetSize(failing + {x}, chosen);
    }
  }

  /**
   The bound on failures is exact: maxLogs logs that were never indexed and keep failing hold every slot for ever,
   and no other log is ever selected.
   */
  lemma FailingLogsCanStarveTheRest(logs: set<string>, maxLogs: nat, failing: set<string>, n: nat) returns (run: seq<Pass>)
    requires failing <= logs && |failing| >= maxLogs
    ensures |run| == n && Run(logs, maxLogs, failing, run)
    ensures forall j :: 0 <= j < n ==> Elements(run[j].selected) <= failing
  {
    var states: States := map log | log in logs - failing :: 0;
    var before := ByAge(states);
    AgeIsStrict(states);
    var all := Listing(before, logs);
    var selected := Take(all, maxLogs);
    TakeIsBest(before, logs, all, maxLogs);
    FailingFillTheSelection(before, logs, maxLogs, failing, selected);
    run := Stuck(states, selected, n);
  }

  lemma {:induction false} Listing(before: (string, string) -> bool, s: set<string>) returns (r: seq<string>)
    requires StrictOrder(before)
    ensures Ascending(before, r) && Elements(r) == s
  {
    if s == {} {
      r := [];
    } else {
      var first := FirstExists(before, s);
      var rest := Listing(before, s - {first});
      r := [first] + rest;
      assert Elements(r) == {first} + Elements(rest);
      forall i | 0 <= i < |rest| ensures rest[i] in s - {first} { assert rest[i] in Elements(rest); }
    }
  }
}
