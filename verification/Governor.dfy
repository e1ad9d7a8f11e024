/**
 The adaptive rate governor (src/network_governor.rs). How a window is judged from its latencies, and the two floating
 point factors, come from outside; only what survives rounding is claimed of the factors.
 */
module Governor {
  import opened Basics

  const U64_MAX: nat := 0xffff_ffff_ffff_ffff

  datatype Control = Adaptive | Fixed

  datatype Counters = Counters(requests: nat, failures: nat, totalMs: nat)

  function Zero(): Counters { Counters(0, 0, 0) }

  function Plus(a: Counters, b: Counters): Counters {
    Counters(a.requests + b.requests, a.failures + b.failures, a.totalMs + b.totalMs)
  }

  function SaturatingPlus(a: Counters, b: Counters): Counters {
    Counters(Min(a.requests + b.requests, U64_MAX), Min(a.failures + b.failures, U64_MAX), Min(a.totalMs + b.totalMs, U64_MAX))
  }

  function SaturatingMinus(a: Counters, b: Counters): Counters {
    Counters(Monus(a.requests, b.requests), Monus(a.failures, b.failures), Monus(a.totalMs, b.totalMs))
  }

  datatype Verdict = Degraded | Neutral | Healthy

  /** cut is the rate times 0.70, rounded down; raise the rate times 1.10, rounded up. */
  datatype Setup = Setup(mode: Control, maxRate: nat, maxConcurrency: nat, cut: nat -> nat, raise: nat -> nat)

  function Clamp(x: nat, low: nat, high: nat): nat
    requires low <= high
  {
    Max(low, Min(x, high))
  }

  /** The limits that the governor moves, and what it remembers of them. */
  datatype Limits = Limits(
    rate: nat, concurrency: nat, healthyWindows: nat, backoffs: nat, minimumRate: nat, maximumRate: nat, degraded: bool)

  function Initial(c: Setup): Limits {
    var rate := if c.mode.Fixed? then c.maxRate else if c.maxRate == 0 then 0 else Clamp(c.maxRate, 1, 50);
    var concurrency := if c.mode.Fixed? then c.maxConcurrency else Clamp(c.maxConcurrency, 1, 32);
    Limits(rate, concurrency, 0, 0, rate, rate, false)
  }

  function Slower(c: Setup, rate: nat): nat {
    if rate == 0 then 0 else Min(Max(c.cut(rate), Clamp(c.maxRate, 1, 10)), c.maxRate)
  }

  function Faster(c: Setup, rate: nat): nat {
    if rate == 0 then 0 else Min(Max(c.raise(rate), Min(rate + 1, U64_MAX)), c.maxRate)
  }

  function Narrower(c: Setup, concurrency: nat): nat {
    Max(Max(concurrency, 1) / 2, Clamp(c.maxConcurrency, 1, 8))
  }

  function Wider(c: Setup, concurrency: nat): nat {
    Min(Min(Max(concurrency, 1) + 8, U64_MAX), c.maxConcurrency)
  }

  function Remember(s: Limits): Limits {
    s.(minimumRate := Min(s.minimumRate, s.rate), maximumRate := Max(s.maximumRate, s.rate))
  }

  /** One window that had requests. */
  function Judge(c: Setup, s: Limits, verdict: Verdict): Limits {
    match verdict
    case Degraded =>
      Remember(s.(rate := Slower(c, s.rate), concurrency := Narrower(c, s.concurrency), healthyWindows := 0,
                  backoffs := Min(s.backoffs + 1, U64_MAX), degraded := true))
    case Neutral => Remember(s.(healthyWindows := 0))
    case Healthy =>
      if s.healthyWindows + 1 < 3 then Remember(s.(healthyWindows := s.healthyWindows + 1))
      else Remember(s.(rate := Faster(c, s.rate), concurrency := Wider(c, s.concurrency), healthyWindows := 0, degraded := false))
  }

  // ----- bounds -----

  predicate MachineSized(c: Setup) {
    c.maxRate <= U64_MAX && 1 <= c.maxConcurrency <= U64_MAX
  }

  /** The configured values are hard ceilings, and the adaptive floors hold as far as the ceilings allow. */
  predicate Bounded(c: Setup, s: Limits) {
    && Min(c.maxRate, 10) <= s.rate <= c.maxRate
    && Min(c.maxConcurrency, 8) <= s.concurrency <= c.maxConcurrency
    && Min(c.maxRate, 10) <= s.minimumRate <= s.rate <= s.maximumRate <= c.maxRate
    && s.healthyWindows < 3
  }

  /** Every window keeps the bounds, whatever the factors do; the rate is zero only when its ceiling is. */
  lemma JudgeKeepsBounds(c: Setup, s: Limits, verdict: Verdict)
    requires MachineSized(c) && Bounded(c, s)
    ensures Bounded(c, Judge(c, s, verdict))
    ensures Judge(c, s, verdict).rate == 0 <==> c.maxRate == 0
    ensures Judge(c, s, verdict).minimumRate <= s.minimumRate && s.maximumRate <= Judge(c, s, verdict).maximumRate
  {
  }

  /** Concurrency is never zero. */
  function AtLeastOne(c: Setup): Setup { c.(maxConcurrency := Max(c.maxConcurrency, 1)) }

  // ----- repeated windows -----

  function Repeat(c: Setup, s: Limits, verdict: Verdict, n: nat): Limits {
    if n == 0 then s else Judge(c, Repeat(c, s, verdict, n - 1), verdict)
  }

  lemma {:induction false} RepeatKeepsBounds(c: Setup, s: Limits, verdict: Verdict, n: nat)
    requires MachineSized(c) && Bounded(c, s)
    ensures Bounded(c, Repeat(c, s, verdict, n))
  {
    if n > 0 {
      RepeatKeepsBounds(c, s, verdict, n - 1);
      JudgeKeepsBounds(c, Repeat(c, s, verdict, n - 1), verdict);
    }
  }

  /** The reduction factor is below one, however it is rounded. */
  ghost predicate CutsDown(c: Setup) {
    forall r: nat {:trigger c.cut(r)} :: r > 0 ==> c.cut(r) < r
  }

  /** The limits have come this far towards their floors. */
  predicate Lowered(c: Setup, s: Limits, after: Limits, n: nat) {
    && after.rate <= Max(Min(c.maxRate, 10), Monus(s.rate, n))
    && after.concurrency <= Max(Min(c.maxConcurrency, 8), Monus(s.concurrency, n))
  }

  lemma OneDegradedWindow(c: Setup, s: Limits, before: Limits, n: nat)
    requires MachineSized(c) && Bounded(c, before) && CutsDown(c) && Lowered(c, s, before, n)
    ensures Lowered(c, s, Judge(c, before, Degraded), n + 1)
  {
    assert before.rate > 0 ==> c.cut(before.rate) < before.rate;
  }

  /** Every degraded window takes at least one unit off the rate above its floor. */
  lemma {:induction false} DegradedWindowsApproachFloor(c: Setup, s: Limits, n: nat)
    requires MachineSized(c) && Bounded(c, s) && CutsDown(c)
    ensures Lowered(c, s, Repeat(c, s, Degraded, n), n)
  {
    if n > 0 {
      DegradedWindowsApproachFloor(c, s, n - 1);
      RepeatKeepsBounds(c, s, Degraded, n - 1);
      OneDegradedWindow(c, s, Repeat(c, s, Degraded, n - 1), n - 1);
    }
  }

  /** Enough degraded windows in a row reach the floors, and stay there. */
  lemma DegradedWindowsReachFloor(c: Setup, s: Limits, n: nat)
    requires MachineSized(c) && Bounded(c, s) && CutsDown(c) && n >= s.rate && n >= s.concurrency
    ensures Repeat(c, s, Degraded, n).rate == Min(c.maxRate, 10)
    ensures Repeat(c, s, Degraded, n).concurrency == Min(c.maxConcurrency, 8)
  {
    DegradedWindowsApproachFloor(c, s, n);
    RepeatKeepsBounds(c, s, Degraded, n);
  }

  /** The limits have come this far towards their ceilings. */
  predicate Raised(c: Setup, s: Limits, after: Limits, n: nat) {
    && after.healthyWindows == s.healthyWindows
    && after.rate >= Min(c.maxRate, s.rate + n) && after.concurrency >= Min(c.maxConcurrency, s.concurrency + 8 * n)
  }

  lemma RaisedFurther(c: Setup, s: Limits, before: Limits, after: Limits, n: nat)
    requires Raised(c, s, before, n) && Raised(c, before, after, 1)
    ensures Raised(c, s, after, n + 1)
  {
  }

  lemma ThreeMoreHealthy(c: Setup, s: Limits, before: Limits, n: nat)
    requires MachineSized(c) && Bounded(c, before) && Raised(c, s, before, n)
    ensures Raised(c, s, Judge(c, Judge(c, Judge(c, before, Healthy), Healthy), Healthy), n + 1)
  {
    ThreeHealthyWindows(c, before);
    RaisedFurther(c, s, before, Judge(c, Judge(c, Judge(c, before, Healthy), Healthy), Healthy), n);
  }

  lemma RaisedByThreeMore(c: Setup, s: Limits, n: nat, m: nat)
    requires MachineSized(c) && Bounded(c, s) && Raised(c, s, Repeat(c, s, Healthy, m), n)
    ensures Raised(c, s, Repeat(c, s, Healthy, m + 3), n + 1)
  {
    RepeatKeepsBounds(c, s, Healthy, m);
    ThreeMoreHealthy(c, s, Repeat(c, s, Healthy, m), n);
    ThreeMore(c, s, Healthy, m);
  }

  lemma {:induction false} RaisedAfter(c: Setup, s: Limits, n: nat, m: nat)
    requires MachineSized(c) && Bounded(c, s) && m == 3 * n
    ensures Raised(c, s, Repeat(c, s, Healthy, m), n)
  {
    if n > 0 {
      RaisedAfter(c, s, n - 1, m - 3);
      RaisedByThreeMore(c, s, n - 1, m - 3);
    }
  }

  /** Three healthy windows raise the rate by at least one unit, and the concurrency by eight, up to the ceilings. */
  lemma HealthyWindowsApproachCeiling(c: Setup, s: Limits, n: nat)
    requires MachineSized(c) && Bounded(c, s)
    ensures Raised(c, s, Repeat(c, s, Healthy, 3 * n), n)
  {
    RaisedAfter(c, s, n, 3 * n);
  }

  lemma ThreeMore(c: Setup, s: Limits, verdict: Verdict, m: nat)
    ensures Repeat(c, s, verdict, m + 3) == Judge(c, Judge(c, Judge(c, Repeat(c, s, verdict, m), verdict), verdict), verdict)
  {
    assert Repeat(c, s, verdict, m + 1) == Judge(c, Repeat(c, s, verdict, m), verdict);
    assert Repeat(c, s, verdict, m + 2) == Judge(c, Repeat(c, s, verdict, m + 1), verdict);
  }

  lemma OneHealthyWindow(c: Setup, s: Limits)
    requires MachineSized(c) && Bounded(c, s)
    ensures var after := Judge(c, s, Healthy);
            && Bounded(c, after) && after.rate >= s.rate && after.concurrency >= s.concurrency
            && after.healthyWindows == (s.healthyWindows + 1) % 3
            && (s.healthyWindows == 2 ==> Raised(c, s.(healthyWindows := 0), after, 1))
  {
  }

  lemma ThreeHealthyWindows(c: Setup, s: Limits)
    requires MachineSized(c) && Bounded(c, s)
    ensures Raised(c, s, Judge(c, Judge(c, Judge(c, s, Healthy), Healthy), Healthy), 1)
  {
    var one := Judge(c, s, Healthy);
    var two := Judge(c, one, Healthy);
    OneHealthyWindow(c, s);
    OneHealthyWindow(c, one);
    OneHealthyWindow(c, two);
  }

  /** Three windows for every unit of rate below the ceiling are enough, and there both limits stay. */
  lemma HealthyWindowsReachCeiling(c: Setup, s: Limits, n: nat)
    requires MachineSized(c) && Bounded(c, s) && s.rate + n >= c.maxRate && s.concurrency + 8 * n >= c.maxConcurrency
    ensures Repeat(c, s, Healthy, 3 * n).rate == c.maxRate && Repeat(c, s, Healthy, 3 * n).concurrency == c.maxConcurrency
  {
    HealthyWindowsApproachCeiling(c, s, n);
    RepeatKeepsBounds(c, s, Healthy, 3 * n);
  }

  // ----- what was observed -----

  /** Everything observed, judged in a window, or thrown away with a window that had no requests. */
  datatype Books = Books(observed: Counters, evaluated: Counters, discarded: Counters, saturated: bool)

  function OpenedBooks(): Books { Books(Zero(), Zero(), Zero(), false) }

  predicate Balanced(b: Books, pending: Counters) {
    && (!b.saturated ==>
         && b.evaluated.requests + pending.requests == b.observed.requests
         && b.evaluated.failures + b.discarded.failures + pending.failures == b.observed.failures
         && b.evaluated.totalMs + b.discarded.totalMs + pending.totalMs == b.observed.totalMs)
    && b.discarded.requests == 0
  }

  function Collected(b: Books, pending: Counters, delta: Counters): Books {
    b.(observed := Plus(b.observed, delta), saturated := b.saturated || Overflows(pending, delta))
  }

  predicate Overflows(a: Counters, b: Counters) {
    a.requests + b.requests > U64_MAX || a.failures + b.failures > U64_MAX || a.totalMs + b.totalMs > U64_MAX
  }

  /** A window ends: with requests it is judged, without any it is thrown away. */
  function Closed(b: Books, pending: Counters): Books {
    if pending.requests > 0 then b.(evaluated := Plus(b.evaluated, pending)) else b.(discarded := Plus(b.discarded, pending))
  }

  // ----- what an observation does -----

  datatype Observation =
    | Delta(delta: Counters, elapsed: bool, judge: Counters -> Verdict)
    | Aggregate(total: Counters, elapsed: bool, judge: Counters -> Verdict)

  datatype Governed = Governed(limits: Limits, pending: Counters, aggregate: Counters, books: Books)

  /** The counters that an observation adds, given the totals of the last aggregate. */
  function Increment(o: Observation, aggregate: Counters): Counters {
    match o case Delta(delta, _, _) => delta case Aggregate(total, _, _) => SaturatingMinus(total, aggregate)
  }

  predicate Ignored(c: Setup, o: Observation) { c.mode.Fixed? || (o.Delta? && o.delta.requests == 0) }

  function Observed(c: Setup, g: Governed, o: Observation): Governed {
    if Ignored(c, o) then g
    else
      var delta := Increment(o, g.aggregate);
      var window := SaturatingPlus(g.pending, delta);
      var collected := Collected(g.books, g.pending, delta);
      Governed(
        if o.elapsed && window.requests > 0 then Judge(c, g.limits, o.judge(window)) else g.limits,
        if o.elapsed then Zero() else window,
        if o.Aggregate? then o.total else g.aggregate,
        if o.elapsed then Closed(collected, window) else collected)
  }

  /** A new governor after some observations. */
  function After(c: Setup, os: seq<Observation>): Governed {
    if os == [] then Governed(Initial(c), Zero(), Zero(), OpenedBooks())
    else Observed(c, After(c, os[..|os| - 1]), os[|os| - 1])
  }

  // ----- the governor -----

  class NetworkGovernor {
    const setup: Setup
    var rate: nat
    var concurrency: nat
    var pending: Counters
    var aggregate: Counters
    var healthyWindows: nat
    var backoffs: nat
    var minimumRateSeen: nat
    var maximumRateSeen: nat
    var degraded: bool
    ghost var books: Books

    function State(): Limits
      reads this
    {
      Limits(rate, concurrency, healthyWindows, backoffs, minimumRateSeen, maximumRateSeen, degraded)
    }

    ghost function Whole(): Governed
      reads this
    {
      Governed(State(), pending, aggregate, books)
    }

    ghost predicate Valid()
      reads this
    {
      && MachineSized(setup) && Bounded(setup, State())
      && (setup.mode.Fixed? ==> rate == setup.maxRate && concurrency == setup.maxConcurrency)
      && Balanced(books, pending)
    }

    constructor (given: Setup)
      requires given.maxRate <= U64_MAX && given.maxConcurrency <= U64_MAX
      ensures var c := AtLeastOne(given); Valid() && setup == c && State() == Initial(c) && books == OpenedBooks() && pending == aggregate == Zero()
    {
      var c := AtLeastOne(given);
      var s := Initial(c);
      setup := c;
      rate, concurrency, healthyWindows, backoffs, degraded := s.rate, s.concurrency, 0, 0, false;
      minimumRateSeen, maximumRateSeen, pending, aggregate, books := s.rate, s.rate, Zero(), Zero(), OpenedBooks();
    }

    /** Deltas from one of several producers. */
    method ObserveDelta(delta: Counters, elapsed: bool, judge: Counters -> Verdict)
      requires Valid()
      modifies this
      ensures Valid() && aggregate == old(aggregate)
      ensures setup.mode.Fixed? || delta.requests == 0 ==>
                State() == old(State()) && pending == old(pending) && books == old(books)
      ensures setup.mode.Adaptive? && delta.requests > 0 ==>
                Evaluated(old(State()), Collected(old(books), old(pending), delta), SaturatingPlus(old(pending), delta), elapsed, judge)
      ensures Whole() == Observed(setup, old(Whole()), Delta(delta, elapsed, judge))
    {
      if setup.mode.Fixed? || delta.requests == 0 {
        return;
      }
      Collect(delta);
      EvaluateElapsedWindow(elapsed, judge);
    }

    /** Cumulative counters from a single producer. */
    method ObserveAggregate(total: Counters, elapsed: bool, judge: Counters -> Verdict)
      requires Valid()
      modifies this
      ensures Valid()
      ensures setup.mode.Fixed? ==>
                State() == old(State()) && pending == old(pending) && aggregate == old(aggregate) && books == old(books)
      ensures setup.mode.Adaptive? ==>
                var delta := SaturatingMinus(total, old(aggregate));
                && aggregate == total
                && Evaluated(old(State()), Collected(old(books), old(pending), delta), SaturatingPlus(old(pending), delta), elapsed, judge)
      ensures Whole() == Observed(setup, old(Whole()), Aggregate(total, elapsed, judge))
    {
      if setup.mode.Fixed? {
        return;
      }
      var delta := SaturatingMinus(total, aggregate);
      aggregate := total;
      Collect(delta);
      EvaluateElapsedWindow(elapsed, judge);
    }

    method Collect(delta: Counters)
      requires Valid()
      modifies this`pending, this`books
      ensures Valid() && pending == SaturatingPlus(old(pending), delta) && books == Collected(old(books), old(pending), delta)
    {
      books := Collected(books, pending, delta);
      pending := SaturatingPlus(pending, delta);
    }

    /** What an observation leaves behind: while the window runs nothing is judged; then nothing pends. */
    ghost predicate Evaluated(before: Limits, collected: Books, window: Counters, elapsed: bool, judge: Counters -> Verdict)
      reads this
    {
      && pending == (if elapsed then Zero() else window)
      && books == (if elapsed then Closed(collected, window) else collected)
      && State() == (if elapsed && window.requests > 0 then Judge(setup, before, judge(window)) else before)
    }

    method EvaluateElapsedWindow(elapsed: bool, judge: Counters -> Verdict)
      requires Valid() && setup.mode.Adaptive?
      modifies this
      ensures Valid() && aggregate == old(aggregate)
      ensures Evaluated(old(State()), old(books), old(pending), elapsed, judge)
    {
      if !elapsed {
        return;
      }
      var window := pending;
      pending, books := Zero(), Closed(books, window);
      if window.requests > 0 {
        JudgeKeepsBounds(setup, State(), judge(window));
        JudgeWindow(judge(window));
      }
    }

    method JudgeWindow(verdict: Verdict)
      modifies this`rate, this`concurrency, this`healthyWindows, this`backoffs, this`degraded, this`minimumRateSeen, this`maximumRateSeen
      ensures State() == Judge(setup, old(State()), verdict)
    {
      match verdict {
        case Degraded =>
          if rate > 0 {
            rate := Min(Max(setup.cut(rate), Clamp(setup.maxRate, 1, 10)), setup.maxRate);
          }
          concurrency := Max(Max(concurrency, 1) / 2, Clamp(setup.maxConcurrency, 1, 8));
          healthyWindows, backoffs, degraded := 0, Min(backoffs + 1, U64_MAX), true;
        case Neutral =>
          healthyWindows := 0;
        case Healthy =>
          healthyWindows := healthyWindows + 1;
          if healthyWindows >= 3 {
            if rate > 0 {
              rate := Min(Max(setup.raise(rate), Min(rate + 1, U64_MAX)), setup.maxRate);
            }
            concurrency := Min(Min(Max(concurrency, 1) + 8, U64_MAX), setup.maxConcurrency);
            healthyWindows, degraded := 0, false;
          }
      }
      minimumRateSeen := Min(minimumRateSeen, rate);
      maximumRateSeen := Max(maximumRateSeen, rate);
    }
  }

  // ----- whole runs -----

  method Observe(g: NetworkGovernor, o: Observation)
    requires g.Valid()
    modifies g
    ensures g.Valid() && g.Whole() == Observed(g.setup, old(g.Whole()), o)
  {
    match o {
      case Delta(delta, elapsed, judge) => g.ObserveDelta(delta, elapsed, judge);
      case Aggregate(total, elapsed, judge) => g.ObserveAggregate(total, elapsed, judge);
    }
  }

  /** Any sequence of observations: the bounds hold, and no request is lost or counted twice unless a counter saturated. */
  method Run(c: Setup, observations: seq<Observation>) returns (g: NetworkGovernor)
    requires c.maxRate <= U64_MAX && c.maxConcurrency <= U64_MAX
    ensures g.setup == AtLeastOne(c) && g.Whole() == After(AtLeastOne(c), observations)
    ensures g.Valid() && (g.rate == 0 <==> c.maxRate == 0)
    ensures g.minimumRateSeen <= g.rate <= g.maximumRateSeen <= c.maxRate
    ensures !g.books.saturated ==> g.books.evaluated.requests + g.pending.requests == g.books.observed.requests
    ensures !g.books.saturated ==>
              g.books.evaluated.failures + g.books.discarded.failures + g.pending.failures == g.books.observed.failures
  {
    g := new NetworkGovernor(c);
    for n := 0 to |observations|
      invariant fresh(g) && g.Valid() && g.setup == AtLeastOne(c)
      invariant g.Whole() == After(g.setup, observations[..n])
    {
      Observe(g, observations[n]);
      assert observations[..n + 1][..n] == observations[..n];
    }
    assert observations[..|observations|] == observations;
  }

  // ----- what was observed, told from the observations alone -----

  /** The totals of the last aggregate observation. */
  function LastTotal(os: seq<Observation>): Counters {
    if os == [] then Zero()
    else if os[|os| - 1].Aggregate? then os[|os| - 1].total
    else LastTotal(os[..|os| - 1])
  }

  /** What observation n adds: nothing if it is ignored, else its delta, or its excess over the totals before it. */
  function Accepted(c: Setup, os: seq<Observation>, n: nat): Counters
    requires n < |os|
  {
    if Ignored(c, os[n]) then Zero() else Increment(os[n], LastTotal(os[..n]))
  }

  function SumAccepted(c: Setup, os: seq<Observation>, n: nat): Counters
    requires n <= |os|
  {
    if n == 0 then Zero() else Plus(SumAccepted(c, os, n - 1), Accepted(c, os, n - 1))
  }

  lemma OneMoreObservation(c: Setup, os: seq<Observation>, n: nat)
    requires n < |os|
    ensures After(c, os[..n + 1]) == Observed(c, After(c, os[..n]), os[n])
    ensures LastTotal(os[..n + 1]) == if os[n].Aggregate? then os[n].total else LastTotal(os[..n])
  {
    assert os[..n + 1][..n] == os[..n];
  }

  lemma ObservedCollects(c: Setup, g: Governed, o: Observation)
    ensures Observed(c, g, o).books.observed == Plus(g.books.observed, if Ignored(c, o) then Zero() else Increment(o, g.aggregate))
    ensures c.mode.Adaptive? ==> Observed(c, g, o).aggregate == if o.Aggregate? then o.total else g.aggregate
  {
  }

  /** The books record exactly the sum of what the observations add. */
  lemma {:induction false} BooksAreTheSum(c: Setup, os: seq<Observation>, n: nat)
    requires n <= |os|
    ensures After(c, os[..n]).books.observed == SumAccepted(c, os, n)
    ensures c.mode.Adaptive? ==> After(c, os[..n]).aggregate == LastTotal(os[..n])
  {
    if n > 0 {
      BooksAreTheSum(c, os, n - 1);
      OneMoreObservation(c, os, n - 1);
      ObservedCollects(c, After(c, os[..n - 1]), os[n - 1]);
    }
  }

  // ----- what is lost -----

  /** The window that the observation closes held failures or latencies but not one request. */
  predicate Loses(c: Setup, g: Governed, o: Observation) {
    var window := SaturatingPlus(g.pending, Increment(o, g.aggregate));
    !Ignored(c, o) && o.elapsed && window.requests == 0 && (window.failures > 0 || window.totalMs > 0)
  }

  predicate LosesAt(c: Setup, os: seq<Observation>, n: nat)
    requires n < |os|
  {
    Loses(c, After(c, os[..n]), os[n])
  }

  lemma ClosedDiscards(b: Books, window: Counters)
    ensures Closed(b, window).discarded == Zero() <==> b.discarded == Zero() && (window.requests > 0 || window == Zero())
  {
  }

  lemma ObservedDiscards(c: Setup, g: Governed, o: Observation)
    ensures Observed(c, g, o).books.discarded == Zero() <==> g.books.discarded == Zero() && !Loses(c, g, o)
  {
    if !Ignored(c, o) && o.elapsed {
      var delta := Increment(o, g.aggregate);
      ClosedDiscards(Collected(g.books, g.pending, delta), SaturatingPlus(g.pending, delta));
    }
  }

  /** Nothing is thrown away iff no window ends with failures or latencies but without a request. */
  lemma {:induction false} NothingIsLostIff(c: Setup, os: seq<Observation>, n: nat)
    requires n <= |os|
    ensures After(c, os[..n]).books.discarded == Zero() <==> forall k :: 0 <= k < n ==> !LosesAt(c, os, k)
  {
    if n > 0 {
      NothingIsLostIff(c, os, n - 1);
      OneMoreObservation(c, os, n - 1);
      ObservedDiscards(c, After(c, os[..n - 1]), os[n - 1]);
      assert LosesAt(c, os, n - 1) <==> Loses(c, After(c, os[..n - 1]), os[n - 1]);
    } else {
      assert os[..n] == [];
    }
  }

  predicate WindowNeverBare(pending: Counters) {
    pending.requests > 0 || pending == Zero()
  }

  /** Every increment that brings failures or latencies brings a request. */
  predicate NeverBare(c: Setup, os: seq<Observation>) {
    forall k :: 0 <= k < |os| ==> WindowNeverBare(Accepted(c, os, k))
  }

  lemma ObservedNeverBare(c: Setup, g: Governed, o: Observation)
    requires WindowNeverBare(g.pending) && (Ignored(c, o) || WindowNeverBare(Increment(o, g.aggregate)))
    ensures WindowNeverBare(Observed(c, g, o).pending) && !Loses(c, g, o)
  {
  }

  lemma {:induction false} PendingNeverBare(c: Setup, os: seq<Observation>, n: nat)
    requires NeverBare(c, os) && n <= |os|
    ensures WindowNeverBare(After(c, os[..n]).pending)
    ensures forall k :: 0 <= k < n ==> !LosesAt(c, os, k)
  {
    if n > 0 {
      PendingNeverBare(c, os, n - 1);
      OneMoreObservation(c, os, n - 1);
      BooksAreTheSum(c, os, n - 1);
      assert WindowNeverBare(Accepted(c, os, n - 1));
      ObservedNeverBare(c, After(c, os[..n - 1]), os[n - 1]);
    }
  }

  /** Then nothing is thrown away; deltas alone are always of that kind, because those without requests are ignored. */
  lemma NothingIsLostWhenNeverBare(c: Setup, os: seq<Observation>)
    requires NeverBare(c, os) || forall k :: 0 <= k < |os| ==> os[k].Delta?
    ensures After(c, os).books.discarded == Zero()
  {
    assert os[..|os|] == os;
    if forall k :: 0 <= k < |os| ==> os[k].Delta? {
      assert NeverBare(c, os);
    }
    PendingNeverBare(c, os, |os|);
    NothingIsLostIff(c, os, |os|);
  }

  /** Cumulative failures that rise while requests do not are thrown away when the window ends. */
  method FailuresWithoutRequestsAreLost(c: Setup, judge: Counters -> Verdict) returns (g: NetworkGovernor)
    requires c.maxRate <= U64_MAX && c.maxConcurrency <= U64_MAX && c.mode.Adaptive?
    ensures g.books == Books(Counters(0, 1, 0), Zero(), Counters(0, 1, 0), false) && g.pending == Zero() && g.State() == Initial(AtLeastOne(c))
  {
    g := new NetworkGovernor(c);
    g.ObserveAggregate(Counters(0, 1, 0), true, judge);
  }
}
