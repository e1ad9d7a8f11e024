/** How far the governor moves its limits, and when (src/network_governor.rs). */
module GovernorSteps {
  import opened Basics
  import opened Governor

  /** Adaptive limits start at 50 and 32, fixed ones where they were configured. */
  lemma StartingLimits(c: Setup)
    requires MachineSized(c)
    ensures var s := Initial(c);
            && s.rate == s.minimumRate == s.maximumRate == (if c.mode.Fixed? then c.maxRate else Min(c.maxRate, 50))
            && s.concurrency == (if c.mode.Fixed? then c.maxConcurrency else Min(c.maxConcurrency, 32))
            && s.healthyWindows == s.backoffs == 0 && !s.degraded
  {
  }

  /** The reduction takes away no more than half, the increase adds no more than a fifth and one, however they are rounded. */
  ghost predicate MildFactors(c: Setup) {
    && (forall r: nat {:trigger c.cut(r)} :: r / 2 <= c.cut(r) <= r)
    && (forall r: nat {:trigger c.raise(r)} :: r <= c.raise(r) <= r + r / 5 + 1)
  }

  /**
   A degraded window never more than halves a limit and never raises one; the third healthy window in a row never lowers
   one and adds at most a fifth of the rate and one, and eight places; any other window leaves both where they are.
   */
  lemma StepsAreMild(c: Setup, s: Limits, verdict: Verdict)
    requires MachineSized(c) && Bounded(c, s) && MildFactors(c)
    ensures var after := Judge(c, s, verdict);
            if verdict.Degraded? then
              s.rate / 2 <= after.rate <= s.rate && s.concurrency / 2 <= after.concurrency <= s.concurrency
            else if verdict.Healthy? && s.healthyWindows == 2 then
              && s.rate <= after.rate <= s.rate + s.rate / 5 + 1
              && s.concurrency <= after.concurrency <= s.concurrency + 8
            else after.rate == s.rate && after.concurrency == s.concurrency
  {
    assert s.rate / 2 <= c.cut(s.rate) <= s.rate <= c.raise(s.rate) <= s.rate + s.rate / 5 + 1;
  }

  /** Away from floors and ceilings the factors alone decide: the rate is multiplied, the concurrency halved or raised by eight. */
  lemma FactorsDecide(c: Setup, s: Limits)
    requires MachineSized(c) && Bounded(c, s)
    ensures Min(c.maxRate, 10) <= c.cut(s.rate) <= c.maxRate && s.rate > 0 ==> Judge(c, s, Degraded).rate == c.cut(s.rate)
    ensures s.concurrency >= 16 ==> Judge(c, s, Degraded).concurrency == s.concurrency / 2
    ensures s.healthyWindows == 2 && s.rate > 0 && s.rate < c.raise(s.rate) <= c.maxRate ==> Judge(c, s, Healthy).rate == c.raise(s.rate)
    ensures s.healthyWindows == 2 && s.concurrency + 8 <= c.maxConcurrency ==> Judge(c, s, Healthy).concurrency == s.concurrency + 8
  {
  }

  /**
   In adaptive mode an observation with any request at all ends its window with one judgment when the window's time is up, and
   with none before; a window without requests leaves the limits alone, and so does everything in fixed mode.
   */
  lemma EveryWindowIsJudgedOnce(c: Setup, g: Governed, o: Observation)
    ensures var delta, after := Increment(o, g.aggregate), Observed(c, g, o);
            if c.mode.Adaptive? && o.elapsed && delta.requests >= 1 then
              after.limits == Judge(c, g.limits, o.judge(SaturatingPlus(g.pending, delta))) && after.pending == Zero()
            else if c.mode.Adaptive? && o.elapsed && o.Aggregate? && g.pending.requests >= 1 then
              after.limits == Judge(c, g.limits, o.judge(SaturatingPlus(g.pending, delta))) && after.pending == Zero()
            else after.limits == g.limits
  {
  }

  // ----- sequences of windows -----

  function JudgeAll(c: Setup, s: Limits, verdicts: seq<Verdict>): Limits {
    if verdicts == [] then s else Judge(c, JudgeAll(c, s, verdicts[..|verdicts| - 1]), verdicts[|verdicts| - 1])
  }

  function DegradedWindows(verdicts: seq<Verdict>): nat {
    if verdicts == [] then 0 else DegradedWindows(verdicts[..|verdicts| - 1]) + if verdicts[|verdicts| - 1].Degraded? then 1 else 0
  }

  /** How many healthy windows stand at the end in a row. */
  function HealthyAtTheEnd(verdicts: seq<Verdict>): nat {
    if verdicts == [] || !verdicts[|verdicts| - 1].Healthy? then 0 else HealthyAtTheEnd(verdicts[..|verdicts| - 1]) + 1
  }

  /** The limits have been degraded since they were last raised. */
  function DegradedSince(verdicts: seq<Verdict>): bool {
    if verdicts == [] then false
    else if verdicts[|verdicts| - 1].Degraded? then true
    else if verdicts[|verdicts| - 1].Healthy? && HealthyAtTheEnd(verdicts) % 3 == 0 then false
    else DegradedSince(verdicts[..|verdicts| - 1])
  }

  lemma JudgeCounts(c: Setup, s: Limits, verdict: Verdict)
    requires s.healthyWindows < 3 && s.backoffs <= U64_MAX
    ensures var after := Judge(c, s, verdict);
            && after.backoffs == Min(s.backoffs + (if verdict.Degraded? then 1 else 0), U64_MAX)
            && after.healthyWindows == (if verdict.Healthy? then (s.healthyWindows + 1) % 3 else 0)
            && after.degraded == (verdict.Degraded? || (s.degraded && !(verdict.Healthy? && s.healthyWindows == 2)))
  {
  }

  lemma NextInThree(n: nat)
    ensures (n % 3 + 1) % 3 == (n + 1) % 3 && ((n + 1) % 3 == 0 <==> n % 3 == 2)
  {
  }

  /**
   Over any windows: every degraded one counts as a backoff, the healthy ones are counted in threes from the last that was
   not, and the governor calls itself degraded from a degraded window until it next raises its limits.
   */
  lemma {:induction false} WindowsAreCounted(c: Setup, verdicts: seq<Verdict>)
    ensures var s := JudgeAll(c, Initial(c), verdicts);
            && s.backoffs == Min(DegradedWindows(verdicts), U64_MAX)
            && s.healthyWindows == HealthyAtTheEnd(verdicts) % 3
            && s.degraded == DegradedSince(verdicts)
  {
    if verdicts != [] {
      var front, last := verdicts[..|verdicts| - 1], verdicts[|verdicts| - 1];
      WindowsAreCounted(c, front);
      JudgeCounts(c, JudgeAll(c, Initial(c), front), last);
      NextInThree(HealthyAtTheEnd(front));
    }
  }

  /** The rate after the first n windows. */
  function RateAfter(c: Setup, verdicts: seq<Verdict>, n: nat): nat
    requires n <= |verdicts|
  {
    JudgeAll(c, Initial(c), verdicts[..n]).rate
  }

  lemma RateBefore(c: Setup, verdicts: seq<Verdict>, n: nat)
    requires n < |verdicts|
    ensures RateAfter(c, verdicts, n) == RateAfter(c, verdicts[..|verdicts| - 1], n)
  {
    assert verdicts[..|verdicts| - 1][..n] == verdicts[..n];
  }

  lemma RateNow(c: Setup, verdicts: seq<Verdict>)
    ensures RateAfter(c, verdicts, |verdicts|) == JudgeAll(c, Initial(c), verdicts).rate
  {
    assert verdicts[..|verdicts|] == verdicts;
  }

  lemma {:induction false} NoRateIsBeyond(c: Setup, verdicts: seq<Verdict>, n: nat)
    requires n <= |verdicts|
    ensures var s := JudgeAll(c, Initial(c), verdicts); s.minimumRate <= RateAfter(c, verdicts, n) <= s.maximumRate
    decreases |verdicts|
  {
    RateNow(c, verdicts);
    if verdicts != [] {
      var front := verdicts[..|verdicts| - 1];
      JudgeRemembers(c, JudgeAll(c, Initial(c), front), verdicts[|verdicts| - 1]);
      if n < |verdicts| {
        RateBefore(c, verdicts, n);
        NoRateIsBeyond(c, front, n);
      }
    }
  }

  lemma {:induction false} ExtremesWereReached(c: Setup, verdicts: seq<Verdict>) returns (i: nat, j: nat)
    ensures i <= |verdicts| && RateAfter(c, verdicts, i) == JudgeAll(c, Initial(c), verdicts).minimumRate
    ensures j <= |verdicts| && RateAfter(c, verdicts, j) == JudgeAll(c, Initial(c), verdicts).maximumRate
  {
    RateNow(c, verdicts);
    i, j := |verdicts|, |verdicts|;
    if verdicts != [] {
      var front := verdicts[..|verdicts| - 1];
      var low, high := ExtremesWereReached(c, front);
      RateBefore(c, verdicts, low);
      RateBefore(c, verdicts, high);
      var s, before := JudgeAll(c, Initial(c), verdicts), JudgeAll(c, Initial(c), front);
      JudgeRemembers(c, before, verdicts[|verdicts| - 1]);
      if s.minimumRate == before.minimumRate { i := low; }
      if s.maximumRate == before.maximumRate { j := high; }
    }
  }

  /** The least and the greatest rate ever set are remembered. */
  lemma {:induction false} ExtremesAreRemembered(c: Setup, verdicts: seq<Verdict>, n: nat)
    requires n <= |verdicts|
    ensures var s := JudgeAll(c, Initial(c), verdicts); s.minimumRate <= RateAfter(c, verdicts, n) <= s.maximumRate
    ensures exists i, j :: 0 <= i <= |verdicts| && 0 <= j <= |verdicts|
              && RateAfter(c, verdicts, i) == JudgeAll(c, Initial(c), verdicts).minimumRate
              && RateAfter(c, verdicts, j) == JudgeAll(c, Initial(c), verdicts).maximumRate
  {
    NoRateIsBeyond(c, verdicts, n);
    var i, j := ExtremesWereReached(c, verdicts);
  }

  lemma JudgeRemembers(c: Setup, s: Limits, verdict: Verdict)
    ensures var after := Judge(c, s, verdict);
            after.minimumRate == Min(s.minimumRate, after.rate) && after.maximumRate == Max(s.maximumRate, after.rate)
  {
  }

  // ----- runs -----

  /** What the windows of a run that had requests were judged to be, in order. */
  function Verdicts(c: Setup, os: seq<Observation>): seq<Verdict> {
    if os == [] then []
    else
      var front, o := os[..|os| - 1], os[|os| - 1];
      var g := After(c, front);
      var counted := c.mode.Adaptive? && (o.Delta? ==> o.delta.requests > 0);
      var window := SaturatingPlus(g.pending, Increment(o, g.aggregate));
      Verdicts(c, front) + if counted && o.elapsed && window.requests > 0 then [o.judge(window)] else []
  }

  lemma OneMoreVerdict(c: Setup, s: Limits, verdicts: seq<Verdict>, verdict: Verdict)
    ensures JudgeAll(c, s, verdicts + [verdict]) == Judge(c, JudgeAll(c, s, verdicts), verdict)
  {
    assert (verdicts + [verdict])[..|verdicts|] == verdicts;
  }

  /** The limits after any observations are those that the judged windows lead to, one after the other. */
  lemma {:induction false} RunIsItsWindows(c: Setup, os: seq<Observation>)
    ensures After(c, os).limits == JudgeAll(c, Initial(c), Verdicts(c, os))
  {
    if os != [] {
      var front, o := os[..|os| - 1], os[|os| - 1];
      var g := After(c, front);
      RunIsItsWindows(c, front);
      assert After(c, os) == Observed(c, g, o);
      if Ignored(c, o) {
        assert Verdicts(c, os) == Verdicts(c, front);
      } else if o.elapsed && SaturatingPlus(g.pending, Increment(o, g.aggregate)).requests > 0 {
        assert Verdicts(c, os) == Verdicts(c, front) + [o.judge(SaturatingPlus(g.pending, Increment(o, g.aggregate)))];
      } else {
        assert Verdicts(c, os) == Verdicts(c, front);
      }
      OneMoreVerdict(c, Initial(c), Verdicts(c, front), o.judge(SaturatingPlus(g.pending, Increment(o, g.aggregate))));
    }
  }
}
