/**
 That a pass over a Certificate Transparency log gets on (src/ct_monitor.rs): pages that hold what was asked for are
 committed and followed by the next page, so a log that keeps answering is indexed.
 */
module CtProgress {
  import opened Basics
  import opened StaticTiles
  import opened StaticSync
  import opened CtCursor
  import opened CtCoverage

  // ----- one page -----

  /** Every entry can be decoded, and no entry takes the names of the page beyond their limit. */
  predicate WithinNameLimit(entries: seq<Option<set<string>>>) {
    forall k :: 0 <= k < |entries| ==> entries[k].Some? && |NamesIn(entries[..k])| + |entries[k].value| <= MAX_NAMES_PER_BATCH
  }

  /** Where a pass that starts at first has to stop: at the end of the tree or of its budget. */
  function Goal(first: nat, treeSize: nat, budget: nat): nat { Min(treeSize, first + budget) }

  /** The loop stands total entries behind its start, in the state that its commits left. */
  ghost predicate Reached(s: Durable, at: At, ask: Ask, first: nat) {
    && at.start == first + at.total && at.total <= ask.budget && at.pages <= MAX_PAGES
    && (at.total == 0 ==> at.names == {})
    && Standing(s, at, ask)
  }

  /**
   A page with at least one entry and no more than asked for, all decodable and within the name limit, whose commit
   lands: cursor and loop move by its length, its names are stored, and the pass goes on.
   */
  lemma OrdinaryPageAdvances(
      s: Durable, at: At, ask: Ask, reader: StaticReader, first: nat, entries: seq<Option<set<string>>>)
    requires !Done(at, ask) && Reached(s, at, ask, first) && Answer(at, ask) == Page(entries, Landed)
    requires entries != [] && at.start + |entries| <= Goal(first, ask.treeSize, ask.budget) && WithinNameLimit(entries)
    ensures var p, next := PageStep(s, at, ask, reader), At(at.start + |entries|, at.total + |entries|, at.pages + 1, at.names + NamesIn(entries));
            && p.step == Next(next) && Reached(p.state, next, ask, first)
            && p.state.cursor == Some(next.start) && p.state.names == s.names + NamesIn(entries)
  {
    InsideWindow(at, ask, first, |entries|);
    AllFit(entries);
    PageIsTaken(s, at, ask, reader, entries);
    LandingMoves(s, at, ask, first, PageLanding(ask.treeSize, at.start, entries, Landed));
  }

  lemma PageIsTaken(s: Durable, at: At, ask: Ask, reader: StaticReader, entries: seq<Option<set<string>>>)
    requires !Done(at, ask) && Answer(at, ask) == Page(entries, Landed)
    requires 1 <= |entries| <= Monus(LastIndex(at.start, ask.budget - at.total, ask.treeSize) + 1, at.start) && Decodable(entries)
    ensures var l := PageLanding(ask.treeSize, at.start, entries, Landed);
            PageStep(s, at, ask, reader) == Stepped(Do(s, l), [l], Next(Onward(at, l)), false)
  {
  }

  lemma LandingMoves(s: Durable, at: At, ask: Ask, first: nat, l: Landing)
    requires Reached(s, at, ask, first) && at.pages < MAX_PAGES && !l.reset
    requires l.start == at.start < l.next <= Goal(first, ask.treeSize, ask.budget)
    ensures Reached(Do(s, l), Onward(at, l), ask, first)
    ensures Do(s, l).cursor == Some(l.next) && Do(s, l).names == s.names + l.names
  {
  }

  lemma InsideWindow(at: At, ask: Ask, first: nat, n: nat)
    requires !Done(at, ask) && at.start == first + at.total && 1 <= n && at.start + n <= Goal(first, ask.treeSize, ask.budget)
    ensures 1 <= n <= Monus(LastIndex(at.start, ask.budget - at.total, ask.treeSize) + 1, at.start)
    ensures at.total + n <= ask.budget
  {
  }

  lemma AllFit(entries: seq<Option<set<string>>>)
    requires WithinNameLimit(entries)
    ensures Decodable(entries)
  {
    forall k | 0 <= k < |entries| ensures !Spoils(entries, k) { }
  }

  /** A page that is empty, longer than asked for, undecodable or beyond the name limit changes nothing and ends the pass. */
  lemma OtherPagesChangeNothing(
      s: Durable, at: At, ask: Ask, reader: StaticReader, first: nat, entries: seq<Option<set<string>>>, commit: CommitOutcome)
    requires !Done(at, ask) && at.start == first + at.total && Answer(at, ask) == Page(entries, commit)
    requires entries == [] || at.start + |entries| > Goal(first, ask.treeSize, ask.budget) || !WithinNameLimit(entries)
    ensures Pages(s, at, ask, reader).state == s && Pages(s, at, ask, reader).landed == []
    ensures Pages(s, at, ask, reader).result == if at.total > 0 then Partial(at.total, at.pages, at.names) else Bailed
  {
    if !WithinNameLimit(entries) {
      var k :| 0 <= k < |entries| && !(entries[k].Some? && |NamesIn(entries[..k])| + |entries[k].value| <= MAX_NAMES_PER_BATCH);
      assert Spoils(entries, k);
    }
  }

  // ----- all pages -----

  /** What n pages of at least this many entries hold. */
  function PagesHold(n: nat, least: nat): nat { if n == 0 then 0 else PagesHold(n - 1, least) + least }

  /** Page k, asked from any place below the goal, holds what the log holds there: least entries or more, if there are as many. */
  ghost predicate Obliges(log: Log, answer: PageEnv, start: nat, goal: nat, least: nat) {
    && answer.Page? && answer.commit.Landed?
    && 1 <= |answer.entries| && Min(start + least, goal) <= start + |answer.entries| <= goal
    && WithinNameLimit(answer.entries) && HonestPage(log, start, answer.entries)
  }

  ghost predicate ObligingScript(log: Log, script: Script, goal: nat, least: nat) {
    && |script| >= MAX_PAGES
    && forall k: nat, start: nat {:trigger script[k](start)} :: k < |script| && start < goal ==> Obliges(log, script[k](start), start, goal, least)
  }

  /** How a pass over an obliging log ends: complete, with exactly the names of the entries it covered. */
  ghost predicate Finished(log: Log, t: Trace, s: Durable, from: nat, total: nat, pages: nat, names: set<string>, goal: nat, least: nat) {
    && t.state.cursor.Some? && from <= t.state.cursor.value <= goal && !t.fellBack
    && var end := t.state.cursor.value;
    && t.state.names == s.names + LogNames(log, from, end)
    && t.result.Complete? && t.result.entries == total + (end - from) && t.result.names == names + LogNames(log, from, end)
    && pages <= t.result.batches <= MAX_PAGES && (end == goal || t.result.batches == MAX_PAGES)
    && end >= Min(goal, from + PagesHold(t.result.batches - pages, least))
  }

  lemma PageIsHonest(log: Log, start: nat, entries: seq<Option<set<string>>>)
    requires WithinNameLimit(entries) && HonestPage(log, start, entries)
    ensures NamesIn(entries) == LogNames(log, start, start + |entries|)
  {
    PageNames(log, start, entries);
  }

  /** A page in front of what is finished. */
  lemma FinishedBehind(log: Log, t: Trace, s: Durable, at: At, goal: nat, least: nat, l: Landing)
    requires Lands(log, at, goal, least, l)
    requires Finished(log, t, Do(s, l), l.next, at.total + (l.next - l.start), at.pages + 1, at.names + l.names, goal, least)
    requires Do(s, l).names == s.names + l.names
    ensures Finished(log, Behind([l], t), s, at.start, at.total, at.pages, at.names, goal, least)
  {
    LogNamesJoin(log, at.start, l.next, t.state.cursor.value);
  }

  lemma {:induction false} PagesFinish(log: Log, s: Durable, at: At, ask: Ask, reader: StaticReader, first: nat, least: nat)
    requires Reached(s, at, ask, first) && s.cursor == Some(at.start) && at.start <= Goal(first, ask.treeSize, ask.budget)
    requires ObligingScript(log, ask.script, Goal(first, ask.treeSize, ask.budget), least)
    ensures Finished(log, Pages(s, at, ask, reader), s, at.start, at.total, at.pages, at.names, Goal(first, ask.treeSize, ask.budget), least)
    decreases MAX_PAGES - at.pages
  {
    if !Done(at, ask) {
      var l := FirstOfPages(log, s, at, ask, reader, first, least);
      PagesFinish(log, Do(s, l), Onward(at, l), ask, reader, first, least);
      FinishedBehind(log, Pages(Do(s, l), Onward(at, l), ask, reader), s, at, Goal(first, ask.treeSize, ask.budget), least, l);
    } else {
      NothingLeft(log, s, at, ask, reader, first, least);
    }
  }

  lemma NothingLeft(log: Log, s: Durable, at: At, ask: Ask, reader: StaticReader, first: nat, least: nat)
    requires Done(at, ask) && Reached(s, at, ask, first) && s.cursor == Some(at.start)
    requires at.start <= Goal(first, ask.treeSize, ask.budget)
    ensures Finished(log, Pages(s, at, ask, reader), s, at.start, at.total, at.pages, at.names, Goal(first, ask.treeSize, ask.budget), least)
  {
  }

  /** The landing of the next page. */
  ghost predicate Lands(log: Log, at: At, goal: nat, least: nat, l: Landing) {
    && !l.reset && l.start == at.start < l.next <= goal && l.next >= Min(at.start + least, goal)
    && l.names == LogNames(log, at.start, l.next)
  }

  lemma NextPage(log: Log, s: Durable, at: At, ask: Ask, reader: StaticReader, first: nat, least: nat) returns (l: Landing)
    requires !Done(at, ask) && Reached(s, at, ask, first)
    requires ObligingScript(log, ask.script, Goal(first, ask.treeSize, ask.budget), least)
    ensures Lands(log, at, Goal(first, ask.treeSize, ask.budget), least, l)
    ensures PageStep(s, at, ask, reader) == Stepped(Do(s, l), [l], Next(Onward(at, l)), false)
  {
    var answer := ask.script[at.pages](at.start);
    assert Obliges(log, answer, at.start, Goal(first, ask.treeSize, ask.budget), least) && Answer(at, ask) == answer;
    InsideWindow(at, ask, first, |answer.entries|);
    AllFit(answer.entries);
    PageIsTaken(s, at, ask, reader, answer.entries);
    PageIsHonest(log, at.start, answer.entries);
    l := PageLanding(ask.treeSize, at.start, answer.entries, Landed);
  }

  lemma PagesGoOn(s: Durable, at: At, ask: Ask, reader: StaticReader, l: Landing)
    requires !Done(at, ask) && PageStep(s, at, ask, reader) == Stepped(Do(s, l), [l], Next(Onward(at, l)), false)
    ensures Pages(s, at, ask, reader) == Behind([l], Pages(Do(s, l), Onward(at, l), ask, reader))
  {
  }

  /** The next page is taken, and the rest of the pass goes on behind it. */
  lemma FirstOfPages(log: Log, s: Durable, at: At, ask: Ask, reader: StaticReader, first: nat, least: nat) returns (l: Landing)
    requires !Done(at, ask) && Reached(s, at, ask, first)
    requires ObligingScript(log, ask.script, Goal(first, ask.treeSize, ask.budget), least)
    ensures Lands(log, at, Goal(first, ask.treeSize, ask.budget), least, l)
    ensures Pages(s, at, ask, reader) == Behind([l], Pages(Do(s, l), Onward(at, l), ask, reader))
    ensures Reached(Do(s, l), Onward(at, l), ask, first)
    ensures Do(s, l).cursor == Some(l.next) && Do(s, l).names == s.names + l.names
  {
    l := NextPage(log, s, at, ask, reader, first, least);
    PagesGoOn(s, at, ask, reader, l);
    LandingMoves(s, at, ask, first, l);
  }

  // ----- a pass -----

  /** Where a pass over this tree starts: at the cursor, or at the backfill point when there is none. */
  function StartOf(s: Durable, treeSize: nat, initialBackfill: nat): nat {
    if s.cursor.Some? then s.cursor.value else Monus(treeSize, initialBackfill)
  }

  /**
   A log with something to index answers every request of the pass with an ordinary page. The budget leaves room for
   at least one entry.
   */
  ghost predicate Answers(log: Log, s: Durable, pass: PassEnv, least: nat) {
    && pass.head.Head? && pass.budget > 0
    && var first := StartOf(s, pass.head.treeSize, pass.initialBackfill);
    && first < pass.head.treeSize
    && ObligingScript(log, pass.script, Goal(first, pass.head.treeSize, pass.budget), least)
  }

  /**
   Such a pass is complete: at the end of the tree, of its budget or of 64 pages, with exactly the names of the entries
   from where it started to the cursor it leaves.
   */
  lemma PassFinishes(log: Log, s: Durable, pass: PassEnv, reader: StaticReader, least: nat)
    requires Answers(log, s, pass, least)
    ensures var first := StartOf(s, pass.head.treeSize, pass.initialBackfill);
            Finished(log, Pass(s, pass, reader), s, first, 0, 0, {}, Goal(first, pass.head.treeSize, pass.budget), least)
    ensures Pass(s, pass, reader).state.cursor != Some(StartOf(s, pass.head.treeSize, pass.initialBackfill))
  {
    var treeSize := pass.head.treeSize;
    var first := StartOf(s, treeSize, pass.initialBackfill);
    var goal := Goal(first, treeSize, pass.budget);
    var at, ask := At(first, 0, 0, {}), Ask(treeSize, pass.budget, pass.initialBackfill, pass.script);
    var l := FirstOfPages(log, s, at, ask, reader, first, least);
    PagesFinish(log, Do(s, l), Onward(at, l), ask, reader, first, least);
    FinishedBehind(log, Pages(Do(s, l), Onward(at, l), ask, reader), s, at, goal, least, l);
    assert Pass(s, pass, reader) == Pages(s, at, ask, reader);
  }

  /** A tree that shrank below the cursor: the cursor moves back to the backfill point, names stay, and the pass goes on from there. */
  lemma ShrunkTreeStartsOver(s: Durable, pass: PassEnv, reader: StaticReader)
    requires pass.head.Head? && pass.head.treeSize > 0 && Shrunk(s, pass.head.treeSize) && !pass.head.resetFails
    ensures var backfill := Monus(pass.head.treeSize, pass.initialBackfill);
            var reset := Durable(Some(backfill), s.names, backfill);
            Pass(s, pass, reader) == Behind([Moved(pass.head.treeSize, backfill)], Pass(reset, pass, reader))
  {
    assert s.names + {} == s.names;
  }

  /** With nothing to do the pass is complete without entries, and stores where it stands. */
  lemma NothingToDoKeepsThePlace(s: Durable, pass: PassEnv, reader: StaticReader)
    requires pass.head.Head? && pass.head.commit.Landed? && !Shrunk(s, pass.head.treeSize)
    requires pass.budget == 0 || StartOf(s, pass.head.treeSize, pass.initialBackfill) >= pass.head.treeSize
    ensures var t, start := Pass(s, pass, reader), StartOf(s, pass.head.treeSize, pass.initialBackfill);
            t.result == Complete(0, 0, {}) && t.state.names == s.names && t.state.cursor == Some(start)
  {
    assert s.names + {} == s.names;
  }

  // ----- runs -----

  /** Every pass meets a tree of at least this size, with room for this many entries, and is answered while there are entries left. */
  ghost predicate KeepsAnswering(log: Log, passes: seq<PassEnv>, history: seq<Durable>, size: nat, budget: nat, least: nat)
    requires |history| == |passes| + 1
  {
    forall k {:trigger passes[k]} :: 0 <= k < |passes| ==>
      && passes[k].head.Head? && passes[k].head.treeSize >= size && passes[k].budget >= budget
      && !Shrunk(history[k], passes[k].head.treeSize)
      && (StartOf(history[k], passes[k].head.treeSize, passes[k].initialBackfill) < passes[k].head.treeSize ==>
            Answers(log, history[k], passes[k], least))
  }

  /** How far n passes bring a log at least. */
  function AtLeastReached(start: nat, n: nat, budget: nat, least: nat): nat {
    if n == 0 then start else AtLeastReached(start, n - 1, budget, least) + Min(budget, PagesHold(MAX_PAGES, least))
  }

  /** A budget farther, or what 64 pages hold, but not beyond the tree. */
  function Farther(size: nat, from: nat, budget: nat, least: nat): nat { Min(size, from + Min(budget, PagesHold(MAX_PAGES, least))) }

  lemma {:induction false} FinishedPass(log: Log, s: Durable, pass: PassEnv, reader: StaticReader, least: nat) 
    returns (t: Trace, first: nat)
    requires Answers(log, s, pass, least)
    ensures first == StartOf(s, pass.head.treeSize, pass.initialBackfill) && t.state.cursor == Pass(s, pass, reader).state.cursor
    ensures Finished(log, t, s, first, 0, 0, {}, Goal(first, pass.head.treeSize, pass.budget), least)
  {
    PassFinishes(log, s, pass, reader, least);
    t, first := Pass(s, pass, reader), StartOf(s, pass.head.treeSize, pass.initialBackfill);
  }

  /** Where a finished pass stands, for any tree of at least this size and any budget of at least this much. */
  lemma {:induction false} FinishedReaches(
      log: Log, t: Trace, s: Durable, first: nat, treeSize: nat, passBudget: nat, size: nat, budget: nat, least: nat)
    requires Finished(log, t, s, first, 0, 0, {}, Goal(first, treeSize, passBudget), least) && treeSize >= size && passBudget >= budget
    ensures t.state.cursor.Some? && t.state.cursor.value >= Farther(size, first, budget, least)
  {
  }

  lemma {:induction false} OnePassReaches(log: Log, s: Durable, pass: PassEnv, reader: StaticReader, size: nat, budget: nat, least: nat)
    requires Answers(log, s, pass, least) && pass.head.treeSize >= size && pass.budget >= budget
    ensures var first, cursor := StartOf(s, pass.head.treeSize, pass.initialBackfill), Pass(s, pass, reader).state.cursor;
            cursor.Some? && cursor.value >= Farther(size, first, budget, least)
  {
    var t, first := FinishedPass(log, s, pass, reader, least);
    FinishedReaches(log, t, s, first, pass.head.treeSize, pass.budget, size, budget, least);
  }

  lemma UpToDateStays(s: Durable, pass: PassEnv, reader: StaticReader)
    requires pass.head.Head? && s.cursor.Some? && s.cursor.value == pass.head.treeSize
    ensures Pass(s, pass, reader).state.cursor == s.cursor
  {
  }

  lemma {:induction false} OneMorePass(
      log: Log, s: Durable, pass: PassEnv, reader: StaticReader, reached: nat, size: nat, budget: nat, least: nat)
    requires pass.head.Head? && pass.head.treeSize >= size && pass.budget >= budget && !Shrunk(s, pass.head.treeSize)
    requires s.cursor.Some? && s.cursor.value >= Min(size, reached)
    requires s.cursor.value < pass.head.treeSize ==> Answers(log, s, pass, least)
    ensures var cursor := Pass(s, pass, reader).state.cursor;
            cursor.Some? && cursor.value >= Farther(size, reached, budget, least)
  {
    if s.cursor.value < pass.head.treeSize {
      OnePassReaches(log, s, pass, reader, size, budget, least);
    } else {
      UpToDateStays(s, pass, reader);
    }
  }

  lemma {:induction false} NextInRun(
      log: Log, passes: seq<PassEnv>, history: seq<Durable>, results: seq<PassResult>, reader: StaticReader,
      k: nat, reached: nat, size: nat, budget: nat, least: nat)
    requires IsRun(passes, history, results, reader) && KeepsAnswering(log, passes, history, size, budget, least)
    requires k < |passes| && history[k].cursor.Some? && history[k].cursor.value >= Min(size, reached)
    ensures history[k + 1].cursor.Some?
    ensures history[k + 1].cursor.value >= Farther(size, reached, budget, least)
  {
    assert IsPass(history[k], passes[k], history[k + 1], results[k], reader);
    OneMorePass(log, history[k], passes[k], reader, reached, size, budget, least);
  }

  /**
   A log that keeps answering is indexed: after n more passes its cursor has moved by n times the budget (or n times what
   64 pages hold), or has reached the size that all trees had.
   */
  lemma {:induction false} AnsweringLogIsIndexed(
      log: Log, passes: seq<PassEnv>, history: seq<Durable>, results: seq<PassResult>, reader: StaticReader,
      from: nat, n: nat, size: nat, budget: nat, least: nat)
    requires IsRun(passes, history, results, reader) && KeepsAnswering(log, passes, history, size, budget, least)
    requires from + n <= |passes| && history[from].cursor.Some?
    ensures history[from + n].cursor.Some?
    ensures history[from + n].cursor.value >= Min(size, AtLeastReached(history[from].cursor.value, n, budget, least))
  {
    if n > 0 {
      AnsweringLogIsIndexed(log, passes, history, results, reader, from, n - 1, size, budget, least);
      NextInRun(log, passes, history, results, reader, from + n - 1, AtLeastReached(history[from].cursor.value, n - 1, budget, least),
                size, budget, least);
    }
  }

  // ----- the static reader -----

  /** From the stored cursor the static log can be synchronized to this batch, and the commit lands. */
  ghost predicate Delivers(s: Durable, env: StaticEnv, budget: nat, initialBackfill: nat, batch: StaticBatch) {
    && env.treeSize.Some? && env.commit.Landed?
    && var (start, reset) := StartCursor(s.cursor, env.treeSize.value, initialBackfill);
    && StaticDelta(env.fetch, Certificates(env.fetch, env.treeSize.value), env.decode, env.treeSize.value, start, reset, budget) == Some(batch)
  }

  /** The static reader answers with a batch iff that is what the log delivers. */
  lemma ReaderDelivers(s: Durable, env: StaticEnv, budget: nat, initialBackfill: nat, batch: StaticBatch, reader: StaticReader)
    requires IsReader(reader)
    ensures reader(s, env, budget, initialBackfill).batch == Some(batch) <==> Delivers(s, env, budget, initialBackfill, batch)
  {
    assert reader(s, env, budget, initialBackfill) == StaticPass(s, env, budget, initialBackfill);
  }

  /** The batch was committed on top of this state: its names are stored, and its cursor as far as it may. */
  predicate Committed(s: Durable, after: Durable, batch: StaticBatch) {
    && after.names == s.names + batch.names
    && after.cursor == Some(if batch.resetCursor || s.cursor.None? then batch.nextCursor else Max(s.cursor.value, batch.nextCursor))
  }

  lemma ReaderCommits(s: Durable, env: StaticEnv, budget: nat, initialBackfill: nat, batch: StaticBatch, reader: StaticReader)
    requires IsReader(reader) && reader(s, env, budget, initialBackfill).batch == Some(batch)
    ensures Committed(s, reader(s, env, budget, initialBackfill).state, batch)
  {
    assert reader(s, env, budget, initialBackfill) == StaticPass(s, env, budget, initialBackfill);
  }

  /** What the static reader answers in place of a tree head is committed and reported. */
  lemma {:induction false} FallbackIsCommitted(s: Durable, pass: PassEnv, reader: StaticReader, env: StaticEnv, batch: StaticBatch)
    requires IsReader(reader) && pass.head == NoHead(false, env)
    requires reader(s, env, pass.budget, pass.initialBackfill).batch == Some(batch)
    ensures Pass(s, pass, reader).result == Complete(batch.entriesProcessed, |batch.tiles|, batch.names)
    ensures Committed(s, Pass(s, pass, reader).state, batch)
  {
    ReaderCommits(s, env, pass.budget, pass.initialBackfill, batch, reader);
  }

  lemma {:induction false} PagesFallBack(s: Durable, at: At, ask: Ask, reader: StaticReader, env: StaticEnv, t: StaticTrace, batch: StaticBatch)
    requires !Done(at, ask) && Answer(at, ask) == Unavailable(false, env)
    requires t == reader(s, env, ask.budget - at.total, ask.initialBackfill) && t.batch == Some(batch)
    ensures Pages(s, at, ask, reader).state == t.state
    ensures Pages(s, at, ask, reader).result == Complete(at.total + batch.entriesProcessed, at.pages + |batch.tiles|, at.names + batch.names)
  {
  }

  /** In place of a page it is asked for what is left of the budget, committed, and reported behind what was read before. */
  lemma {:induction false} PageFallbackIsCommitted(s: Durable, at: At, ask: Ask, reader: StaticReader, env: StaticEnv, batch: StaticBatch)
    requires IsReader(reader) && !Done(at, ask) && Answer(at, ask) == Unavailable(false, env)
    requires reader(s, env, ask.budget - at.total, ask.initialBackfill).batch == Some(batch)
    ensures Pages(s, at, ask, reader).result == Complete(at.total + batch.entriesProcessed, at.pages + |batch.tiles|, at.names + batch.names)
    ensures Committed(s, Pages(s, at, ask, reader).state, batch)
  {
    ReaderCommits(s, env, ask.budget - at.total, ask.initialBackfill, batch, reader);
    PagesFallBack(s, at, ask, reader, env, reader(s, env, ask.budget - at.total, ask.initialBackfill), batch);
  }
}
