/**
 The durable cursor of one Certificate Transparency log (src/ct_monitor.rs, src/db/enrichment.rs). A pass reads
 pages through one reader and may fall back to the static reader; commits are atomic; everything else may fail or
 crash at any point, and a commit that lands may still be reported as failed.
 */
module CtCursor {
  import opened Basics
  import opened StaticTiles
  import opened StaticSync

  const MAX_PAGES: nat := 64

  // ----- the durable state -----

  /** What is stored for the log, and the last start or reset point (base), which the program does not store. */
  datatype Durable = Durable(cursor: Option<nat>, names: set<string>, base: nat)

  /**
   One committed transaction: the entries start..next with their names, under a tree of that size. It overwrites
   the cursor (reset) or raises it, and the pass may or may not learn that it was committed (reported).
   */
  datatype Landing = Landing(treeSize: nat, start: nat, next: nat, names: set<string>, reset: bool, reported: bool)

  function Do(s: Durable, l: Landing): Durable {
    if l.reset || s.cursor.None? then Durable(Some(l.next), s.names + l.names, l.start)
    else Durable(Some(Max(s.cursor.value, l.next)), s.names + l.names, s.base)
  }

  function DoAll(s: Durable, ls: seq<Landing>): Durable
    decreases |ls|
  {
    if ls == [] then s else DoAll(Do(s, ls[0]), ls[1..])
  }

  class CtStore {
    var cursor: Option<nat>
    var names: set<string>
    ghost var base: nat

    constructor ()
      ensures State() == Durable(None, {}, 0)
    {
      cursor, names, base := None, {}, 0;
    }

    ghost function State(): Durable
      reads this
    {
      Durable(cursor, names, base)
    }

    /** Commits names and cursor together; the cursor never moves back. */
    method StoreGlobalBatch(next: nat, batchNames: set<string>, ghost l: Landing)
      requires l.next == next && l.names == batchNames && !l.reset
      modifies this
      ensures cursor == Some(if old(cursor).Some? then Max(old(cursor).value, next) else next)
      ensures names == old(names) + batchNames && base == (if old(cursor).Some? then old(base) else l.start)
      ensures State() == Do(old(State()), l)
    {
      names := names + batchNames;
      base := if cursor.Some? then base else l.start;
      cursor := Some(if cursor.Some? && cursor.value > next then cursor.value else next);
    }

    /** Commits a static batch; a reset may move the cursor back and starts a new covered range. */
    method StoreStaticBatch(reset: bool, next: nat, batchNames: set<string>, ghost l: Landing)
      requires l.next == next && l.names == batchNames && l.reset == reset
      modifies this
      ensures cursor == Some(if !reset && old(cursor).Some? then Max(old(cursor).value, next) else next)
      ensures names == old(names) + batchNames && base == (if !reset && old(cursor).Some? then old(base) else l.start)
      ensures State() == Do(old(State()), l)
    {
      if reset {
        names, base, cursor := names + batchNames, l.start, Some(next);
      } else {
        StoreGlobalBatch(next, batchNames, l);
      }
    }

    method ResetCursor(next: nat, ghost treeSize: nat)
      modifies this
      ensures cursor == Some(next) && base == next && names == old(names)
      ensures State() == Do(old(State()), Moved(treeSize, next))
    {
      cursor, base := Some(next), next;
      assert names + {} == names;
    }
  }

  /** The cursor is overwritten; no entry is read. */
  function Moved(treeSize: nat, next: nat): Landing {
    Landing(treeSize, next, next, {}, true, true)
  }

  // ----- what a pass meets -----

  /**
   How a commit ends: refused, so that nothing changes; landed; or landed although the pass is told otherwise,
   because the deadline passed while the worker was inside the commit and its answer is thrown away.
   */
  datatype CommitOutcome = Refused | Landed | Unreported

  /** The static reader's world; None when no compatible checkpoint is found. */
  datatype StaticEnv = StaticEnv(treeSize: Option<nat>, fetch: Fetch, decode: Decode, commit: CommitOutcome)

  datatype PageEnv =
    | NoBudget
    | Unavailable(deadlinePassed: bool, fallback: StaticEnv)
    /** The decoded names of each returned entry (None when it cannot be decoded), and how the commit ends. */
    | Page(entries: seq<Option<set<string>>>, commit: CommitOutcome)
    | Crash

  /** What the successive requests of a pass are answered, given the first index they ask for. */
  type Script = seq<nat -> PageEnv>

  datatype HeadEnv =
    | NoHead(deadlinePassed: bool, fallback: StaticEnv)
    /** The tree size, whether resetting the cursor fails, and how a commit without entries ends. */
    | Head(treeSize: nat, resetFails: bool, commit: CommitOutcome)

  datatype PassEnv = PassEnv(head: HeadEnv, script: Script, budget: nat, initialBackfill: nat)

  datatype PassResult =
    | Complete(entries: nat, batches: nat, names: set<string>)
    | Partial(entries: nat, batches: nat, names: set<string>)
    | Bailed
    | Crashed

  /** What a pass does to the store and what it reports. */
  datatype Trace = Trace(state: Durable, landed: seq<Landing>, result: PassResult, fellBack: bool)

  // ----- one page -----

  /** The batch cursor, or None for an empty or oversized page. */
  function NextBatchCursor(start: nat, end: nat, processed: nat): (r: Option<nat>)
    requires start <= end
  {
    if processed == 0 || processed > end - start + 1 then None else Some(start + processed)
  }

  /** The names of all entries that can be decoded. */
  function NamesIn(entries: seq<Option<set<string>>>): set<string> {
    if entries == [] then {}
    else NamesIn(entries[..|entries| - 1]) + if entries[|entries| - 1].Some? then entries[|entries| - 1].value else {}
  }

  /** Entry k cannot be decoded, or would take the names of the page beyond their limit. */
  predicate Spoils(entries: seq<Option<set<string>>>, k: nat)
    requires k < |entries|
  {
    entries[k].None? || |NamesIn(entries[..k])| + |entries[k].value| > MAX_NAMES_PER_BATCH
  }

  predicate Decodable(entries: seq<Option<set<string>>>) {
    forall k :: 0 <= k < |entries| ==> !Spoils(entries, k)
  }

  lemma NamesInStep(entries: seq<Option<set<string>>>, i: nat)
    requires i < |entries| && entries[i].Some?
    ensures NamesIn(entries[..i + 1]) == NamesIn(entries[..i]) + entries[i].value
  {
    assert entries[..i + 1][..i] == entries[..i];
  }

  /** Decodes the complete page before anything is committed, or refuses it. */
  method DecodeBatchNames(entries: seq<Option<set<string>>>) returns (names: Option<set<string>>)
    ensures names == if Decodable(entries) then Some(NamesIn(entries)) else None
  {
    var all: set<string> := {};
    for i := 0 to |entries|
      invariant all == NamesIn(entries[..i])
      invariant forall k :: 0 <= k < i ==> !Spoils(entries, k)
    {
      var entry := entries[i];
      if entry.None? || |all| + |entry.value| > MAX_NAMES_PER_BATCH {
        assert Spoils(entries, i);
        return None;
      }
      NamesInStep(entries, i);
      all := all + entry.value;
    }
    assert entries[..|entries|] == entries;
    names := Some(all);
  }

  /** The page can be decoded and fits the window that was asked for. */
  predicate Acceptable(entries: seq<Option<set<string>>>, start: nat, end: nat) {
    1 <= |entries| <= Monus(end + 1, start) && Decodable(entries)
  }

  function PageLanding(treeSize: nat, start: nat, entries: seq<Option<set<string>>>, commit: CommitOutcome): Landing {
    Landing(treeSize, start, start + |entries|, NamesIn(entries), false, commit.Landed?)
  }

  /** One page: decoded completely, checked against its window, committed in one transaction; or nothing changes. */
  method ProcessAndStoreBatch(
      store: CtStore, ghost treeSize: nat, start: nat, end: nat, entries: seq<Option<set<string>>>, commit: CommitOutcome)
    returns (next: Option<nat>, names: set<string>)
    requires start <= end
    modifies store
    ensures store.State() == if Acceptable(entries, start, end) && !commit.Refused?
                             then Do(old(store.State()), PageLanding(treeSize, start, entries, commit)) else old(store.State())
    ensures next == if Acceptable(entries, start, end) && commit.Landed? then Some(start + |entries|) else None
    ensures names == if next.Some? then NamesIn(entries) else {}
  {
    names := {};
    var found := DecodeBatchNames(entries);
    if found.None? {
      return None, {};
    }
    next := NextBatchCursor(start, end, |entries|);
    if next.None? || commit.Refused? {
      return None, {};
    }
    store.StoreGlobalBatch(next.value, found.value, PageLanding(treeSize, start, entries, commit));
    if commit.Unreported? {
      return None, {};
    }
    names := found.value;
  }

  // ----- the static reader -----

  datatype StaticTrace = StaticTrace(state: Durable, landed: seq<Landing>, batch: Option<StaticBatch>)

  function StaticLanding(start: nat, batch: StaticBatch, commit: CommitOutcome): Landing {
    Landing(batch.checkpointSize, start, batch.nextCursor, batch.names, batch.resetCursor, commit.Landed?)
  }

  function StaticPass(s: Durable, env: StaticEnv, budget: nat, initialBackfill: nat): StaticTrace {
    if env.treeSize.None? then StaticTrace(s, [], None)
    else
      var (start, reset) := StartCursor(s.cursor, env.treeSize.value, initialBackfill);
      var certs := Certificates(env.fetch, env.treeSize.value);
      match StaticDelta(env.fetch, certs, env.decode, env.treeSize.value, start, reset, budget)
      case None => StaticTrace(s, [], None)
      case Some(batch) =>
        if env.commit.Refused? then StaticTrace(s, [], None)
        else
          var l := StaticLanding(start, batch, env.commit);
          StaticTrace(Do(s, l), [l], if env.commit.Landed? then Some(batch) else None)
  }

  /** The static reader, from the stored cursor to its commit; or nothing changes. */
  method ProcessStaticLog(store: CtStore, env: StaticEnv, budget: nat, initialBackfill: nat)
    returns (r: Option<StaticBatch>)
    modifies store
    ensures var t := StaticPass(old(store.State()), env, budget, initialBackfill); store.State() == t.state && r == t.batch
  {
    if env.treeSize.None? {
      return None;
    }
    var batch := FetchStaticDelta(env.fetch, env.decode, env.treeSize.value, store.cursor, budget, initialBackfill);
    if batch.None? || env.commit.Refused? {
      return None;
    }
    ghost var start := StartCursor(store.cursor, env.treeSize.value, initialBackfill).0;
    store.StoreStaticBatch(batch.value.resetCursor, batch.value.nextCursor, batch.value.names, StaticLanding(start, batch.value, env.commit));
    if env.commit.Unreported? {
      return None;
    }
    return batch;
  }

  /** A function that says what the static reader does; the rest of a pass only needs to know that there is one. */
  type StaticReader = (Durable, StaticEnv, nat, nat) -> StaticTrace

  ghost predicate IsReader(reader: StaticReader) {
    forall s, env, budget: nat, initialBackfill: nat {:trigger StaticPass(s, env, budget, initialBackfill)} ::
      reader(s, env, budget, initialBackfill) == StaticPass(s, env, budget, initialBackfill)
  }

  lemma StaticPassIsReader()
    ensures IsReader(StaticPass)
  {
  }

  method ReadStaticLog(store: CtStore, env: StaticEnv, budget: nat, initialBackfill: nat, ghost reader: StaticReader)
    returns (r: Option<StaticBatch>)
    requires IsReader(reader)
    modifies store
    ensures var t := reader(old(store.State()), env, budget, initialBackfill); store.State() == t.state && r == t.batch
  {
    r := ProcessStaticLog(store, env, budget, initialBackfill);
  }

  // ----- one pass -----

  /** How a finished pass reports: nothing processed means failure, otherwise what was kept. */
  function Interrupted(total: nat, pages: nat, names: set<string>): PassResult {
    if total > 0 then Partial(total, pages, names) else Bailed
  }

  function LastIndex(start: nat, remaining: nat, treeSize: nat): nat {
    Min(Monus(start + remaining, 1), Monus(treeSize, 1))
  }

  /** What a pass asks for once it knows where to start. */
  datatype Ask = Ask(treeSize: nat, budget: nat, initialBackfill: nat, script: Script)

  /** The variables of the page loop. */
  datatype At = At(start: nat, total: nat, pages: nat, names: set<string>)

  predicate Done(at: At, ask: Ask) {
    at.start >= ask.treeSize || at.total >= ask.budget || at.pages >= MAX_PAGES
  }

  function Answer(at: At, ask: Ask): PageEnv {
    if at.pages < |ask.script| then ask.script[at.pages](at.start) else Crash
  }

  function GiveUp(at: At): PassResult { Interrupted(at.total, at.pages, at.names) }

  datatype Step = Stop(result: PassResult) | Next(at: At)

  /** What one round of the loop does to the store, and how it goes on. */
  datatype Stepped = Stepped(state: Durable, landed: seq<Landing>, step: Step, fellBack: bool)

  /** One round of the page loop. */
  function PageStep(s: Durable, at: At, ask: Ask, reader: StaticReader): (r: Stepped)
    requires !Done(at, ask)
    ensures r.step.Next? ==> r.step.at.pages == at.pages + 1
  {
    match Answer(at, ask)
    case Crash => Stepped(s, [], Stop(Crashed), false)
    case NoBudget => Stepped(s, [], Stop(GiveUp(at)), false)
    case Unavailable(deadlinePassed, fallback) =>
      if deadlinePassed then Stepped(s, [], Stop(GiveUp(at)), false)
      else
        var t := reader(s, fallback, ask.budget - at.total, ask.initialBackfill);
        Stepped(t.state, t.landed, Stop(if t.batch.None? then GiveUp(at) else FellBack(at, t.batch.value)), true)
    case Page(entries, commit) =>
      if !Acceptable(entries, at.start, LastIndex(at.start, ask.budget - at.total, ask.treeSize)) || commit.Refused? then
        Stepped(s, [], Stop(GiveUp(at)), false)
      else
        var l := PageLanding(ask.treeSize, at.start, entries, commit);
        Stepped(Do(s, l), [l], if commit.Unreported? then Stop(GiveUp(at)) else Next(Onward(at, l)), false)
  }

  /** The report of a pass that ends with the static reader. */
  function FellBack(at: At, batch: StaticBatch): PassResult {
    Complete(at.total + batch.entriesProcessed, at.pages + |batch.tiles|, at.names + batch.names)
  }

  function Onward(at: At, l: Landing): At {
    At(l.next, at.total + Monus(l.next, l.start), at.pages + 1, at.names + l.names)
  }

  method ReadPage(store: CtStore, at: At, ask: Ask, ghost reader: StaticReader) returns (r: Step)
    requires !Done(at, ask) && IsReader(reader)
    modifies store
    ensures var p := PageStep(old(store.State()), at, ask, reader); store.State() == p.state && r == p.step
  {
    var remaining := ask.budget - at.total;
    var end := LastIndex(at.start, remaining, ask.treeSize);
    var page := Answer(at, ask);
    match page {
      case Crash =>
        return Stop(Crashed);
      case NoBudget =>
        return Stop(GiveUp(at));
      case Unavailable(deadlinePassed, fallback) =>
        if deadlinePassed {
          return Stop(GiveUp(at));
        }
        var batch := ReadStaticLog(store, fallback, remaining, ask.initialBackfill, reader);
        return Stop(if batch.None? then GiveUp(at) else FellBack(at, batch.value));
      case Page(entries, commit) =>
        var next, found := ProcessAndStoreBatch(store, ask.treeSize, at.start, end, entries, commit);
        if next.None? {
          return Stop(GiveUp(at));
        }
        return Next(At(next.value, at.total + |entries|, at.pages + 1, at.names + found));
    }
  }

  /** The rest of a pass whose loop stands at a given point. */
  function Pages(s: Durable, at: At, ask: Ask, reader: StaticReader): Trace
    decreases MAX_PAGES - at.pages
  {
    if Done(at, ask) then Trace(s, [], Complete(at.total, at.pages, at.names), false)
    else
      var p := PageStep(s, at, ask, reader);
      match p.step
      case Stop(result) => Trace(p.state, p.landed, result, p.fellBack)
      case Next(next) => Behind(p.landed, Pages(p.state, next, ask, reader))
  }

  /** A trace that begins with some more landings. */
  function Behind(ls: seq<Landing>, t: Trace): Trace {
    Trace(t.state, ls + t.landed, t.result, t.fellBack)
  }

  /** The pages of a pass, from a start below the tree size. */
  method ReadPages(store: CtStore, first: nat, ask: Ask, ghost reader: StaticReader) returns (r: PassResult)
    requires IsReader(reader)
    modifies store
    ensures var t := Pages(old(store.State()), At(first, 0, 0, {}), ask, reader); store.State() == t.state && r == t.result
  {
    var at := At(first, 0, 0, {});
    ghost var whole := Pages(store.State(), at, ask, reader);
    while !Done(at, ask)
      invariant var t := Pages(store.State(), at, ask, reader); whole.state == t.state && whole.result == t.result
      decreases MAX_PAGES - at.pages
    {
      var step := ReadPage(store, at, ask, reader);
      match step {
        case Stop(result) => return result;
        case Next(next) => at := next;
      }
    }
    return Complete(at.total, at.pages, at.names);
  }

  /** A commit without entries, which only makes sure that a cursor is stored. */
  function KeepCursor(s: Durable, treeSize: nat, start: nat, commit: CommitOutcome): Trace {
    if commit.Refused? then Trace(s, [], Bailed, false)
    else
      var l := Landing(treeSize, start, start, {}, false, commit.Landed?);
      Trace(Do(s, l), [l], if commit.Landed? then Complete(0, 0, {}) else Bailed, false)
  }

  predicate Shrunk(s: Durable, treeSize: nat) { s.cursor.Some? && s.cursor.value > treeSize }

  /** A pass that got a tree head, once the start is known. */
  function FromStart(s: Durable, start: nat, treeSize: nat, commit: CommitOutcome, pass: PassEnv, reader: StaticReader): Trace {
    if start >= treeSize || pass.budget == 0 then KeepCursor(s, treeSize, start, commit)
    else Pages(s, At(start, 0, 0, {}), Ask(treeSize, pass.budget, pass.initialBackfill, pass.script), reader)
  }

  /** One pass over one log. */
  function Pass(s: Durable, pass: PassEnv, reader: StaticReader): Trace {
    match pass.head
    case NoHead(deadlinePassed, fallback) =>
      if deadlinePassed then Trace(s, [], Bailed, false)
      else
        var t := reader(s, fallback, pass.budget, pass.initialBackfill);
        Trace(t.state, t.landed,
              if t.batch.None? then Bailed else Complete(t.batch.value.entriesProcessed, |t.batch.value.tiles|, t.batch.value.names),
              true)
    case Head(treeSize, resetFails, commit) =>
      var backfill := Monus(treeSize, pass.initialBackfill);
      if treeSize == 0 then
        if s.cursor.Some? && s.cursor.value > 0 then Trace(s, [], Bailed, false) else KeepCursor(s, 0, 0, commit)
      else if !Shrunk(s, treeSize) then
        FromStart(s, if s.cursor.Some? then s.cursor.value else backfill, treeSize, commit, pass, reader)
      else if resetFails then Trace(s, [], Bailed, false)
      else
        var l := Moved(treeSize, backfill);
        Behind([l], FromStart(Do(s, l), backfill, treeSize, commit, pass, reader))
  }

  method CommitCursor(store: CtStore, ghost treeSize: nat, start: nat, commit: CommitOutcome) returns (r: PassResult)
    modifies store
    ensures var t := KeepCursor(old(store.State()), treeSize, start, commit); store.State() == t.state && r == t.result
  {
    if commit.Refused? {
      return Bailed;
    }
    store.StoreGlobalBatch(start, {}, Landing(treeSize, start, start, {}, false, commit.Landed?));
    return if commit.Landed? then Complete(0, 0, {}) else Bailed;
  }

  method MonitorLog(store: CtStore, pass: PassEnv, ghost reader: StaticReader) returns (r: PassResult)
    requires IsReader(reader)
    modifies store
    ensures var t := Pass(old(store.State()), pass, reader); store.State() == t.state && r == t.result
  {
    if pass.head.NoHead? {
      if pass.head.deadlinePassed {
        return Bailed;
      }
      var batch := ReadStaticLog(store, pass.head.fallback, pass.budget, pass.initialBackfill, reader);
      if batch.None? {
        return Bailed;
      }
      return Complete(batch.value.entriesProcessed, |batch.value.tiles|, batch.value.names);
    }
    var treeSize, stored := pass.head.treeSize, store.cursor;
    if treeSize == 0 {
      if stored.Some? && stored.value > 0 {
        return Bailed;
      }
      r := CommitCursor(store, 0, 0, pass.head.commit);
      return;
    }
    var backfill := Monus(treeSize, pass.initialBackfill);
    var start := backfill;
    if stored.Some? {
      if stored.value > treeSize {
        if pass.head.resetFails {
          return Bailed;
        }
        store.ResetCursor(backfill, treeSize);
      } else {
        start := stored.value;
      }
    }
    if start >= treeSize || pass.budget == 0 {
      r := CommitCursor(store, treeSize, start, pass.head.commit);
      return;
    }
    r := ReadPages(store, start, Ask(treeSize, pass.budget, pass.initialBackfill, pass.script), reader);
  }

  ghost predicate IsPass(before: Durable, pass: PassEnv, after: Durable, result: PassResult, reader: StaticReader) {
    var t := Pass(before, pass, reader);
    after == t.state && result == t.result
  }

  function Fresh(): Durable { Durable(None, {}, 0) }

  /** The durable states that the passes leave behind one after the other, and what each of them reports. */
  ghost predicate IsRun(passes: seq<PassEnv>, history: seq<Durable>, results: seq<PassResult>, reader: StaticReader) {
    && |history| == |passes| + 1 && |results| == |passes| && history[0] == Fresh()
    && forall k {:trigger passes[k]} :: 0 <= k < |passes| ==> IsPass(history[k], passes[k], history[k + 1], results[k], reader)
  }

  lemma RunExtends(
      passes: seq<PassEnv>, history: seq<Durable>, results: seq<PassResult>, pass: PassEnv, after: Durable, result: PassResult,
      reader: StaticReader)
    requires IsRun(passes, history, results, reader) && IsPass(history[|passes|], pass, after, result, reader)
    ensures IsRun(passes + [pass], history + [after], results + [result], reader)
  {
  }

  /** Any number of passes over a store that starts empty. */
  method RunPasses(passes: seq<PassEnv>, ghost reader: StaticReader)
    returns (store: CtStore, ghost history: seq<Durable>, results: seq<PassResult>)
    requires IsReader(reader)
    ensures IsRun(passes, history, results, reader) && history[|passes|] == store.State()
  {
    store := new CtStore();
    history, results := [store.State()], [];
    for n := 0 to |passes|
      invariant fresh(store) && IsRun(passes[..n], history, results, reader) && history[n] == store.State()
    {
      var r := MonitorLog(store, passes[n], reader);
      RunExtends(passes[..n], history, results, passes[n], store.State(), r, reader);
      history, results := history + [store.State()], results + [r];
      assert passes[..n] + [passes[n]] == passes[..n + 1];
    }
    assert passes[..|passes|] == passes;
  }
}
