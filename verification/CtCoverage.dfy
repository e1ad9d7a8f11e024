/** What the passes over one Certificate Transparency log keep, whichever of them fail, crash or misreport. */
module CtCoverage {
  import opened Basics
  import opened StaticTiles
  import opened StaticSync
  import opened CtCursor

  /** The names that each entry of the log holds. */
  type Log = nat -> set<string>

  /** Exactly the names of the entries lo..hi. */
  ghost function LogNames(log: Log, lo: nat, hi: nat): set<string>
    decreases hi
  {
    if hi <= lo then {} else LogNames(log, lo, hi - 1) + log(hi - 1)
  }

  lemma {:induction false} LogNamesJoin(log: Log, lo: nat, mid: nat, hi: nat)
    requires lo <= mid <= hi
    ensures LogNames(log, lo, hi) == LogNames(log, lo, mid) + LogNames(log, mid, hi)
    decreases hi
  {
    if mid < hi {
      LogNamesJoin(log, lo, mid, hi - 1);
    }
  }

  lemma {:induction false} EntryInLog(log: Log, lo: nat, hi: nat, i: nat)
    requires lo <= i < hi
    ensures log(i) <= LogNames(log, lo, hi)
    decreases hi
  {
    if i < hi - 1 {
      EntryInLog(log, lo, hi - 1, i);
    }
  }

  // ----- honest answers -----

  /** Whatever a page returns is decoded to the names the log holds there; it may be short, long or undecodable. */
  ghost predicate HonestPage(log: Log, start: nat, entries: seq<Option<set<string>>>) {
    forall k {:trigger entries[k]} :: 0 <= k < |entries| && entries[k].Some? ==> entries[k].value == log(start + k)
  }

  /** A certificate that can be read and decodes gives the names of its entry. */
  ghost predicate HonestCertificates(log: Log, certs: map<nat, seq<Bytes>>, decode: Decode) {
    forall i {:trigger Readable(certs, decode, i)} :: Readable(certs, decode, i) ==> EntryNames(certs, decode, i) == log(i)
  }

  ghost predicate HonestStatic(log: Log, env: StaticEnv) {
    env.treeSize.Some? ==> HonestCertificates(log, Certificates(env.fetch, env.treeSize.value), env.decode)
  }

  ghost predicate HonestAnswer(log: Log, start: nat, answer: PageEnv) {
    && (answer.Page? ==> HonestPage(log, start, answer.entries))
    && (answer.Unavailable? ==> HonestStatic(log, answer.fallback))
  }

  ghost predicate HonestScript(log: Log, script: Script) {
    forall k: nat, start: nat {:trigger script[k](start)} :: k < |script| ==> HonestAnswer(log, start, script[k](start))
  }

  ghost predicate HonestPass(log: Log, pass: PassEnv) {
    (pass.head.NoHead? ==> HonestStatic(log, pass.head.fallback)) && HonestScript(log, pass.script)
  }

  lemma {:induction false} PageNames(log: Log, start: nat, entries: seq<Option<set<string>>>)
    requires HonestPage(log, start, entries) && forall k :: 0 <= k < |entries| ==> entries[k].Some?
    ensures NamesIn(entries) == LogNames(log, start, start + |entries|)
  {
    if entries != [] {
      PageNames(log, start, entries[..|entries| - 1]);
    }
  }

  lemma {:induction false} CertificateNames(log: Log, certs: map<nat, seq<Bytes>>, decode: Decode, lo: nat, hi: nat)
    requires HonestCertificates(log, certs, decode) && AllReadable(certs, decode, lo, hi)
    ensures RangeNames(certs, decode, lo, hi) == LogNames(log, lo, hi)
    decreases hi
  {
    if lo < hi {
      CertificateNames(log, certs, decode, lo, hi - 1);
      assert Readable(certs, decode, hi - 1);
    }
  }

  // ----- legal landings -----

  /**
   A landing that neither skips nor invents anything: its names are exactly those of its entries, it overwrites the
   cursor iff the tree is smaller than the cursor, and it starts at the cursor, or at the backfill point when there
   is none or it is overwritten.
   */
  ghost predicate Legal(log: Log, initialBackfill: nat, s: Durable, l: Landing) {
    && l.start <= l.next <= l.treeSize
    && l.names == LogNames(log, l.start, l.next)
    && (l.reset <==> Shrunk(s, l.treeSize))
    && l.start == (if s.cursor.Some? && !l.reset then s.cursor.value else Monus(l.treeSize, initialBackfill))
  }

  ghost predicate LegalAll(log: Log, initialBackfill: nat, s: Durable, ls: seq<Landing>)
    decreases |ls|
  {
    ls == [] || (Legal(log, initialBackfill, s, ls[0]) && LegalAll(log, initialBackfill, Do(s, ls[0]), ls[1..]))
  }

  lemma LegalOne(log: Log, initialBackfill: nat, s: Durable, l: Landing)
    requires Legal(log, initialBackfill, s, l)
    ensures LegalAll(log, initialBackfill, s, [l]) && DoAll(s, [l]) == Do(s, l)
  {
    assert [l][1..] == [];
  }

  lemma {:induction false} LegalJoin(log: Log, initialBackfill: nat, s: Durable, a: seq<Landing>, b: seq<Landing>)
    requires LegalAll(log, initialBackfill, s, a) && LegalAll(log, initialBackfill, DoAll(s, a), b)
    ensures LegalAll(log, initialBackfill, s, a + b) && DoAll(s, a + b) == DoAll(DoAll(s, a), b)
    decreases |a|
  {
    if a == [] {
      assert a + b == b;
    } else {
      LegalJoin(log, initialBackfill, Do(s, a[0]), a[1..], b);
      assert (a + b)[1..] == a[1..] + b;
    }
  }

  /** The state is what the landings make of the one before, and each of them is legal. */
  ghost predicate Follows(log: Log, initialBackfill: nat, before: Durable, ls: seq<Landing>, after: Durable) {
    after == DoAll(before, ls) && LegalAll(log, initialBackfill, before, ls)
  }

  lemma StaticFollows(log: Log, s: Durable, env: StaticEnv, budget: nat, initialBackfill: nat)
    requires HonestStatic(log, env)
    ensures var t := StaticPass(s, env, budget, initialBackfill); Follows(log, initialBackfill, s, t.landed, t.state)
  {
    var t := StaticPass(s, env, budget, initialBackfill);
    if t.landed != [] {
      var treeSize := env.treeSize.value;
      var (start, reset) := StartCursor(s.cursor, treeSize, initialBackfill);
      var certs := Certificates(env.fetch, treeSize);
      SyncDelivers(env.fetch, certs, env.decode, treeSize, start, reset, budget);
      CertificateNames(log, certs, env.decode, start, t.landed[0].next);
      LegalOne(log, initialBackfill, s, t.landed[0]);
    }
  }

  /** Whatever the static reader commits follows. */
  ghost predicate ReaderFollows(log: Log, reader: StaticReader) {
    forall s, env, budget: nat, initialBackfill: nat {:trigger reader(s, env, budget, initialBackfill)} :: HonestStatic(log, env) ==>
      var t := reader(s, env, budget, initialBackfill); Follows(log, initialBackfill, s, t.landed, t.state)
  }

  lemma StaticReaderFollows(log: Log, reader: StaticReader)
    requires IsReader(reader)
    ensures ReaderFollows(log, reader)
  {
    forall s, env, budget: nat, initialBackfill: nat {:trigger reader(s, env, budget, initialBackfill)} | HonestStatic(log, env)
      ensures var t := reader(s, env, budget, initialBackfill); Follows(log, initialBackfill, s, t.landed, t.state)
    {
      StaticFollows(log, s, env, budget, initialBackfill);
    }
  }

  /** The loop stands at the stored cursor, or at the backfill point when there is none. */
  predicate Standing(s: Durable, at: At, ask: Ask) {
    at.start <= ask.treeSize && at.start == if s.cursor.Some? then s.cursor.value else Monus(ask.treeSize, ask.initialBackfill)
  }

  lemma PageFollows(log: Log, s: Durable, at: At, ask: Ask, entries: seq<Option<set<string>>>, commit: CommitOutcome)
    requires Standing(s, at, ask) && !Done(at, ask) && HonestPage(log, at.start, entries)
    requires Acceptable(entries, at.start, LastIndex(at.start, ask.budget - at.total, ask.treeSize))
    ensures Legal(log, ask.initialBackfill, s, PageLanding(ask.treeSize, at.start, entries, commit))
  {
    forall k | 0 <= k < |entries| ensures entries[k].Some? {
      assert !Spoils(entries, k);
    }
    PageNames(log, at.start, entries);
  }

  lemma AnswerIsHonest(log: Log, at: At, ask: Ask)
    requires HonestScript(log, ask.script)
    ensures HonestAnswer(log, at.start, Answer(at, ask))
  {
  }

  lemma StepFollows(log: Log, s: Durable, at: At, ask: Ask, reader: StaticReader)
    requires Standing(s, at, ask) && !Done(at, ask) && HonestScript(log, ask.script) && ReaderFollows(log, reader)
    ensures var p := PageStep(s, at, ask, reader);
            && Follows(log, ask.initialBackfill, s, p.landed, p.state)
            && (p.step.Next? ==> Standing(p.state, p.step.at, ask))
  {
    AnswerIsHonest(log, at, ask);
    var p := PageStep(s, at, ask, reader);
    if Answer(at, ask).Page? && p.landed != [] {
      PageFollows(log, s, at, ask, Answer(at, ask).entries, Answer(at, ask).commit);
      LegalOne(log, ask.initialBackfill, s, p.landed[0]);
    }
  }

  lemma {:induction false} PagesFollow(log: Log, s: Durable, at: At, ask: Ask, reader: StaticReader)
    requires Standing(s, at, ask) && HonestScript(log, ask.script) && ReaderFollows(log, reader)
    ensures var t := Pages(s, at, ask, reader); Follows(log, ask.initialBackfill, s, t.landed, t.state)
    decreases MAX_PAGES - at.pages
  {
    if !Done(at, ask) {
      StepFollows(log, s, at, ask, reader);
      var p := PageStep(s, at, ask, reader);
      if p.step.Next? {
        PagesFollow(log, p.state, p.step.at, ask, reader);
        LegalJoin(log, ask.initialBackfill, s, p.landed, Pages(p.state, p.step.at, ask, reader).landed);
      }
    }
  }

  lemma FromStartFollows(log: Log, s: Durable, start: nat, treeSize: nat, commit: CommitOutcome, pass: PassEnv, reader: StaticReader)
    requires HonestScript(log, pass.script) && ReaderFollows(log, reader)
    requires Standing(s, At(start, 0, 0, {}), Ask(treeSize, pass.budget, pass.initialBackfill, pass.script))
    ensures var t := FromStart(s, start, treeSize, commit, pass, reader); Follows(log, pass.initialBackfill, s, t.landed, t.state)
  {
    var t := FromStart(s, start, treeSize, commit, pass, reader);
    if start >= treeSize || pass.budget == 0 {
      if t.landed != [] { LegalOne(log, pass.initialBackfill, s, t.landed[0]); }
    } else {
      PagesFollow(log, s, At(start, 0, 0, {}), Ask(treeSize, pass.budget, pass.initialBackfill, pass.script), reader);
    }
  }

  /** Whatever happens in a pass, its commits form a chain of legal landings, and nothing else changes the state. */
  lemma PassFollows(log: Log, s: Durable, pass: PassEnv, reader: StaticReader)
    requires HonestPass(log, pass) && IsReader(reader)
    ensures var t := Pass(s, pass, reader); Follows(log, pass.initialBackfill, s, t.landed, t.state)
  {
    StaticReaderFollows(log, reader);
    PassFollowsReader(log, s, pass, reader);
  }

  lemma PassFollowsReader(log: Log, s: Durable, pass: PassEnv, reader: StaticReader)
    requires HonestPass(log, pass) && ReaderFollows(log, reader)
    ensures var t := Pass(s, pass, reader); Follows(log, pass.initialBackfill, s, t.landed, t.state)
  {
    if pass.head.Head? {
      var (treeSize, commit) := (pass.head.treeSize, pass.head.commit);
      var backfill := Monus(treeSize, pass.initialBackfill);
      var t := Pass(s, pass, reader);
      if treeSize == 0 {
        if t.landed != [] { LegalOne(log, pass.initialBackfill, s, t.landed[0]); }
      } else if !Shrunk(s, treeSize) {
        FromStartFollows(log, s, if s.cursor.Some? then s.cursor.value else backfill, treeSize, commit, pass, reader);
      } else if !pass.head.resetFails {
        var l := Moved(treeSize, backfill);
        LegalOne(log, pass.initialBackfill, s, l);
        FromStartFollows(log, Do(s, l), backfill, treeSize, commit, pass, reader);
        LegalJoin(log, pass.initialBackfill, s, [l], FromStart(Do(s, l), backfill, treeSize, commit, pass, reader).landed);
      }
    }
  }

  // ----- what legal landings keep -----

  /** Every entry from the last start or reset point up to the cursor has had all its names committed. */
  ghost predicate Covered(log: Log, s: Durable) {
    s.cursor.Some? ==> s.base <= s.cursor.value && LogNames(log, s.base, s.cursor.value) <= s.names
  }

  /** Covered means that no entry of the range is missing a name. */
  lemma CoveredEntry(log: Log, s: Durable, i: nat)
    requires Covered(log, s) && s.cursor.Some? && s.base <= i < s.cursor.value
    ensures log(i) <= s.names
  {
    EntryInLog(log, s.base, s.cursor.value, i);
  }

  /** Nothing else has been committed. */
  ghost predicate Exact(log: Log, s: Durable) {
    if s.cursor.None? then s.names == {} else s.base <= s.cursor.value && s.names == LogNames(log, s.base, s.cursor.value)
  }

  predicate NoReset(ls: seq<Landing>) { forall k :: 0 <= k < |ls| ==> !ls[k].reset }

  lemma LandingKeeps(log: Log, initialBackfill: nat, s: Durable, l: Landing)
    requires Legal(log, initialBackfill, s, l)
    ensures Covered(log, s) ==> Covered(log, Do(s, l))
    ensures Exact(log, s) && !l.reset ==> Exact(log, Do(s, l))
    ensures Do(s, l).cursor == Some(l.next) && s.names <= Do(s, l).names
    ensures Do(s, l).base == if s.cursor.Some? && !l.reset then s.base else l.start
  {
    if s.cursor.Some? && !l.reset && s.base <= s.cursor.value {
      LogNamesJoin(log, s.base, l.start, l.next);
    }
  }

  lemma {:induction false} LandingsKeep(log: Log, initialBackfill: nat, s: Durable, ls: seq<Landing>)
    requires LegalAll(log, initialBackfill, s, ls)
    ensures Covered(log, s) ==> Covered(log, DoAll(s, ls))
    ensures Exact(log, s) && NoReset(ls) ==> Exact(log, DoAll(s, ls))
    ensures s.names <= DoAll(s, ls).names
    decreases |ls|
  {
    if ls != [] {
      LandingKeeps(log, initialBackfill, s, ls[0]);
      LandingsKeep(log, initialBackfill, Do(s, ls[0]), ls[1..]);
    }
  }

  /** Where the covered range starts: at the last reset, else where it started before, else at the first landing. */
  function Anchor(s: Durable, ls: seq<Landing>): nat {
    if ls == [] then s.base
    else if ls[|ls| - 1].reset || (|ls| == 1 && s.cursor.None?) then ls[|ls| - 1].start
    else Anchor(s, ls[..|ls| - 1])
  }

  lemma {:induction false} DoAllButLast(s: Durable, ls: seq<Landing>)
    requires ls != []
    ensures DoAll(s, ls) == Do(DoAll(s, ls[..|ls| - 1]), ls[|ls| - 1])
    decreases |ls|
  {
    if |ls| > 1 {
      DoAllButLast(Do(s, ls[0]), ls[1..]);
      assert ls[1..][..|ls| - 2] == ls[..|ls| - 1][1..];
    }
  }

  lemma {:induction false} AnchorIsBase(s: Durable, ls: seq<Landing>)
    ensures DoAll(s, ls).base == Anchor(s, ls)
    ensures ls != [] ==> DoAll(s, ls).cursor.Some?
  {
    if ls != [] {
      DoAllButLast(s, ls);
      AnchorIsBase(s, ls[..|ls| - 1]);
    }
  }

  // ----- runs -----

  ghost predicate HonestRun(log: Log, passes: seq<PassEnv>) {
    forall k {:trigger passes[k]} :: 0 <= k < |passes| ==> HonestPass(log, passes[k])
  }

  /** What pass k of a run commits. */
  function LandedBy(passes: seq<PassEnv>, history: seq<Durable>, reader: StaticReader, k: nat): seq<Landing>
    requires k < |passes| && |history| == |passes| + 1
  {
    Pass(history[k], passes[k], reader).landed
  }

  lemma StepOfRun(log: Log, passes: seq<PassEnv>, history: seq<Durable>, results: seq<PassResult>, reader: StaticReader, k: nat)
    requires IsRun(passes, history, results, reader) && k < |passes| && HonestRun(log, passes) && IsReader(reader)
    ensures Follows(log, passes[k].initialBackfill, history[k], LandedBy(passes, history, reader, k), history[k + 1])
  {
    assert IsPass(history[k], passes[k], history[k + 1], results[k], reader);
    PassFollows(log, history[k], passes[k], reader);
  }

  lemma StepKeeps(log: Log, passes: seq<PassEnv>, history: seq<Durable>, results: seq<PassResult>, reader: StaticReader, k: nat)
    requires IsRun(passes, history, results, reader) && k < |passes| && HonestRun(log, passes) && IsReader(reader)
    ensures Covered(log, history[k]) ==> Covered(log, history[k + 1])
    ensures Exact(log, history[k]) && NoReset(LandedBy(passes, history, reader, k)) ==> Exact(log, history[k + 1])
    ensures history[k].names <= history[k + 1].names
  {
    StepOfRun(log, passes, history, results, reader, k);
    LandingsKeep(log, passes[k].initialBackfill, history[k], LandedBy(passes, history, reader, k));
  }

  /** Coverage holds in every durable state of every run. */
  lemma {:induction false} RunIsCovered(
      log: Log, passes: seq<PassEnv>, history: seq<Durable>, results: seq<PassResult>, reader: StaticReader, n: nat)
    requires IsRun(passes, history, results, reader) && HonestRun(log, passes) && IsReader(reader) && n <= |passes|
    ensures Covered(log, history[n])
  {
    if n > 0 {
      RunIsCovered(log, passes, history, results, reader, n - 1);
      StepKeeps(log, passes, history, results, reader, n - 1);
    }
  }

  /** No committed name is ever lost. */
  lemma {:induction false} RunKeepsNames(
      log: Log, passes: seq<PassEnv>, history: seq<Durable>, results: seq<PassResult>, reader: StaticReader, j: nat, n: nat)
    requires IsRun(passes, history, results, reader) && HonestRun(log, passes) && IsReader(reader) && j <= n <= |passes|
    ensures history[j].names <= history[n].names
    decreases n
  {
    if j < n {
      RunKeepsNames(log, passes, history, results, reader, j, n - 1);
      StepKeeps(log, passes, history, results, reader, n - 1);
    }
  }

  /** As long as the cursor is never reset, the names are exactly those of the entries from the first start to the cursor. */
  lemma {:induction false} RunIsExact(
      log: Log, passes: seq<PassEnv>, history: seq<Durable>, results: seq<PassResult>, reader: StaticReader, n: nat)
    requires IsRun(passes, history, results, reader) && HonestRun(log, passes) && IsReader(reader) && n <= |passes|
    requires forall k :: 0 <= k < n ==> NoReset(LandedBy(passes, history, reader, k))
    ensures Exact(log, history[n])
  {
    if n > 0 {
      RunIsExact(log, passes, history, results, reader, n - 1);
      StepKeeps(log, passes, history, results, reader, n - 1);
    }
  }

  lemma {:induction false} LegalAt(log: Log, initialBackfill: nat, s: Durable, ls: seq<Landing>, i: nat)
    requires LegalAll(log, initialBackfill, s, ls) && i < |ls|
    ensures Legal(log, initialBackfill, DoAll(s, ls[..i]), ls[i])
    decreases i
  {
    if i > 0 {
      LegalAt(log, initialBackfill, Do(s, ls[0]), ls[1..], i - 1);
      assert ls[1..][..i - 1] == ls[..i][1..];
    }
  }

  lemma {:induction false} AnchorWithoutReset(s: Durable, ls: seq<Landing>)
    requires NoReset(ls)
    ensures Anchor(s, ls) == if s.cursor.None? && ls != [] then ls[0].start else s.base
  {
    if |ls| > 1 || (ls != [] && s.cursor.Some?) {
      AnchorWithoutReset(s, ls[..|ls| - 1]);
    }
  }

  lemma {:induction false} LastReset(s: Durable, ls: seq<Landing>) returns (i: nat)
    requires !NoReset(ls)
    ensures i < |ls| && ls[i].reset && NoReset(ls[i + 1..]) && Anchor(s, ls) == ls[i].start
  {
    i := |ls| - 1;
    if !ls[i].reset {
      var before := ls[..i];
      i := LastReset(s, before);
      assert ls[i + 1..] == before[i + 1..] + [ls[|ls| - 1]];
    }
  }

  /** Without a reset, a pass only moves the base when there was no cursor: to its first landing, the backfill point. */
  lemma BaseMovesWithoutReset(
      log: Log, passes: seq<PassEnv>, history: seq<Durable>, results: seq<PassResult>, reader: StaticReader, k: nat)
    requires IsRun(passes, history, results, reader) && HonestRun(log, passes) && IsReader(reader) && k < |passes|
    requires NoReset(LandedBy(passes, history, reader, k))
    ensures var ls := LandedBy(passes, history, reader, k);
            if history[k].cursor.None? && ls != []
            then history[k + 1].base == ls[0].start == Monus(ls[0].treeSize, passes[k].initialBackfill)
            else history[k + 1].base == history[k].base
  {
    var ls := LandedBy(passes, history, reader, k);
    StepOfRun(log, passes, history, results, reader, k);
    AnchorIsBase(history[k], ls);
    AnchorWithoutReset(history[k], ls);
  }

  /** With resets, the base is the backfill point of the last one, which met a tree smaller than the cursor. */
  lemma BaseMovesAtReset(
      log: Log, passes: seq<PassEnv>, history: seq<Durable>, results: seq<PassResult>, reader: StaticReader, k: nat)
    returns (i: nat)
    requires IsRun(passes, history, results, reader) && HonestRun(log, passes) && IsReader(reader) && k < |passes|
    requires !NoReset(LandedBy(passes, history, reader, k))
    ensures var ls := LandedBy(passes, history, reader, k);
            && i < |ls| && ls[i].reset && NoReset(ls[i + 1..])
            && history[k + 1].base == ls[i].start == Monus(ls[i].treeSize, passes[k].initialBackfill)
            && Shrunk(DoAll(history[k], ls[..i]), ls[i].treeSize)
  {
    var ls := LandedBy(passes, history, reader, k);
    StepOfRun(log, passes, history, results, reader, k);
    AnchorIsBase(history[k], ls);
    i := LastReset(history[k], ls);
    LegalAt(log, passes[k].initialBackfill, history[k], ls, i);
  }

  // ----- what a pass reports -----

  function Entries(l: Landing): nat { Monus(l.next, l.start) }

  function AllEntries(ls: seq<Landing>): nat {
    if ls == [] then 0 else Entries(ls[0]) + AllEntries(ls[1..])
  }

  function ReportedEntries(ls: seq<Landing>): nat {
    if ls == [] then 0 else (if ls[0].reported then Entries(ls[0]) else 0) + ReportedEntries(ls[1..])
  }

  function ReportedNames(ls: seq<Landing>): set<string> {
    if ls == [] then {} else (if ls[0].reported then ls[0].names else {}) + ReportedNames(ls[1..])
  }

  /** Every commit that covered entries was reported as one. */
  predicate AllReported(ls: seq<Landing>) {
    forall k :: 0 <= k < |ls| && Entries(ls[k]) > 0 ==> ls[k].reported
  }

  /** The entries and names that a pass claims to have committed; a pass that fails claims none. */
  function Claimed(r: PassResult): nat { if r.Complete? || r.Partial? then r.entries else 0 }

  function ClaimedNames(r: PassResult): set<string> { if r.Complete? || r.Partial? then r.names else {} }

  lemma {:induction false} SumsAgreeIff(ls: seq<Landing>)
    ensures ReportedEntries(ls) <= AllEntries(ls)
    ensures ReportedEntries(ls) == AllEntries(ls) <==> AllReported(ls)
  {
    if ls != [] {
      SumsAgreeIff(ls[1..]);
      assert AllReported(ls) <==> (Entries(ls[0]) > 0 ==> ls[0].reported) && AllReported(ls[1..]) by {
        assert forall k :: 0 <= k < |ls| - 1 ==> ls[1..][k] == ls[k + 1];
        assert forall k :: 1 <= k < |ls| ==> ls[k] == ls[1..][k - 1];
      }
    }
  }

  /** The result claims exactly the reported landings, on top of what was claimed before; a failure claims nothing. */
  ghost predicate Claims(r: PassResult, total: nat, names: set<string>, ls: seq<Landing>) {
    match r
    case Crashed => true
    case Bailed => total == 0 && ReportedEntries(ls) == 0
    case Complete(entries, _, found) => entries == total + ReportedEntries(ls) && found == names + ReportedNames(ls)
    case Partial(entries, _, found) => entries == total + ReportedEntries(ls) && found == names + ReportedNames(ls) && entries > 0
  }

  /** Only the last commit of a pass can go unreported: what follows it is never attempted. */
  predicate OnlyLastUnreported(ls: seq<Landing>) {
    forall k :: 0 <= k < |ls| - 1 ==> ls[k].reported
  }

  ghost predicate ReaderClaims(reader: StaticReader) {
    forall s, env, budget: nat, initialBackfill: nat {:trigger reader(s, env, budget, initialBackfill)} ::
      var t := reader(s, env, budget, initialBackfill);
      if t.batch.None? then ReportedEntries(t.landed) == 0 && ReportedNames(t.landed) == {} && |t.landed| <= 1
      else t.batch.value.entriesProcessed == ReportedEntries(t.landed) <= budget && t.batch.value.names == ReportedNames(t.landed) && |t.landed| <= 1
  }

  lemma OneReported(l: Landing)
    ensures ReportedEntries([l]) == if l.reported then Entries(l) else 0
    ensures ReportedNames([l]) == if l.reported then l.names else {}
  {
    assert [l][1..] == [];
  }

  lemma StaticReaderClaims(reader: StaticReader)
    requires IsReader(reader)
    ensures ReaderClaims(reader)
  {
    forall s, env, budget: nat, initialBackfill: nat {:trigger reader(s, env, budget, initialBackfill)}
      ensures var t := reader(s, env, budget, initialBackfill);
        if t.batch.None? then ReportedEntries(t.landed) == 0 && ReportedNames(t.landed) == {} && |t.landed| <= 1
        else t.batch.value.entriesProcessed == ReportedEntries(t.landed) <= budget && t.batch.value.names == ReportedNames(t.landed) && |t.landed| <= 1
    {
      var t := StaticPass(s, env, budget, initialBackfill);
      if t.landed != [] {
        var treeSize := env.treeSize.value;
        var (start, reset) := StartCursor(s.cursor, treeSize, initialBackfill);
        SyncDelivers(env.fetch, Certificates(env.fetch, treeSize), env.decode, treeSize, start, reset, budget);
        OneReported(t.landed[0]);
      }
    }
  }

  lemma ClaimsBehind(r: PassResult, total: nat, names: set<string>, l: Landing, ls: seq<Landing>)
    requires l.reported && Entries(l) > 0 && Claims(r, total + Entries(l), names + l.names, ls) && OnlyLastUnreported(ls)
    ensures Claims(r, total, names, [l] + ls) && OnlyLastUnreported([l] + ls)
  {
    assert ([l] + ls)[1..] == ls;
    assert forall k :: 0 < k < |[l] + ls| ==> ([l] + ls)[k] == ls[k - 1];
  }

  lemma StepClaims(s: Durable, at: At, ask: Ask, reader: StaticReader)
    requires ReaderClaims(reader) && !Done(at, ask) && (at.total == 0 ==> at.names == {})
    ensures var p := PageStep(s, at, ask, reader);
            match p.step
            case Stop(result) => Claims(result, at.total, at.names, p.landed) && OnlyLastUnreported(p.landed)
            case Next(next) =>
              && |p.landed| == 1 && p.landed[0].reported && Entries(p.landed[0]) > 0
              && next.total == at.total + Entries(p.landed[0]) <= ask.budget && next.names == at.names + p.landed[0].names
              && next.start == at.start + Entries(p.landed[0])
  {
    var p := PageStep(s, at, ask, reader);
    if Answer(at, ask).Page? && p.landed != [] {
      OneReported(p.landed[0]);
    }
  }

  lemma {:induction false} PagesClaim(s: Durable, at: At, ask: Ask, reader: StaticReader)
    requires ReaderClaims(reader) && (at.total == 0 ==> at.names == {})
    ensures var t := Pages(s, at, ask, reader); Claims(t.result, at.total, at.names, t.landed) && OnlyLastUnreported(t.landed)
    decreases MAX_PAGES - at.pages
  {
    if !Done(at, ask) {
      StepClaims(s, at, ask, reader);
      var p := PageStep(s, at, ask, reader);
      if p.step.Next? {
        PagesClaim(p.state, p.step.at, ask, reader);
        assert p.landed == [p.landed[0]];
        ClaimsBehind(Pages(p.state, p.step.at, ask, reader).result, at.total, at.names, p.landed[0], Pages(p.state, p.step.at, ask, reader).landed);
      }
    }
  }

  lemma PassClaims(s: Durable, pass: PassEnv, reader: StaticReader)
    requires ReaderClaims(reader)
    ensures var t := Pass(s, pass, reader); Claims(t.result, 0, {}, t.landed) && OnlyLastUnreported(t.landed)
  {
    if pass.head.Head? && pass.head.treeSize > 0 {
      var treeSize := pass.head.treeSize;
      var backfill := Monus(treeSize, pass.initialBackfill);
      if !Shrunk(s, treeSize) {
        FromStartClaims(s, if s.cursor.Some? then s.cursor.value else backfill, treeSize, pass, reader);
      } else if !pass.head.resetFails {
        var l := Moved(treeSize, backfill);
        FromStartClaims(Do(s, l), backfill, treeSize, pass, reader);
        EmptyClaimsBehind(l, FromStart(Do(s, l), backfill, treeSize, pass.head.commit, pass, reader));
      }
    } else {
      var t := Pass(s, pass, reader);
      if t.landed != [] { OneReported(t.landed[0]); }
    }
  }

  lemma FromStartClaims(s: Durable, start: nat, treeSize: nat, pass: PassEnv, reader: StaticReader)
    requires ReaderClaims(reader) && pass.head.Head?
    ensures var t := FromStart(s, start, treeSize, pass.head.commit, pass, reader);
            Claims(t.result, 0, {}, t.landed) && OnlyLastUnreported(t.landed)
  {
    var t := FromStart(s, start, treeSize, pass.head.commit, pass, reader);
    if start >= treeSize || pass.budget == 0 {
      if t.landed != [] { OneReported(t.landed[0]); }
    } else {
      PagesClaim(s, At(start, 0, 0, {}), Ask(treeSize, pass.budget, pass.initialBackfill, pass.script), reader);
    }
  }

  lemma EmptyClaimsBehind(l: Landing, t: Trace)
    requires l.reported && Entries(l) == 0 && l.names == {} && Claims(t.result, 0, {}, t.landed) && OnlyLastUnreported(t.landed)
    ensures Claims(t.result, 0, {}, [l] + t.landed) && OnlyLastUnreported([l] + t.landed)
  {
    assert ([l] + t.landed)[1..] == t.landed;
    assert forall k :: 0 < k < |[l] + t.landed| ==> ([l] + t.landed)[k] == t.landed[k - 1];
  }

  lemma {:induction false} CursorAfter(log: Log, initialBackfill: nat, s: Durable, ls: seq<Landing>)
    requires LegalAll(log, initialBackfill, s, ls) && NoReset(ls) && s.cursor.Some?
    ensures DoAll(s, ls).cursor == Some(s.cursor.value + AllEntries(ls))
    decreases |ls|
  {
    if ls != [] {
      CursorAfter(log, initialBackfill, Do(s, ls[0]), ls[1..]);
    }
  }

  lemma {:induction false} CommittedNamesAreKept(s: Durable, ls: seq<Landing>)
    ensures s.names + ReportedNames(ls) <= DoAll(s, ls).names
    decreases |ls|
  {
    if ls != [] {
      CommittedNamesAreKept(Do(s, ls[0]), ls[1..]);
    }
  }

  /**
   What a pass reports is never more than what it committed, and exactly that iff no commit with entries went
   unreported, which can only be its last one. A crash reports nothing.
   */
  lemma ReportIsExactIff(log: Log, s: Durable, pass: PassEnv, reader: StaticReader)
    requires HonestPass(log, pass) && IsReader(reader) && !Pass(s, pass, reader).result.Crashed?
    ensures var t := Pass(s, pass, reader);
            && Claimed(t.result) <= AllEntries(t.landed)
            && (Claimed(t.result) == AllEntries(t.landed) <==> AllReported(t.landed))
            && OnlyLastUnreported(t.landed)
            && ClaimedNames(t.result) <= t.state.names
  {
    var t := Pass(s, pass, reader);
    StaticReaderClaims(reader);
    PassClaims(s, pass, reader);
    SumsAgreeIff(t.landed);
    PassFollows(log, s, pass, reader);
    CommittedNamesAreKept(s, t.landed);
  }

  /** Without a reset a stored cursor moves by exactly the reported entries iff no commit with entries went unreported. */
  lemma CursorMovesAsReportedIff(log: Log, s: Durable, pass: PassEnv, reader: StaticReader)
    requires HonestPass(log, pass) && IsReader(reader) && !Pass(s, pass, reader).result.Crashed?
    requires s.cursor.Some? && NoReset(Pass(s, pass, reader).landed)
    ensures var t := Pass(s, pass, reader);
            && t.state.cursor == Some(s.cursor.value + AllEntries(t.landed))
            && (t.state.cursor == Some(s.cursor.value + Claimed(t.result)) <==> AllReported(t.landed))
  {
    var t := Pass(s, pass, reader);
    ReportIsExactIff(log, s, pass, reader);
    PassFollows(log, s, pass, reader);
    CursorAfter(log, pass.initialBackfill, s, t.landed);
  }

  /** A first pass whose only page is committed at the deadline: it fails, and yet cursor and names have moved. */
  lemma FailedPassMovesTheCursor(reader: StaticReader, name: string)
    ensures var pass := PassEnv(Head(1, false, Landed), [_ => Page([Some({name})], Unreported)], 5, 5);
            var t := Pass(Fresh(), pass, reader);
            t.result == Bailed && t.state == Durable(Some(1), {name}, 0)
  {
    var page := [Some({name})];
    assert NamesIn(page) == {name} by {
      assert page[..0] == [];
    }
    assert !Spoils(page, 0) by {
      assert page[..0] == [];
    }
    var pass := PassEnv(Head(1, false, Landed), [_ => Page(page, Unreported)], 5, 5);
    assert Answer(At(0, 0, 0, {}), Ask(1, 5, 5, pass.script)) == Page(page, Unreported);
  }

  // ----- where a pass stops -----

  lemma StepStops(s: Durable, at: At, ask: Ask, reader: StaticReader, first: nat)
    requires ReaderClaims(reader) && !Done(at, ask) && at.start == first + at.total && at.total <= ask.budget
    ensures var p := PageStep(s, at, ask, reader);
            p.step.Stop? ==>
              && Claimed(p.step.result) <= ask.budget
              && (p.step.result.Complete? ==> p.fellBack)
  {
  }

  /** A pass stays within its budget, and finishes only at the end of the tree, of its budget, of its pages, or by falling back. */
  lemma {:induction false} PagesStop(s: Durable, at: At, ask: Ask, reader: StaticReader, first: nat)
    requires ReaderClaims(reader) && at.start == first + at.total && at.total <= ask.budget && at.pages <= MAX_PAGES
    requires at.total == 0 ==> at.names == {}
    ensures var t := Pages(s, at, ask, reader);
            && Claimed(t.result) <= ask.budget
            && (t.result.Complete? && !t.fellBack ==>
                first + t.result.entries >= ask.treeSize || t.result.entries == ask.budget || t.result.batches == MAX_PAGES)
    decreases MAX_PAGES - at.pages
  {
    if !Done(at, ask) {
      StepStops(s, at, ask, reader, first);
      StepClaims(s, at, ask, reader);
      var p := PageStep(s, at, ask, reader);
      if p.step.Next? {
        PagesStop(p.state, p.step.at, ask, reader, first);
      }
    }
  }
}
