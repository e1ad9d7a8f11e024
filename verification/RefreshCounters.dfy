/**
 Replay-safe sighting counters (src/db.rs). Passive sources are read page by page; every page is one transaction, a
 page may be replayed, and each source has a refresh session whose generation marks what it wrote.
 */
module RefreshCounters {
  import opened Basics
  import opened Orders
  import opened Ranking

  const ABANDONED_AFTER_SECS: int := 90 * 24 * 60 * 60
  const GC_BATCH: nat := 256

  // ----- tables -----

  /** A refresh session belongs to one root domain and one source. */
  type SessionKey = (string, string)

  datatype Session = Session(startedAt: int, updatedAt: int, generation: nat, active: bool)

  type Sessions = map<SessionKey, Session>

  datatype Observation = Observation(fqdn: string, kind: string, source: string, value: string)

  type EvidenceKey = (string, Observation)

  datatype Evidence = Evidence(firstSeen: int, lastSeen: int, timesSeen: nat, generation: nat)

  type EvidenceTable = map<EvidenceKey, Evidence>

  // ----- sessions -----

  /** The order in which abandoned sessions are collected: least recently updated first. */
  predicate Older(sessions: Sessions, a: SessionKey, b: SessionKey) {
    var x, y := if a in sessions then sessions[a].updatedAt else 0, if b in sessions then sessions[b].updatedAt else 0;
    if x != y then x < y
    else if a.0 != b.0 then CompareStrings(a.0, b.0) == Less
    else CompareStrings(a.1, b.1) == Less
  }

  function ByAge(sessions: Sessions): (SessionKey, SessionKey) -> bool {
    (a, b) => Older(sessions, a, b)
  }

  lemma AgeIsStrict(sessions: Sessions)
    ensures StrictOrder(ByAge(sessions))
  {
    StringsTotal();
    var before := ByAge(sessions);
    forall x, y ensures (before(x, y) ==> !before(y, x)) && (before(x, y) || before(y, x) || x == y) {
      assert CompareStrings(x.0, y.0) == CompareStrings(y.0, x.0).Reverse();
      assert CompareStrings(x.1, y.1) == CompareStrings(y.1, x.1).Reverse();
      assert CompareStrings(x.0, y.0) == Equal <==> x.0 == y.0;
      assert CompareStrings(x.1, y.1) == Equal <==> x.1 == y.1;
    }
    forall x, y, z | before(x, y) && before(y, z) ensures before(x, z) {
      assert CompareStrings(x.0, y.0) == Less && CompareStrings(y.0, z.0) == Less ==> CompareStrings(x.0, z.0) == Less;
      assert CompareStrings(x.1, y.1) == Less && CompareStrings(y.1, z.1) == Less ==> CompareStrings(x.1, z.1) == Less;
      assert CompareStrings(x.0, y.0) == CompareStrings(y.0, x.0).Reverse();
      assert CompareStrings(x.0, y.0) == Equal <==> x.0 == y.0;
    }
  }

  function Abandoned(sessions: Sessions, now: int): set<SessionKey> {
    set k | k in sessions && sessions[k].active && sessions[k].updatedAt < now - ABANDONED_AFTER_SECS
  }

  function Deactivate(sessions: Sessions, keys: set<SessionKey>, now: int): Sessions {
    map k | k in sessions :: if k in keys then sessions[k].(active := false, updatedAt := now) else sessions[k]
  }

  ghost predicate Collects(sessions: Sessions, now: int, closed: seq<SessionKey>) {
    Best(ByAge(sessions), Abandoned(sessions, now), GC_BATCH, closed)
  }

  /** The sessions after the longest abandoned ones have been closed, a bounded number at a time. */
  ghost function Swept(sessions: Sessions, now: int): Sessions {
    AgeIsStrict(sessions);
    assert exists closed :: Collects(sessions, now, closed) by {
      var closed := BestExists(ByAge(sessions), Abandoned(sessions, now), GC_BATCH);
      assert Collects(sessions, now, closed);
    }
    var closed :| Collects(sessions, now, closed);
    Deactivate(sessions, Elements(closed), now)
  }

  lemma SweptIs(sessions: Sessions, now: int, closed: seq<SessionKey>)
    requires Collects(sessions, now, closed)
    ensures Swept(sessions, now) == Deactivate(sessions, Elements(closed), now)
  {
    AgeIsStrict(sessions);
    forall other | Collects(sessions, now, other) ensures other == closed {
      BestUnique(ByAge(sessions), Abandoned(sessions, now), GC_BATCH, other, closed);
    }
  }

  /** Opening a session: a new generation unless one is under way. */
  function Opened(sessions: Sessions, key: SessionKey, now: int): Sessions {
    var session :=
      if key !in sessions then Session(now, now, 1, true)
      else if sessions[key].active then sessions[key].(updatedAt := now)
      else Session(now, now, sessions[key].generation + 1, true);
    sessions[key := session]
  }

  // ----- evidence -----

  /** A page of a passive source, whose rows all carry that source, or observations that no session stands for. */
  datatype Batch = FromSource(source: string, names: seq<string>) | Plain(rows: seq<Observation>)

  function PassiveLabel(source: string): string { "passive:" + source }

  function Rows(batch: Batch): seq<Observation> {
    match batch
    case FromSource(source, names) => seq(|names|, i requires 0 <= i < |names| => Observation(names[i], "passive", PassiveLabel(source), ""))
    case Plain(rows) => rows
  }

  /** The session that writes a batch. */
  function Writer(root: string, batch: Batch): Option<SessionKey> {
    match batch case FromSource(source, _) => Some((root, source)) case Plain(_) => None
  }

  /** One row: a refresh counts it unless its generation has written it last; other writes count only new rows. */
  function WriteRow(table: EvidenceTable, key: EvidenceKey, refresh: Option<nat>, now: int): EvidenceTable {
    var generation := if refresh.Some? then refresh.value else 0;
    if key !in table then table[key := Evidence(now, now, 1, generation)]
    else
      var row := table[key];
      if refresh.None? then table[key := row.(lastSeen := now)]
      else
        var more := if row.generation == generation then 0 else 1;
        table[key := row.(lastSeen := now, timesSeen := row.timesSeen + more, generation := generation)]
  }

  function WriteRows(table: EvidenceTable, root: string, refresh: Option<nat>, page: seq<Observation>, now: int): EvidenceTable {
    if page == [] then table
    else WriteRow(WriteRows(table, root, refresh, page[..|page| - 1], now), (root, page[|page| - 1]), refresh, now)
  }

  function Names(page: seq<Observation>): set<string> {
    if page == [] then {} else Names(page[..|page| - 1]) + {page[|page| - 1].fqdn}
  }

  lemma OneMoreName(names: set<string>, name: string)
    ensures |names + {name}| == |names| + if name in names then 0 else 1
  {
    if name in names { assert names + {name} == names; }
  }

  lemma OneMoreRow(table: EvidenceTable, root: string, refresh: Option<nat>, page: seq<Observation>, k: nat, now: int)
    requires k < |page|
    ensures WriteRows(table, root, refresh, page[..k + 1], now)
         == WriteRow(WriteRows(table, root, refresh, page[..k], now), (root, page[k]), refresh, now)
    ensures Names(page[..k + 1]) == Names(page[..k]) + {page[k].fqdn}
  {
    assert page[..k + 1][..k] == page[..k];
  }

  // ----- history -----

  /** Who wrote a row: a session at a generation, or nobody's session. */
  datatype Write = Write(session: Option<SessionKey>, generation: nat)

  type History = map<EvidenceKey, seq<Write>>

  function Generations(writes: seq<Write>): seq<nat> {
    seq(|writes|, i requires 0 <= i < |writes| => writes[i].generation)
  }

  /** How often a row changes hands between generations, the first write included. */
  function Changes(w: seq<nat>): nat {
    if |w| <= 1 then |w|
    else Changes(w[..|w| - 1]) + if w[|w| - 1] != w[|w| - 2] then 1 else 0
  }

  /** What a write adds to the history of its row. */
  function Recorded(history: History, key: EvidenceKey, session: Option<SessionKey>, generation: nat): History {
    if key !in history then history[key := [Write(session, generation)]]
    else if session.None? then history
    else history[key := history[key] + [Write(session, generation)]]
  }

  function RecordedAll(history: History, root: string, session: Option<SessionKey>, generation: nat, page: seq<Observation>): History {
    if page == [] then history
    else Recorded(RecordedAll(history, root, session, generation, page[..|page| - 1]), (root, page[|page| - 1]), session, generation)
  }

  /** Only the session that a row's own key names writes it, except that anyone may have created it. */
  ghost predicate Attributed(key: EvidenceKey, writes: seq<Write>) {
    && (forall i :: 0 <= i < |writes| && writes[i].session.Some? ==> key.0 == writes[i].session.value.0 && key.1.source == PassiveLabel(writes[i].session.value.1))
    && (forall i :: 0 <= i < |writes| && writes[i].session.None? ==> i == 0 && writes[i].generation == 0)
  }

  ghost predicate AllAttributed(history: History) {
    forall k :: k in history ==> Attributed(k, history[k])
  }

  /** Two sessions never share a row. */
  lemma OneSessionPerRow(key: EvidenceKey, writes: seq<Write>, i: nat, j: nat)
    requires Attributed(key, writes) && i < |writes| && j < |writes| && writes[i].session.Some? && writes[j].session.Some?
    ensures writes[i].session == writes[j].session
  {
    var a, b := writes[i].session.value, writes[j].session.value;
    assert PassiveLabel(a.1)[8..] == a.1 && PassiveLabel(b.1)[8..] == b.1;
  }

  lemma {:induction false} PageAttributes(history: History, root: string, session: Option<SessionKey>, generation: nat, page: seq<Observation>)
    requires AllAttributed(history)
    requires session.Some? ==> session.value.0 == root && forall o :: o in page ==> o.source == PassiveLabel(session.value.1)
    requires session.None? ==> generation == 0
    ensures AllAttributed(RecordedAll(history, root, session, generation, page))
  {
    if page != [] {
      assert forall o :: o in page[..|page| - 1] ==> o in page;
      PageAttributes(history, root, session, generation, page[..|page| - 1]);
    }
  }

  /** Writes of one session never go back to an earlier generation, nor beyond its present one. */
  ghost predicate Forward(sessions: Sessions, writes: seq<Write>) {
    && (forall i :: 0 <= i < |writes| && writes[i].session.Some? ==>
         writes[i].session.value in sessions && 1 <= writes[i].generation <= sessions[writes[i].session.value].generation)
    && (forall i, j :: 0 <= i < j < |writes| && writes[i].session.Some? && writes[i].session == writes[j].session ==>
         writes[i].generation <= writes[j].generation)
  }

  /** The row counts the changes of generation, and holds the last one. */
  ghost predicate Counts(row: Evidence, writes: seq<Write>) {
    writes != [] && row.timesSeen == Changes(Generations(writes)) && row.generation == writes[|writes| - 1].generation
  }

  ghost predicate Consistent(sessions: Sessions, table: EvidenceTable, history: History) {
    && history.Keys == table.Keys
    && (forall k :: k in table ==> Counts(table[k], history[k]) && Forward(sessions, history[k]))
  }

  /** Generations never go back, and no session is lost. */
  ghost predicate Advances(before: Sessions, after: Sessions) {
    forall k :: k in before ==> k in after && before[k].generation <= after[k].generation
  }

  lemma AdvancingKeeps(before: Sessions, after: Sessions, table: EvidenceTable, history: History)
    requires Consistent(before, table, history) && Advances(before, after)
    ensures Consistent(after, table, history)
  {
  }

  lemma MoreChanges(writes: seq<Write>, w: Write)
    requires writes != []
    ensures Changes(Generations(writes + [w]))
         == Changes(Generations(writes)) + if w.generation != writes[|writes| - 1].generation then 1 else 0
  {
    assert Generations(writes + [w])[..|writes|] == Generations(writes);
  }

  /** A refresh of a row that exists. */
  lemma RefreshKeeps(sessions: Sessions, row: Evidence, writes: seq<Write>, key: SessionKey, now: int)
    requires Counts(row, writes) && Forward(sessions, writes) && key in sessions && sessions[key].generation >= 1
    ensures var g := sessions[key].generation;
            var more := if row.generation == g then 0 else 1;
            var after := writes + [Write(Some(key), g)];
            && Counts(row.(lastSeen := now, timesSeen := row.timesSeen + more, generation := g), after)
            && Forward(sessions, after)
  {
    MoreChanges(writes, Write(Some(key), sessions[key].generation));
  }

  /** The first write of a row. */
  lemma FirstWriteKeeps(sessions: Sessions, session: Option<SessionKey>, now: int)
    requires session.Some? ==> session.value in sessions && sessions[session.value].generation >= 1
    ensures var generation := if session.Some? then sessions[session.value].generation else 0;
            Counts(Evidence(now, now, 1, generation), [Write(session, generation)]) && Forward(sessions, [Write(session, generation)])
  {
    var generation := if session.Some? then sessions[session.value].generation else 0;
    assert Generations([Write(session, generation)]) == [generation];
    assert Changes([generation]) == 1;
  }

  lemma RowReplaced(sessions: Sessions, table: EvidenceTable, history: History, key: EvidenceKey, row: Evidence, writes: seq<Write>)
    requires Consistent(sessions, table, history) && Counts(row, writes) && Forward(sessions, writes)
    ensures Consistent(sessions, table[key := row], history[key := writes])
  {
  }

  lemma NewRowKeeps(sessions: Sessions, table: EvidenceTable, history: History, key: EvidenceKey, session: Option<SessionKey>, now: int)
    requires Consistent(sessions, table, history) && key !in table
    requires session.Some? ==> session.value in sessions && sessions[session.value].generation >= 1
    ensures var generation := if session.Some? then sessions[session.value].generation else 0;
            Consistent(sessions, table[key := Evidence(now, now, 1, generation)], history[key := [Write(session, generation)]])
  {
    var generation := if session.Some? then sessions[session.value].generation else 0;
    FirstWriteKeeps(sessions, session, now);
    RowReplaced(sessions, table, history, key, Evidence(now, now, 1, generation), [Write(session, generation)]);
  }

  lemma RefreshedRowKeeps(sessions: Sessions, table: EvidenceTable, history: History, key: EvidenceKey, session: SessionKey, now: int)
    requires Consistent(sessions, table, history) && key in table && session in sessions && sessions[session].generation >= 1
    ensures var g := sessions[session].generation;
            Consistent(sessions, WriteRow(table, key, Some(g), now), history[key := history[key] + [Write(Some(session), g)]])
  {
    var row, g := table[key], sessions[session].generation;
    assert Counts(row, history[key]) && Forward(sessions, history[key]);
    RefreshKeeps(sessions, row, history[key], session, now);
    var more := if row.generation == g then 0 else 1;
    var after := row.(lastSeen := now, timesSeen := row.timesSeen + more, generation := g);
    RowReplaced(sessions, table, history, key, after, history[key] + [Write(Some(session), g)]);
  }

  lemma TouchedRowKeeps(sessions: Sessions, table: EvidenceTable, history: History, key: EvidenceKey, now: int)
    requires Consistent(sessions, table, history) && key in table
    ensures Consistent(sessions, table[key := table[key].(lastSeen := now)], history)
  {
    assert Counts(table[key], history[key]) && Forward(sessions, history[key]);
  }

  lemma RowKeeps(sessions: Sessions, table: EvidenceTable, history: History, key: EvidenceKey, session: Option<SessionKey>, now: int)
    requires Consistent(sessions, table, history) && (session.Some? ==> session.value in sessions && sessions[session.value].generation >= 1)
    ensures var refresh := if session.Some? then Some(sessions[session.value].generation) else None;
            var generation := if refresh.Some? then refresh.value else 0;
            Consistent(sessions, WriteRow(table, key, refresh, now), Recorded(history, key, session, generation))
  {
    if key !in table {
      NewRowKeeps(sessions, table, history, key, session, now);
    } else if session.Some? {
      RefreshedRowKeeps(sessions, table, history, key, session.value, now);
    } else {
      TouchedRowKeeps(sessions, table, history, key, now);
    }
  }

  lemma {:induction false} PageKeeps(
      sessions: Sessions, table: EvidenceTable, history: History, root: string, session: Option<SessionKey>, page: seq<Observation>, now: int)
    requires Consistent(sessions, table, history) && (session.Some? ==> session.value in sessions && sessions[session.value].generation >= 1)
    ensures var refresh := if session.Some? then Some(sessions[session.value].generation) else None;
            var generation := if refresh.Some? then refresh.value else 0;
            Consistent(sessions, WriteRows(table, root, refresh, page, now), RecordedAll(history, root, session, generation, page))
  {
    if page != [] {
      var refresh := if session.Some? then Some(sessions[session.value].generation) else None;
      var generation := if refresh.Some? then refresh.value else 0;
      var front, last := page[..|page| - 1], (root, page[|page| - 1]);
      PageKeeps(sessions, table, history, root, session, front, now);
      RowKeeps(sessions, WriteRows(table, root, refresh, front, now), RecordedAll(history, root, session, generation, front), last, session, now);
    }
  }

  // ----- the store -----

  /** The tables, and the history of their evidence rows, which the program does not store. */
  datatype Tables = Tables(sessions: Sessions, names: set<string>, evidence: EvidenceTable, history: History)

  function NoTables(): Tables { Tables(map[], {}, map[], map[]) }

  ghost predicate Sound(t: Tables) {
    && Consistent(t.sessions, t.evidence, t.history) && AllAttributed(t.history)
    && forall k :: k in t.sessions ==> t.sessions[k].generation >= 1
  }

  /** One page in one transaction, under the session of its source. */
  ghost function Inserted(t: Tables, root: string, batch: Batch, now: int): Tables {
    var writer := Writer(root, batch);
    var sessions := if writer.Some? then Opened(Swept(t.sessions, now), writer.value, now) else t.sessions;
    var refresh := if writer.Some? then Some(sessions[writer.value].generation) else None;
    var generation := if refresh.Some? then refresh.value else 0;
    Tables(sessions, t.names + Names(Rows(batch)), WriteRows(t.evidence, root, refresh, Rows(batch), now),
           RecordedAll(t.history, root, writer, generation, Rows(batch)))
  }

  lemma SweepingAdvances(sessions: Sessions, now: int)
    ensures Advances(sessions, Swept(sessions, now))
    ensures (forall k :: k in sessions ==> sessions[k].generation >= 1) ==>
              forall k :: k in Swept(sessions, now) ==> Swept(sessions, now)[k].generation >= 1
  {
    AgeIsStrict(sessions);
    var closed := BestExists(ByAge(sessions), Abandoned(sessions, now), GC_BATCH);
    SweptIs(sessions, now, closed);
  }

  /** Soundness and the order of generations under the insertion of a page. */
  lemma InsertionKeeps(t: Tables, root: string, batch: Batch, now: int)
    requires Sound(t)
    ensures Sound(Inserted(t, root, batch, now)) && Advances(t.sessions, Inserted(t, root, batch, now).sessions)
  {
    var u := Inserted(t, root, batch, now);
    SweepingAdvances(t.sessions, now);
    AdvancingKeeps(t.sessions, u.sessions, t.evidence, t.history);
    var writer := Writer(root, batch);
    PageKeeps(u.sessions, t.evidence, t.history, root, writer, Rows(batch), now);
    PageAttributes(t.history, root, writer, if writer.Some? then u.sessions[writer.value].generation else 0, Rows(batch));
  }

  ghost function Cleared(t: Tables, key: SessionKey, now: int): Tables {
    t.(sessions := Deactivate(t.sessions, {key}, now))
  }

  lemma ClearingKeeps(t: Tables, key: SessionKey, now: int)
    requires Sound(t)
    ensures Sound(Cleared(t, key, now)) && Advances(t.sessions, Cleared(t, key, now).sessions)
  {
    AdvancingKeeps(t.sessions, Cleared(t, key, now).sessions, t.evidence, t.history);
  }

  datatype WriteStats = WriteStats(written: nat, novelNames: nat)

  class RefreshStore {
    var sessions: Sessions
    var names: set<string>
    var evidence: EvidenceTable
    ghost var history: History

    ghost function State(): Tables
      reads this
    {
      Tables(sessions, names, evidence, history)
    }

    constructor ()
      ensures State() == NoTables()
    {
      sessions, names, evidence, history := map[], {}, map[], map[];
    }

    /** Closes the longest abandoned sessions, a bounded number at a time. */
    method CleanupAbandoned(now: int) returns (closed: seq<SessionKey>)
      modifies this`sessions
      ensures Best(ByAge(old(sessions)), Abandoned(old(sessions), now), GC_BATCH, closed)
      ensures sessions == Deactivate(old(sessions), Elements(closed), now) == Swept(old(sessions), now)
    {
      closed := Oldest(sessions, now, GC_BATCH);
      SweptIs(sessions, now, closed);
      sessions := Deactivate(sessions, Elements(closed), now);
    }

    /** Opens a session, or joins the one under way, and returns its generation. */
    method BeginSession(key: SessionKey, now: int) returns (generation: nat)
      modifies this`sessions
      ensures sessions == Opened(Swept(old(sessions), now), key, now)
      ensures key in sessions && sessions[key].active && sessions[key].generation == generation
      ensures key in old(sessions) && old(sessions)[key].active && key !in Abandoned(old(sessions), now) ==>
                generation == old(sessions)[key].generation
      ensures key in old(sessions) && !old(sessions)[key].active ==> generation == old(sessions)[key].generation + 1
    {
      var closed := CleanupAbandoned(now);
      assert key in Elements(closed) ==> key in Abandoned(old(sessions), now);
      sessions := Opened(sessions, key, now);
      generation := sessions[key].generation;
    }

    /** The source has delivered its last page. */
    method ClearSession(key: SessionKey, now: int)
      modifies this`sessions
      ensures sessions == Deactivate(old(sessions), {key}, now)
      ensures key in old(sessions) ==> sessions == old(sessions)[key := old(sessions)[key].(active := false, updatedAt := now)]
      ensures key !in old(sessions) ==> sessions == old(sessions)
      ensures State() == Cleared(old(State()), key, now)
    {
      sessions := Deactivate(sessions, {key}, now);
    }

    /** One page in one transaction; a transaction that does not commit leaves no trace. */
    method InsertPage(root: string, batch: Batch, now: int, commits: bool) returns (stats: Option<WriteStats>)
      modifies this
      ensures State() == if commits then Inserted(old(State()), root, batch, now) else old(State())
      ensures stats.Some? <==> commits
      ensures commits && batch.FromSource? ==> (root, batch.source) in sessions && sessions[(root, batch.source)].active
      ensures commits ==> stats.value.written == |Rows(batch)| && |names| == |old(names)| + stats.value.novelNames
    {
      if !commits {
        return None;
      }
      var refresh: Option<nat> := None;
      if batch.FromSource? {
        var generation := BeginSession((root, batch.source), now);
        refresh := Some(generation);
      }
      var written := WriteObservations(root, refresh, Rows(batch), now);
      history := RecordedAll(history, root, Writer(root, batch), if refresh.Some? then refresh.value else 0, Rows(batch));
      return Some(written);
    }

    /** The loop over the observations of a page. */
    method WriteObservations(root: string, refresh: Option<nat>, page: seq<Observation>, now: int) returns (stats: WriteStats)
      modifies this`names, this`evidence
      ensures evidence == WriteRows(old(evidence), root, refresh, page, now)
      ensures names == old(names) + Names(page)
      ensures stats.written == |page| && |names| == |old(names)| + stats.novelNames
    {
      var novel: nat := 0;
      ghost var front: seq<Observation> := [];
      for k := 0 to |page|
        invariant front == page[..k] && evidence == WriteRows(old(evidence), root, refresh, front, now)
        invariant names == old(names) + Names(front) && |names| == |old(names)| + novel
      {
        OneMoreRow(old(evidence), root, refresh, page, k, now);
        front := page[..k + 1];
        OneMoreName(names, page[k].fqdn);
        if page[k].fqdn !in names {
          novel := novel + 1;
        }
        names := names + {page[k].fqdn};
        evidence := WriteRow(evidence, (root, page[k]), refresh, now);
      }
      assert page[..|page|] == page;
      return WriteStats(|page|, novel);
    }
  }

  method Oldest(sessions: Sessions, now: int, limit: nat) returns (oldest: seq<SessionKey>)
    ensures Best(ByAge(sessions), Abandoned(sessions, now), limit, oldest)
  {
    var before := ByAge(sessions);
    AgeIsStrict(sessions);
    oldest := [];
    var rest := Abandoned(sessions, now);
    ghost var all := rest;
    while rest != {} && |oldest| < limit
      invariant Ascending(before, oldest) && Elements(oldest) !! rest && all == Elements(oldest) + rest
      invariant Precede(before, oldest, rest)
      invariant |oldest| <= limit
      decreases |rest|
    {
      ghost var first := FirstExists(before, rest);
      var m :| m in rest && forall y :: y in rest && y != m ==> before(m, y);
      ExtendListing(before, oldest, rest, m);
      assert Elements(oldest) + rest == (Elements(oldest) + {m}) + (rest - {m});
      oldest, rest := oldest + [m], rest - {m};
    }
    AscendingCardinality(before, oldest);
    SubsetSize(Elements(oldest), all);
    if |oldest| < limit {
      assert Elements(oldest) == all;
    }
  }

  // ----- what the counter means -----

  predicate Monotone(w: seq<nat>) {
    forall i, j :: 0 <= i < j < |w| ==> w[i] <= w[j]
  }

  lemma ElementsOfMore(w: seq<nat>, x: nat)
    ensures Elements(w + [x]) == Elements(w) + {x}
  {
    assert forall y :: y in w + [x] <==> y in w || y == x;
  }

  /** One more generation, equal to the last or beyond it, changes the count and the set alike. */
  lemma OneMoreGeneration(front: seq<nat>, last: nat)
    requires front != [] && Monotone(front) && front[|front| - 1] <= last && Changes(front) == |Elements(front)|
    ensures Changes(front + [last]) == |Elements(front + [last])|
  {
    assert (front + [last])[..|front|] == front;
    ElementsOfMore(front, last);
    if last == front[|front| - 1] {
      assert last in Elements(front) && Elements(front) + {last} == Elements(front);
    } else {
      forall i | 0 <= i < |front| ensures front[i] != last {
        assert i < |front| - 1 ==> front[i] <= front[|front| - 1];
      }
      assert last !in Elements(front);
    }
  }

  lemma FrontAndLast(w: seq<nat>)
    requires w != [] && Monotone(w)
    ensures w == w[..|w| - 1] + [w[|w| - 1]] && Monotone(w[..|w| - 1])
    ensures |w| > 1 ==> w[..|w| - 1][|w| - 2] <= w[|w| - 1]
  {
  }

  lemma OneGeneration(x: nat)
    ensures Changes([x]) == |Elements([x])| == 1
  {
    assert Elements([x]) == {x};
  }

  lemma {:induction false} ChangesOfMonotone(w: seq<nat>)
    requires Monotone(w)
    ensures Changes(w) == |Elements(w)|
  {
    if w == [] {
      assert Elements(w) == {};
    } else {
      var front, last := w[..|w| - 1], w[|w| - 1];
      FrontAndLast(w);
      if |w| == 1 {
        OneGeneration(last);
      } else {
        ChangesOfMonotone(front);
        OneMoreGeneration(front, last);
      }
    }
  }

  /** Apart from a first generation 0, there are no more generations than the last one says. */
  lemma {:induction false} ChangesAtMostLast(w: seq<nat>)
    requires Monotone(w) && w != []
    ensures Changes(w) <= w[|w| - 1] + if w[0] == 0 then 1 else 0
  {
    if |w| > 1 {
      ChangesAtMostLast(w[..|w| - 1]);
      assert w[|w| - 2] <= w[|w| - 1];
    }
  }

  /** The refreshes that wrote a row. */
  function Refreshes(writes: seq<Write>): set<nat> {
    set i | 0 <= i < |writes| && writes[i].session.Some? :: writes[i].generation
  }

  /** The row was created by a write without a session. */
  predicate CreatedPlain(writes: seq<Write>) { writes != [] && writes[0].session.None? }

  lemma GenerationsAscend(sessions: Sessions, key: EvidenceKey, writes: seq<Write>)
    requires Attributed(key, writes) && Forward(sessions, writes)
    ensures Monotone(Generations(writes))
  {
    var w := Generations(writes);
    forall i, j | 0 <= i < j < |w| ensures w[i] <= w[j] {
      if writes[i].session.Some? {
        assert writes[j].session.Some?;
        OneSessionPerRow(key, writes, i, j);
      }
    }
  }

  lemma ElementsAt<T>(r: seq<T>, i: nat)
    requires i < |r|
    ensures r[i] in Elements(r)
  {
  }

  lemma RefreshesAreGenerations(writes: seq<Write>)
    requires forall i :: 0 <= i < |writes| && writes[i].session.Some? ==> writes[i].generation > 0
    ensures Refreshes(writes) <= Elements(Generations(writes)) && 0 !in Refreshes(writes)
  {
    forall g | g in Refreshes(writes) ensures g in Elements(Generations(writes)) && g > 0 {
      var i :| 0 <= i < |writes| && writes[i].session.Some? && writes[i].generation == g;
      ElementsAt(Generations(writes), i);
    }
  }

  lemma GenerationsAreRefreshes(writes: seq<Write>)
    requires forall i :: 0 <= i < |writes| && writes[i].session.None? ==> i == 0 && writes[i].generation == 0
    ensures Elements(Generations(writes)) <= Refreshes(writes) + if CreatedPlain(writes) then {0} else {}
  {
    var w := Generations(writes);
    forall g | g in Elements(w) ensures g in Refreshes(writes) || (CreatedPlain(writes) && g == 0) {
      var i :| 0 <= i < |w| && w[i] == g;
      assert writes[i].generation == g;
    }
  }

  lemma GenerationsAre(sessions: Sessions, key: EvidenceKey, writes: seq<Write>)
    requires Attributed(key, writes) && Forward(sessions, writes)
    ensures |Elements(Generations(writes))| == |Refreshes(writes)| + if CreatedPlain(writes) then 1 else 0
  {
    RefreshesAreGenerations(writes);
    GenerationsAreRefreshes(writes);
    if CreatedPlain(writes) {
      ElementsAt(Generations(writes), 0);
      assert Elements(Generations(writes)) == Refreshes(writes) + {0};
    } else {
      assert Elements(Generations(writes)) == Refreshes(writes);
    }
  }

  /** A row counts the distinct refreshes that wrote it, and once more when a write without a session created it. */
  lemma TimesSeenCountsGenerations(t: Tables, k: EvidenceKey)
    requires Sound(t) && k in t.evidence
    ensures t.evidence[k].timesSeen == |Refreshes(t.history[k])| + if CreatedPlain(t.history[k]) then 1 else 0
  {
    var writes := t.history[k];
    assert Counts(t.evidence[k], writes) && Forward(t.sessions, writes) && Attributed(k, writes);
    GenerationsAscend(t.sessions, k, writes);
    GenerationsAre(t.sessions, k, writes);
    ChangesOfMonotone(Generations(writes));
  }

  lemma CountsWithin(sessions: Sessions, k: EvidenceKey, row: Evidence, writes: seq<Write>, i: nat)
    requires Counts(row, writes) && Forward(sessions, writes) && Attributed(k, writes) && i < |writes| && writes[i].session.Some?
    ensures writes[i].session.value in sessions
    ensures row.timesSeen <= sessions[writes[i].session.value].generation + if CreatedPlain(writes) then 1 else 0
  {
    var w, last := Generations(writes), |writes| - 1;
    GenerationsAscend(sessions, k, writes);
    ChangesAtMostLast(w);
    assert writes[last].session.Some?;
    OneSessionPerRow(k, writes, i, last);
    assert w[0] == writes[0].generation && w[last] == writes[last].generation;
  }

  /** Every refresh of a row is one of the session its key names, so the count stays within that session's generations. */
  lemma RowBelongsToOneSession(t: Tables, k: EvidenceKey, i: nat)
    requires Sound(t) && k in t.evidence && i < |t.history[k]| && t.history[k][i].session.Some?
    ensures var key := t.history[k][i].session.value;
            && k.0 == key.0 && k.1.source == PassiveLabel(key.1) && key in t.sessions
            && (forall j :: 0 <= j < |t.history[k]| && t.history[k][j].session.Some? ==> t.history[k][j].session.value == key)
            && t.evidence[k].timesSeen <= t.sessions[key].generation + if CreatedPlain(t.history[k]) then 1 else 0
  {
    var writes := t.history[k];
    assert Counts(t.evidence[k], writes) && Forward(t.sessions, writes) && Attributed(k, writes);
    CountsWithin(t.sessions, k, t.evidence[k], writes, i);
    forall j | 0 <= j < |writes| && writes[j].session.Some? ensures writes[j].session.value == writes[i].session.value {
      OneSessionPerRow(k, writes, i, j);
    }
  }

  // ----- replays -----

  /** Every row of the page was last written by this generation. */
  ghost predicate WrittenBy(table: EvidenceTable, root: string, page: seq<Observation>, generation: nat) {
    forall o :: o in page ==> (root, o) in table && table[(root, o)].generation == generation
  }

  ghost predicate SameCounters(before: EvidenceTable, after: EvidenceTable) {
    && before.Keys == after.Keys
    && forall k :: k in before ==>
         after[k].timesSeen == before[k].timesSeen && after[k].generation == before[k].generation && after[k].firstSeen == before[k].firstSeen
  }

  /** Writing a page leaves all its rows with its generation. */
  lemma {:induction false} PageWrites(table: EvidenceTable, root: string, page: seq<Observation>, generation: nat, now: int)
    ensures WrittenBy(WriteRows(table, root, Some(generation), page, now), root, page, generation)
  {
    if page != [] {
      PageWrites(table, root, page[..|page| - 1], generation, now);
      assert page == page[..|page| - 1] + [page[|page| - 1]];
    }
  }

  /** Further pages of the same generation do not change that. */
  lemma {:induction false} PageStaysWritten(
      table: EvidenceTable, root: string, page: seq<Observation>, other: seq<Observation>, generation: nat, now: int)
    requires WrittenBy(table, root, page, generation)
    ensures WrittenBy(WriteRows(table, root, Some(generation), other, now), root, page, generation)
  {
    if other != [] {
      PageStaysWritten(table, root, page, other[..|other| - 1], generation, now);
    }
  }

  /** Replaying a page within its generation changes no counter. */
  lemma {:induction false} ReplayChangesNoCounter(table: EvidenceTable, root: string, page: seq<Observation>, generation: nat, now: int)
    requires WrittenBy(table, root, page, generation)
    ensures SameCounters(table, WriteRows(table, root, Some(generation), page, now))
  {
    if page != [] {
      var front, last := page[..|page| - 1], page[|page| - 1];
      assert forall o :: o in front ==> o in page;
      ReplayChangesNoCounter(table, root, front, generation, now);
      assert last in page;
    }
  }

  /** A page, other pages of its generation, then the page again: the replay changes no counter. */
  lemma ReplayAfterOtherPages(
      table: EvidenceTable, root: string, page: seq<Observation>, others: seq<seq<Observation>>, generation: nat, now: int)
    ensures var before := PagesWritten(WriteRows(table, root, Some(generation), page, now), root, others, generation, now);
            SameCounters(before, WriteRows(before, root, Some(generation), page, now))
  {
    PageWrites(table, root, page, generation, now);
    PagesStayWritten(WriteRows(table, root, Some(generation), page, now), root, page, others, generation, now);
    ReplayChangesNoCounter(PagesWritten(WriteRows(table, root, Some(generation), page, now), root, others, generation, now), root, page, generation, now);
  }

  function PagesWritten(table: EvidenceTable, root: string, pages: seq<seq<Observation>>, generation: nat, now: int): EvidenceTable {
    if pages == [] then table
    else WriteRows(PagesWritten(table, root, pages[..|pages| - 1], generation, now), root, Some(generation), pages[|pages| - 1], now)
  }

  lemma {:induction false} PagesStayWritten(
      table: EvidenceTable, root: string, page: seq<Observation>, others: seq<seq<Observation>>, generation: nat, now: int)
    requires WrittenBy(table, root, page, generation)
    ensures WrittenBy(PagesWritten(table, root, others, generation, now), root, page, generation)
  {
    if others != [] {
      var front := others[..|others| - 1];
      PagesStayWritten(table, root, page, front, generation, now);
      PageStaysWritten(PagesWritten(table, root, front, generation, now), root, page, others[|others| - 1], generation, now);
    }
  }

  // ----- whole runs -----

  /** A page that is written or rolled back, the end of a session, or the clean-up on opening the database. */
  datatype Op =
    | Page(root: string, batch: Batch, now: int, commits: bool)
    | Complete(key: SessionKey, now: int)
    | Sweep(now: int)

  ghost function Step(t: Tables, op: Op): Tables {
    match op
    case Page(root, batch, now, commits) => if commits then Inserted(t, root, batch, now) else t
    case Complete(key, now) => Cleared(t, key, now)
    case Sweep(now) => t.(sessions := Swept(t.sessions, now))
  }

  /** The tables after some operations on an empty store. */
  ghost function After(ops: seq<Op>): Tables {
    if ops == [] then NoTables() else Step(After(ops[..|ops| - 1]), ops[|ops| - 1])
  }

  lemma StepKeeps(t: Tables, op: Op)
    requires Sound(t)
    ensures Sound(Step(t, op)) && Advances(t.sessions, Step(t, op).sessions)
  {
    match op
    case Page(root, batch, now, commits) => if commits { InsertionKeeps(t, root, batch, now); }
    case Complete(key, now) => ClearingKeeps(t, key, now);
    case Sweep(now) =>
      SweepingAdvances(t.sessions, now);
      AdvancingKeeps(t.sessions, Swept(t.sessions, now), t.evidence, t.history);
  }

  /** Any interleaving of pages, replays, failures, completions and clean-ups keeps the counters consistent with the history. */
  lemma {:induction false} RunIsSound(ops: seq<Op>)
    ensures Sound(After(ops))
  {
    if ops != [] {
      RunIsSound(ops[..|ops| - 1]);
      StepKeeps(After(ops[..|ops| - 1]), ops[|ops| - 1]);
    }
  }

  /** Generations never go back. */
  lemma {:induction false} RunAdvances(ops: seq<Op>, n: nat)
    requires n <= |ops|
    ensures Advances(After(ops[..n]).sessions, After(ops).sessions)
    decreases |ops|
  {
    if n < |ops| {
      var front := ops[..|ops| - 1];
      RunAdvances(front, n);
      RunIsSound(front);
      StepKeeps(After(front), ops[|ops| - 1]);
      assert front[..n] == ops[..n];
    } else {
      assert ops[..n] == ops;
    }
  }

  /** After any run every row counts its refreshes, and the write without a session that may have created it. */
  lemma RunCounts(ops: seq<Op>, k: EvidenceKey)
    requires k in After(ops).evidence
    ensures k in After(ops).history
    ensures After(ops).evidence[k].timesSeen
         == |Refreshes(After(ops).history[k])| + if CreatedPlain(After(ops).history[k]) then 1 else 0
  {
    RunIsSound(ops);
    TimesSeenCountsGenerations(After(ops), k);
  }

  method RunOps(ops: seq<Op>) returns (store: RefreshStore)
    ensures store.State() == After(ops)
  {
    store := new RefreshStore();
    for n := 0 to |ops|
      invariant fresh(store) && store.State() == After(ops[..n])
    {
      match ops[n] {
        case Page(root, batch, now, commits) =>
          var stats := store.InsertPage(root, batch, now, commits);
        case Complete(key, now) =>
          store.ClearSession(key, now);
        case Sweep(now) =>
          var closed := store.CleanupAbandoned(now);
      }
      assert ops[..n + 1][..n] == ops[..n];
    }
    assert ops[..|ops|] == ops;
  }
}
