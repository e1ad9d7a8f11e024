/**
 When a refresh begins and ends (src/db.rs): which abandoned sessions are closed, when a page opens a new generation, and
 what a page leaves in its rows.
 */
module RefreshSessions {
  import opened Basics
  import opened Orders
  import opened Ranking
  import opened RefreshCounters

  // ----- abandoned sessions -----

  /** Active, and not touched for ninety days. */
  predicate Stale(sessions: Sessions, now: int, k: SessionKey) {
    k in sessions && sessions[k].active && sessions[k].updatedAt < now - 90 * 86_400
  }

  /** The stale sessions that stand before k: touched earlier, or at the same time and first by root and source. */
  function StaleBefore(sessions: Sessions, now: int, k: SessionKey): set<SessionKey>
    requires k in sessions
  {
    set j | j in sessions && Stale(sessions, now, j) &&
      (sessions[j].updatedAt < sessions[k].updatedAt
       || (sessions[j].updatedAt == sessions[k].updatedAt
           && (CompareStrings(j.0, k.0) == Less || (j.0 == k.0 && CompareStrings(j.1, k.1) == Less))))
  }

  /** A clean-up closes a session iff it is stale and fewer than 256 stale sessions stand before it; it changes nothing else. */
  lemma SweptIff(sessions: Sessions, now: int, k: SessionKey)
    ensures Swept(sessions, now).Keys == sessions.Keys
    ensures k in sessions ==>
              Swept(sessions, now)[k] == if Stale(sessions, now, k) && |StaleBefore(sessions, now, k)| < 256
                                         then sessions[k].(active := false, updatedAt := now) else sessions[k]
  {
    var before := ByAge(sessions);
    AgeIsStrict(sessions);
    var all, closed := SweepOrder(sessions, now);
    SweptIs(sessions, now, closed);
    if k in sessions && Stale(sessions, now, k) {
      assert k in Elements(all);
      KeptIffFewBefore(before, all, GC_BATCH, k);
      BeforeIsOlder(sessions, now, all, k);
    }
    assert k in Elements(closed) ==> k in Elements(all);
  }

  lemma SweepOrder(sessions: Sessions, now: int) returns (all: seq<SessionKey>, closed: seq<SessionKey>)
    ensures Ascending(ByAge(sessions), all) && Elements(all) == Abandoned(sessions, now)
    ensures closed == Take(all, GC_BATCH) && Collects(sessions, now, closed)
    ensures Elements(closed) <= Elements(all)
  {
    AgeIsStrict(sessions);
    var s := Abandoned(sessions, now);
    all := BestExists(ByAge(sessions), s, |s|);
    AscendingCardinality(ByAge(sessions), all);
    SubsetSameSize(Elements(all), s);
    closed := Take(all, GC_BATCH);
    TakeIsBest(ByAge(sessions), s, all, GC_BATCH);
  }

  lemma BeforeIsOlder(sessions: Sessions, now: int, all: seq<SessionKey>, k: SessionKey)
    requires Elements(all) == Abandoned(sessions, now) && k in sessions
    ensures Preceding(ByAge(sessions), all, k) == StaleBefore(sessions, now, k)
  {
    StringsTotal();
    forall j ensures j in Preceding(ByAge(sessions), all, k) <==> j in StaleBefore(sessions, now, k) {
      assert j in all <==> j in Elements(all);
      assert CompareStrings(j.0, k.0) == Equal <==> j.0 == k.0;
    }
  }

  // ----- generations -----

  /** The generation under which the next committed page of a source would be written. */
  ghost function NextGeneration(t: Tables, key: SessionKey, now: int): nat {
    Opened(Swept(t.sessions, now), key, now)[key].generation
  }

  /** The first page of a source opens generation 1. */
  lemma FirstPageOpens(t: Tables, key: SessionKey, now: int)
    requires key !in t.sessions
    ensures NextGeneration(t, key, now) == 1
  {
    SweptIff(t.sessions, now, key);
  }

  /** Completing a source closes its generation: its next page opens the one after it. */
  lemma CompletionEndsTheGeneration(t: Tables, key: SessionKey, at: int, now: int)
    requires key in t.sessions
    ensures NextGeneration(Cleared(t, key, at), key, now) == t.sessions[key].generation + 1
  {
    SweptIff(Cleared(t, key, at).sessions, now, key);
  }

  /** Pages of one source that follow each other within ninety days are of one generation. */
  lemma PagesShareTheGeneration(t: Tables, root: string, batch: Batch, at: int, now: int)
    requires batch.FromSource? && now <= at + 90 * 86_400
    ensures var u := Inserted(t, root, batch, at); var key := (root, batch.source);
            key in u.sessions && NextGeneration(u, key, now) == u.sessions[key].generation
  {
    var u := Inserted(t, root, batch, at);
    SweptIff(u.sessions, now, (root, batch.source));
  }

  /** A source that was left alone for longer begins a new generation, once its turn to be cleaned up has come. */
  lemma AbandonedSourceStartsAnew(t: Tables, key: SessionKey, now: int)
    requires key in t.sessions && Stale(t.sessions, now, key) && |StaleBefore(t.sessions, now, key)| < 256
    ensures NextGeneration(t, key, now) == t.sessions[key].generation + 1
  {
    SweptIff(t.sessions, now, key);
  }

  // ----- rows -----

  /** What a page leaves: its rows seen now, first when they were new, and every other row as it was. */
  ghost predicate Leaves(table: EvidenceTable, after: EvidenceTable, root: string, page: seq<Observation>, now: int) {
    && after.Keys == table.Keys + (set o | o in page :: (root, o))
    && (forall k :: k in table && (k.0 != root || k.1 !in page) ==> after[k] == table[k])
    && (forall o :: o in page ==> after[(root, o)].lastSeen == now)
    && (forall o :: o in page ==> after[(root, o)].firstSeen == if (root, o) in table then table[(root, o)].firstSeen else now)
  }

  lemma OneRowLeaves(table: EvidenceTable, mid: EvidenceTable, root: string, page: seq<Observation>, o: Observation, refresh: Option<nat>, now: int)
    requires Leaves(table, mid, root, page, now)
    ensures Leaves(table, WriteRow(mid, (root, o), refresh, now), root, page + [o], now)
  {
    var more, after := page + [o], WriteRow(mid, (root, o), refresh, now);
    assert forall x :: x in more <==> x in page || x == o;
    assert after.Keys == mid.Keys + {(root, o)};
    assert (set x | x in more :: (root, x)) == (set x | x in page :: (root, x)) + {(root, o)};
  }

  lemma {:induction false} PageLeaves(table: EvidenceTable, root: string, refresh: Option<nat>, page: seq<Observation>, now: int)
    ensures Leaves(table, WriteRows(table, root, refresh, page, now), root, page, now)
  {
    if page != [] {
      var front, last := page[..|page| - 1], page[|page| - 1];
      PageLeaves(table, root, refresh, front, now);
      OneRowLeaves(table, WriteRows(table, root, refresh, front, now), root, front, last, refresh, now);
      assert page == front + [last];
    }
  }

  /** A committed page leaves all its observations in the table, seen now, and touches no other row. */
  lemma CommittedPageLeaves(t: Tables, root: string, batch: Batch, now: int)
    ensures Leaves(t.evidence, Inserted(t, root, batch, now).evidence, root, Rows(batch), now)
    ensures forall o :: o in Rows(batch) ==> o.fqdn in Inserted(t, root, batch, now).names
    ensures t.names <= Inserted(t, root, batch, now).names
  {
    var writer := Writer(root, batch);
    var sessions := if writer.Some? then Opened(Swept(t.sessions, now), writer.value, now) else t.sessions;
    PageLeaves(t.evidence, root, if writer.Some? then Some(sessions[writer.value].generation) else None, Rows(batch), now);
    NamesOfPage(Rows(batch));
  }

  /** The row that a name of a source's page is stored in. */
  function PassiveRow(source: string, name: string): Observation { Observation(name, "passive", "passive:" + source, "") }

  lemma RowsOfSource(source: string, names: seq<string>)
    ensures |Rows(FromSource(source, names))| == |names|
    ensures forall i :: 0 <= i < |names| ==> Rows(FromSource(source, names))[i] == PassiveRow(source, names[i])
    ensures forall o :: o in Rows(FromSource(source, names)) <==> exists n :: n in names && o == PassiveRow(source, n)
  {
    var batch := FromSource(source, names);
    var rows := Rows(batch);
    forall i | 0 <= i < |names| ensures rows[i] == PassiveRow(source, names[i]) {
      assert PassiveLabel(source) == "passive:" + source;
      assert rows == seq(|names|, j requires 0 <= j < |names| => Observation(names[j], "passive", PassiveLabel(source), ""));
    }
    forall o | o in rows ensures exists n :: n in names && o == PassiveRow(source, n) {
      var i :| 0 <= i < |rows| && rows[i] == o;
      assert names[i] in names;
    }
    forall n | n in names ensures PassiveRow(source, n) in rows {
      var i :| 0 <= i < |names| && names[i] == n;
      assert rows[i] == PassiveRow(source, n);
    }
  }

  /** A page of a source leaves a passive row for each of its names, under the source's label, and no other new row. */
  lemma {:induction false} SourcePageLeaves(t: Tables, root: string, source: string, names: seq<string>, now: int, n: string)
    ensures var after := Inserted(t, root, FromSource(source, names), now);
            && after.evidence.Keys == t.evidence.Keys + (set m | m in names :: (root, PassiveRow(source, m)))
            && (n in names ==> n in after.names && after.evidence[(root, PassiveRow(source, n))].lastSeen == now)
  {
    CommittedPageLeaves(t, root, FromSource(source, names), now);
    RowsOfSource(source, names);
    var rows := Rows(FromSource(source, names));
    assert (set o | o in rows :: (root, o)) == (set m | m in names :: (root, PassiveRow(source, m)));
    if n in names { assert PassiveRow(source, n) in rows; }
  }

  lemma {:induction false} NamesOfPage(page: seq<Observation>)
    ensures forall o :: o in page ==> o.fqdn in Names(page)
  {
    if page != [] {
      NamesOfPage(page[..|page| - 1]);
      assert page == page[..|page| - 1] + [page[|page| - 1]];
    }
  }
}
