/** That a static synchronization gets as far as it may, and fails only for a reason (src/ct_static.rs). */
module StaticProgress {
  import opened Basics
  import opened StaticTiles
  import opened StaticSync

  // ----- where a synchronization ends -----

  /** No more than one of the loop's own bounds keeps a synchronization from going on. */
  ghost predicate AtABound(cursor: nat, processed: nat, tiles: nat, bytes: nat, fetch: Fetch, treeSize: nat, budget: nat) {
    || cursor >= treeSize || processed >= budget || tiles >= 64
    || (cursor / 256 in fetch && bytes + |fetch[cursor / 256]| > 64 * 1024 * 1024)
  }

  lemma {:induction false} LoopEndsAtABound(
      p: Progress, fetch: Fetch, certs: map<nat, seq<Bytes>>, decode: Decode, treeSize: nat, budget: nat)
    requires p.cursor <= treeSize && p.processed <= budget
    ensures var r := SyncFrom(p, fetch, certs, decode, treeSize, budget);
            r.Some? ==> AtABound(r.value.cursor, r.value.processed, |r.value.tiles|, r.value.batchBytes, fetch, treeSize, budget)
    decreases MAX_TILES_PER_SYNC - |p.tiles|
  {
    if p.cursor < treeSize && p.processed < budget && |p.tiles| < MAX_TILES_PER_SYNC {
      var r := Round(p, fetch, certs, decode, treeSize, budget);
      if r.More? {
        LoopEndsAtABound(r.progress, fetch, certs, decode, treeSize, budget);
      }
    }
  }

  /**
   A synchronization that succeeds has reached the end of the tree or of its budget, or holds 64 tiles, or has no room
   for the next tile.
   */
  lemma SyncEndsAtABound(
      fetch: Fetch, certs: map<nat, seq<Bytes>>, decode: Decode, treeSize: nat, start: nat, reset: bool, budget: nat)
    requires Parses(fetch, treeSize, certs) && start <= treeSize
    ensures var r := StaticDelta(fetch, certs, decode, treeSize, start, reset, budget);
            r.Some? ==> AtABound(r.value.nextCursor, r.value.entriesProcessed, |r.value.tiles|, TotalBytes(r.value.tiles), fetch, treeSize, budget)
  {
    if budget > 0 && start < treeSize {
      var p := Progress(start, 0, {}, [], 0);
      LoopEndsAtABound(p, fetch, certs, decode, treeSize, budget);
      ParsedTilesAreFull(fetch, treeSize, certs);
      SyncCollects(p, fetch, certs, decode, treeSize, start, budget);
    }
  }

  // ----- when it succeeds -----

  /** The entries lo..hi together name this many hosts at most. */
  function NameCount(certs: map<nat, seq<Bytes>>, decode: Decode, lo: nat, hi: nat): nat
    decreases hi
  {
    if hi <= lo then 0 else NameCount(certs, decode, lo, hi - 1) + |EntryNames(certs, decode, hi - 1)|
  }

  lemma {:induction false} NameCountJoins(certs: map<nat, seq<Bytes>>, decode: Decode, lo: nat, mid: nat, hi: nat)
    requires lo <= mid <= hi
    ensures NameCount(certs, decode, lo, hi) == NameCount(certs, decode, lo, mid) + NameCount(certs, decode, mid, hi)
    decreases hi
  {
    if mid < hi { NameCountJoins(certs, decode, lo, mid, hi - 1); }
  }

  /** Every entry lo..hi can be read, from a tile that is not too large. */
  ghost predicate Available(fetch: Fetch, certs: map<nat, seq<Bytes>>, decode: Decode, lo: nat, hi: nat) {
    AllReadable(certs, decode, lo, hi) && forall i :: lo <= i < hi ==> SmallTile(fetch, i)
  }

  predicate SmallTile(fetch: Fetch, i: nat) { i / 256 in fetch && |fetch[i / 256]| <= 32 * 1024 * 1024 }

  lemma UnionSize<T>(a: set<T>, b: set<T>)
    ensures |a + b| <= |a| + |b|
  {
    assert |a + b| == |a| + |b| - |a * b|;
  }

  lemma {:induction false} DecodesWithinLimit(
      certs: map<nat, seq<Bytes>>, decode: Decode, index: nat, lo: nat, hi: nat, names: set<string>)
    requires index in certs && lo <= hi <= |certs[index]| <= 256
    requires AllReadable(certs, decode, index * 256 + lo, index * 256 + hi)
    requires |names| + NameCount(certs, decode, index * 256 + lo, index * 256 + hi) <= MAX_NAMES_PER_BATCH
    ensures var r := Decoded(decode, certs[index], lo, hi, names);
            r.Some? && |r.value| <= |names| + NameCount(certs, decode, index * 256 + lo, index * 256 + hi)
    decreases hi
  {
    if lo < hi {
      var i := index * 256 + (hi - 1);
      DecodesWithinLimit(certs, decode, index, lo, hi - 1, names);
      assert Readable(certs, decode, i);
      InsideTile(index, hi - 1);
      UnionSize(Decoded(decode, certs[index], lo, hi - 1, names).value, decode[certs[index][hi - 1]]);
    }
  }

  /** What a round takes of the tile under the cursor. */
  function Share(p: Progress, treeSize: nat, budget: nat): nat
    requires p.cursor < treeSize && p.processed < budget
  {
    EntriesToTake(ExpectedEntries(p.cursor / 256, treeSize), p.cursor % 256, budget - p.processed, treeSize - p.cursor)
  }

  lemma ShareStaysBelowGoal(p: Progress, treeSize: nat, start: nat, budget: nat)
    requires Bounded(p, treeSize, start, budget) && p.cursor < treeSize && p.processed < budget
    ensures var share := Share(p, treeSize, budget);
            && p.cursor - p.cursor / 256 * 256 == p.cursor % 256
            && 0 < share && p.cursor + share <= Min(treeSize, start + budget)
            && p.cursor % 256 + share <= ExpectedEntries(p.cursor / 256, treeSize) <= 256
  {
    TileAlwaysAdvances(p.cursor, treeSize, budget - p.processed);
  }

  /** A round over a tile that can be fetched, parsed and decoded. */
  lemma RoundTakes(
      p: Progress, fetch: Fetch, certs: map<nat, seq<Bytes>>, decode: Decode, treeSize: nat, budget: nat, share: nat, found: set<string>)
    requires p.cursor < treeSize && p.processed < budget && p.cursor / 256 in fetch && p.cursor / 256 in certs
    requires |fetch[p.cursor / 256]| <= MAX_TILE_BYTES
    requires p.cursor - p.cursor / 256 * 256 == p.cursor % 256
    requires share == EntriesToTake(|certs[p.cursor / 256]|, p.cursor % 256, budget - p.processed, treeSize - p.cursor) > 0
    requires p.cursor % 256 + share <= |certs[p.cursor / 256]|
    requires Decoded(decode, certs[p.cursor / 256], p.cursor % 256, p.cursor % 256 + share, p.names) == Some(found)
    ensures var r := Round(p, fetch, certs, decode, treeSize, budget);
            !r.Failed? && (r.More? ==> r.progress.cursor == p.cursor + share && r.progress.names == found)
  {
  }

  /** One round takes its share of the tile, or stops because the batch is full. */
  lemma {:induction false} RoundSucceeds(p: Progress, fetch: Fetch, certs: map<nat, seq<Bytes>>, decode: Decode, treeSize: nat, start: nat, budget: nat, goal: nat)
    requires Bounded(p, treeSize, start, budget) && FullTiles(fetch, treeSize, certs)
    requires p.cursor < treeSize && p.processed < budget && goal == Min(treeSize, start + budget)
    requires Available(fetch, certs, decode, p.cursor, goal)
    requires |p.names| + NameCount(certs, decode, p.cursor, goal) <= MAX_NAMES_PER_BATCH
    ensures var r := Round(p, fetch, certs, decode, treeSize, budget);
            && !r.Failed?
            && (r.More? ==>
                  && p.cursor < r.progress.cursor <= goal
                  && |r.progress.names| + NameCount(certs, decode, r.progress.cursor, goal) <= MAX_NAMES_PER_BATCH)
  {
    var index, share := p.cursor / 256, Share(p, treeSize, budget);
    assert Readable(certs, decode, p.cursor) && SmallTile(fetch, p.cursor);
    ShareStaysBelowGoal(p, treeSize, start, budget);
    assert |certs[index]| == ExpectedEntries(index, treeSize);
    ShareDecodes(p, certs, decode, share, goal);
    RoundTakes(p, fetch, certs, decode, treeSize, budget, share,
               Decoded(decode, certs[index], p.cursor % 256, p.cursor % 256 + share, p.names).value);
  }

  lemma ShareDecodes(p: Progress, certs: map<nat, seq<Bytes>>, decode: Decode, share: nat, goal: nat)
    requires AllReadable(certs, decode, p.cursor, goal) && p.cursor / 256 in certs && p.cursor + share <= goal
    requires p.cursor % 256 + share <= |certs[p.cursor / 256]| <= 256
    requires |p.names| + NameCount(certs, decode, p.cursor, goal) <= MAX_NAMES_PER_BATCH
    ensures var r := Decoded(decode, certs[p.cursor / 256], p.cursor % 256, p.cursor % 256 + share, p.names);
            r.Some? && |r.value| + NameCount(certs, decode, p.cursor + share, goal) <= MAX_NAMES_PER_BATCH
  {
    var index, offset := p.cursor / 256, p.cursor % 256;
    assert p.cursor == index * 256 + offset;
    NameCountJoins(certs, decode, p.cursor, p.cursor + share, goal);
    DecodesWithinLimit(certs, decode, index, offset, offset + share, p.names);
  }

  lemma {:induction false} LoopSucceeds(p: Progress, fetch: Fetch, certs: map<nat, seq<Bytes>>, decode: Decode, treeSize: nat, start: nat, budget: nat)
    requires Bounded(p, treeSize, start, budget) && FullTiles(fetch, treeSize, certs)
    requires Available(fetch, certs, decode, p.cursor, Min(treeSize, start + budget))
    requires |p.names| + NameCount(certs, decode, p.cursor, Min(treeSize, start + budget)) <= MAX_NAMES_PER_BATCH
    ensures SyncFrom(p, fetch, certs, decode, treeSize, budget).Some?
    decreases MAX_TILES_PER_SYNC - |p.tiles|
  {
    if p.cursor < treeSize && p.processed < budget && |p.tiles| < MAX_TILES_PER_SYNC {
      CursorTile(start, p.cursor, |p.tiles|);
      RoundSucceeds(p, fetch, certs, decode, treeSize, start, budget, Min(treeSize, start + budget));
      RoundAdvances(p, fetch, certs, decode, treeSize, start, budget);
      var r := Round(p, fetch, certs, decode, treeSize, budget);
      if r.More? {
        LoopSucceeds(r.progress, fetch, certs, decode, treeSize, start, budget);
      }
    }
  }

  /**
   A synchronization whose entries can all be fetched and decoded, with no more names than a batch may hold, succeeds;
   with the bounds above it covers everything up to its budget unless tiles or bytes run out first.
   */
  lemma AvailableEntriesAreDelivered(
      fetch: Fetch, certs: map<nat, seq<Bytes>>, decode: Decode, treeSize: nat, start: nat, reset: bool, budget: nat)
    requires Parses(fetch, treeSize, certs) && start <= treeSize
    requires Available(fetch, certs, decode, start, Min(treeSize, start + budget))
    requires NameCount(certs, decode, start, Min(treeSize, start + budget)) <= MAX_NAMES_PER_BATCH
    ensures StaticDelta(fetch, certs, decode, treeSize, start, reset, budget).Some?
  {
    if budget > 0 && start < treeSize {
      ParsedTilesAreFull(fetch, treeSize, certs);
      LoopSucceeds(Progress(start, 0, {}, [], 0), fetch, certs, decode, treeSize, start, budget);
    }
  }
}
