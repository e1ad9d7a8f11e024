/**
 One bounded synchronization with a static Certificate Transparency log (src/ct_static.rs). What can be
 fetched, from the cache or the network, and which certificates decode are given from outside; the rest fails.
 */
module StaticSync {
  import opened Basics
  import opened StaticTiles

  const MAX_TILE_BYTES: nat := 32 * 1024 * 1024
  const MAX_BATCH_BYTES: nat := 64 * 1024 * 1024
  const MAX_TILES_PER_SYNC: nat := 64
  const MAX_NAMES_PER_BATCH: nat := 250_000

  /** The tiles that can be fetched, by index, and the names of the certificates that decode. */
  type Fetch = map<nat, Bytes>
  type Decode = map<Bytes, set<string>>

  datatype StaticBatch = StaticBatch(
    checkpointSize: nat, resetCursor: bool, nextCursor: nat, entriesProcessed: nat,
    names: set<string>, tiles: seq<(string, Bytes)>)

  /** Where a sync starts, and whether that discards the stored cursor. */
  function StartCursor(stored: Option<nat>, treeSize: nat, initialBackfill: nat): (nat, bool) {
    var backfill := Monus(treeSize, initialBackfill);
    match stored
    case Some(cursor) => if cursor <= treeSize then (cursor, false) else (backfill, true)
    case None => (backfill, false)
  }

  /** The last tile is partial when the tree size is not a multiple of the tile width. */
  function PartialWidth(index: nat, treeSize: nat): (w: Option<nat>)
    ensures w.Some? ==> 1 <= w.value <= 255
  {
    if index == treeSize / 256 && treeSize % 256 > 0 then Some(treeSize % 256) else None
  }

  function ExpectedEntries(index: nat, treeSize: nat): nat {
    match PartialWidth(index, treeSize) case Some(w) => w case None => 256
  }

  function TilePath(index: nat, treeSize: nat): string {
    DataTilePath(index, PartialWidth(index, treeSize)).value
  }

  /** The certificates of every tile that can be fetched and parsed. */
  function Certificates(fetch: Fetch, treeSize: nat): map<nat, seq<Bytes>> {
    map index | index in fetch && TileCertificates(fetch[index], ExpectedEntries(index, treeSize)).Some? ::
      TileCertificates(fetch[index], ExpectedEntries(index, treeSize)).value
  }

  /** Entry i stands in a tile that was fetched and parsed, and its certificate decodes. */
  predicate Readable(certs: map<nat, seq<Bytes>>, decode: Decode, i: nat) {
    i / 256 in certs && i % 256 < |certs[i / 256]| && certs[i / 256][i % 256] in decode
  }

  ghost predicate AllReadable(certs: map<nat, seq<Bytes>>, decode: Decode, lo: nat, hi: nat) {
    forall i :: lo <= i < hi ==> Readable(certs, decode, i)
  }

  /** The names of entry i, as far as its tile and certificate can be read. */
  function EntryNames(certs: map<nat, seq<Bytes>>, decode: Decode, i: nat): set<string> {
    if Readable(certs, decode, i) then decode[certs[i / 256][i % 256]] else {}
  }

  function RangeNames(certs: map<nat, seq<Bytes>>, decode: Decode, lo: nat, hi: nat): set<string>
    decreases hi
  {
    if hi <= lo then {} else RangeNames(certs, decode, lo, hi - 1) + EntryNames(certs, decode, hi - 1)
  }

  function TotalBytes(tiles: seq<(string, Bytes)>): nat {
    if tiles == [] then 0 else TotalBytes(tiles[..|tiles| - 1]) + |tiles[|tiles| - 1].1|
  }

  /** Tile j of a batch is the j-th tile from the start, as fetched. */
  ghost predicate Consecutive(fetch: Fetch, treeSize: nat, first: nat, tiles: seq<(string, Bytes)>) {
    forall j :: 0 <= j < |tiles| ==> IsTile(fetch, treeSize, first + j, tiles[j])
  }

  predicate IsTile(fetch: Fetch, treeSize: nat, index: nat, tile: (string, Bytes)) {
    index in fetch && tile == (TilePath(index, treeSize), fetch[index])
  }

  function EntriesToTake(entries: nat, offset: nat, remainingBudget: nat, untilEnd: nat): nat {
    Min(Min(Monus(entries, offset), remainingBudget), untilEnd)
  }

  /** A complete tile always moves a cursor that is short of the tree: the source's bail-out is unreachable. */
  lemma TileAlwaysAdvances(cursor: nat, treeSize: nat, remainingBudget: nat)
    requires cursor < treeSize && remainingBudget > 0
    ensures var index := cursor / 256;
            var offset := cursor - index * 256;
            var expected := ExpectedEntries(index, treeSize);
            && offset < expected
            && offset == cursor % 256
            && index * 256 + expected <= treeSize
            && EntriesToTake(expected, offset, remainingBudget, treeSize - cursor) > 0
            && (index * 256 + expected < treeSize ==> expected == 256)
  {
    var index := cursor / 256;
    assert cursor == index * 256 + cursor % 256;
    assert treeSize == treeSize / 256 * 256 + treeSize % 256;
    assert index <= treeSize / 256;
  }

  lemma InsideTile(index: nat, i: nat)
    requires i < 256
    ensures (index * 256 + i) / 256 == index && (index * 256 + i) % 256 == i
  {
  }

  /** The names of the certificates lo..hi, which all decode. */
  function DerNames(decode: Decode, ders: seq<Bytes>, lo: nat, hi: nat): set<string>
    requires lo <= hi <= |ders|
    requires forall k :: lo <= k < hi ==> ders[k] in decode
    decreases hi
  {
    if hi == lo then {} else DerNames(decode, ders, lo, hi - 1) + decode[ders[hi - 1]]
  }

  predicate AllDecode(decode: Decode, ders: seq<Bytes>, lo: nat, hi: nat)
    requires lo <= hi <= |ders|
  {
    forall k :: lo <= k < hi ==> ders[k] in decode
  }

  /** Adds the names of the certificates lo..hi; None from the first one that is bad or too much. */
  function Decoded(decode: Decode, ders: seq<Bytes>, lo: nat, hi: nat, names: set<string>): Option<set<string>>
    requires lo <= hi <= |ders|
    decreases hi
  {
    if hi == lo then Some(names)
    else
      var all :- Decoded(decode, ders, lo, hi - 1, names);
      if ders[hi - 1] !in decode || |all| + |decode[ders[hi - 1]]| > MAX_NAMES_PER_BATCH then None
      else Some(all + decode[ders[hi - 1]])
  }

  lemma {:induction false} DecodedNames(decode: Decode, ders: seq<Bytes>, lo: nat, hi: nat, names: set<string>)
    requires lo <= hi <= |ders| && Decoded(decode, ders, lo, hi, names).Some?
    ensures AllDecode(decode, ders, lo, hi)
    ensures Decoded(decode, ders, lo, hi, names).value == names + DerNames(decode, ders, lo, hi)
    decreases hi
  {
    if lo < hi {
      DecodedNames(decode, ders, lo, hi - 1, names);
    }
  }

  lemma {:induction false} DecodedStaysNone(decode: Decode, ders: seq<Bytes>, lo: nat, mid: nat, hi: nat, names: set<string>)
    requires lo <= mid <= hi <= |ders| && Decoded(decode, ders, lo, mid, names).None?
    ensures Decoded(decode, ders, lo, hi, names).None?
    decreases hi
  {
    if mid < hi {
      DecodedStaysNone(decode, ders, lo, mid, hi - 1, names);
    }
  }

  /** Adds the names of consecutive entries; the whole batch fails with the first bad certificate. */
  method DecodeEntries(decode: Decode, ders: seq<Bytes>, offset: nat, take: nat, names: set<string>)
    returns (r: Option<set<string>>)
    requires offset + take <= |ders|
    ensures r == Decoded(decode, ders, offset, offset + take, names)
  {
    var all := names;
    for k := offset to offset + take
      invariant Decoded(decode, ders, offset, k, names) == Some(all)
    {
      if ders[k] !in decode || |all| + |decode[ders[k]]| > MAX_NAMES_PER_BATCH {
        DecodedStaysNone(decode, ders, offset, k + 1, offset + take, names);
        return None;
      }
      all := all + decode[ders[k]];
    }
    return Some(all);
  }

  lemma EntryOfTile(certs: map<nat, seq<Bytes>>, decode: Decode, index: nat, k: nat)
    requires index in certs && k < |certs[index]| <= 256 && certs[index][k] in decode
    ensures Readable(certs, decode, index * 256 + k) && EntryNames(certs, decode, index * 256 + k) == decode[certs[index][k]]
  {
    InsideTile(index, k);
  }

  lemma {:induction false} OneMoreEntry(certs: map<nat, seq<Bytes>>, decode: Decode, start: nat, from: nat, last: nat, names: set<string>)
    requires start <= from <= last && AllReadable(certs, decode, from, last) && Readable(certs, decode, last)
    requires RangeNames(certs, decode, start, last) == RangeNames(certs, decode, start, from) + names
    ensures AllReadable(certs, decode, from, last + 1)
    ensures RangeNames(certs, decode, start, last + 1) == RangeNames(certs, decode, start, from) + (names + EntryNames(certs, decode, last))
  {
  }

  /** Within one tile, the names of the entries from..to are those of its certificates. */
  lemma {:induction false} TileNames(certs: map<nat, seq<Bytes>>, decode: Decode, start: nat, index: nat, from: nat, to: nat, lo: nat, hi: nat)
    requires index in certs && lo <= hi <= |certs[index]| <= 256
    requires start <= from == index * 256 + lo && to == index * 256 + hi
    requires AllDecode(decode, certs[index], lo, hi)
    ensures AllReadable(certs, decode, from, to)
    ensures RangeNames(certs, decode, start, to) == RangeNames(certs, decode, start, from) + DerNames(decode, certs[index], lo, hi)
    decreases hi
  {
    if lo < hi {
      TileNames(certs, decode, start, index, from, to - 1, lo, hi - 1);
      EntryOfTile(certs, decode, index, hi - 1);
      OneMoreEntry(certs, decode, start, from, to - 1, DerNames(decode, certs[index], lo, hi - 1));
    }
  }

  /** certs records what parsing each fetched tile gives. */
  ghost predicate Parses(fetch: Fetch, treeSize: nat, certs: map<nat, seq<Bytes>>) {
    forall index {:trigger TileCertificates(fetch[index], ExpectedEntries(index, treeSize))} :: index in fetch ==>
      TileCertificates(fetch[index], ExpectedEntries(index, treeSize)) == if index in certs then Some(certs[index]) else None
  }

  method ParseTile(fetch: Fetch, treeSize: nat, index: nat, ghost certs: map<nat, seq<Bytes>>) returns (r: Option<seq<Bytes>>)
    requires index in fetch && Parses(fetch, treeSize, certs)
    ensures r == if index in certs then Some(certs[index]) else None
    ensures r.Some? ==> |r.value| == ExpectedEntries(index, treeSize)
  {
    r := ParseDataTile(fetch[index], ExpectedEntries(index, treeSize));
    if r.Some? { TileLength(fetch[index], ExpectedEntries(index, treeSize)); }
  }

  /** What a successful sync delivers. */
  ghost predicate Delivered(fetch: Fetch, certs: map<nat, seq<Bytes>>, decode: Decode, treeSize: nat, start: nat, budget: nat, b: StaticBatch) {
    && b.checkpointSize == treeSize
    && b.nextCursor == start + b.entriesProcessed <= Min(start + budget, treeSize)
    && AllReadable(certs, decode, start, b.nextCursor)
    && b.names == RangeNames(certs, decode, start, b.nextCursor)
    && Consecutive(fetch, treeSize, start / 256, b.tiles)
    && |b.tiles| <= MAX_TILES_PER_SYNC && TotalBytes(b.tiles) <= MAX_BATCH_BYTES
  }

  lemma OneMoreTile(fetch: Fetch, treeSize: nat, first: nat, tiles: seq<(string, Bytes)>, tile: (string, Bytes))
    requires Consecutive(fetch, treeSize, first, tiles) && IsTile(fetch, treeSize, first + |tiles|, tile)
    ensures Consecutive(fetch, treeSize, first, tiles + [tile]) && TotalBytes(tiles + [tile]) == TotalBytes(tiles) + |tile.1|
  {
    assert (tiles + [tile])[..|tiles|] == tiles;
  }

  /** While the loop may go on, the cursor stands at the tile that follows the ones fetched so far. */
  predicate AtNextTile(start: nat, cursor: nat, tiles: nat) {
    if tiles == 0 then cursor == start else cursor == (start / 256 + tiles) * 256
  }

  lemma CursorTile(start: nat, cursor: nat, tiles: nat)
    requires AtNextTile(start, cursor, tiles)
    ensures cursor / 256 == start / 256 + tiles
  {
    if tiles > 0 { InsideTile(start / 256 + tiles, 0); }
  }

  lemma NextTile(start: nat, cursor: nat, tiles: nat, treeSize: nat, remainingBudget: nat)
    requires AtNextTile(start, cursor, tiles) && cursor < treeSize && remainingBudget > 0
    ensures var index := cursor / 256;
            var take := EntriesToTake(ExpectedEntries(index, treeSize), cursor - index * 256, remainingBudget, treeSize - cursor);
            && 0 < take <= remainingBudget && cursor + take <= treeSize
            && cursor - index * 256 + take <= ExpectedEntries(index, treeSize) <= 256
            && (cursor + take < treeSize && take < remainingBudget ==> AtNextTile(start, cursor + take, tiles + 1))
  {
    TileAlwaysAdvances(cursor, treeSize, remainingBudget);
    CursorTile(start, cursor, tiles);
  }

  lemma TileLength(payload: Bytes, expected: nat)
    requires TileCertificates(payload, expected).Some?
    ensures |TileCertificates(payload, expected).value| == expected
  {
  }

  /** The variables of the tile loop. */
  datatype Progress = Progress(cursor: nat, processed: nat, names: set<string>, tiles: seq<(string, Bytes)>, batchBytes: nat)

  /** The position, the budget and the caps. */
  predicate Bounded(p: Progress, treeSize: nat, start: nat, budget: nat) {
    && p.cursor == start + p.processed <= treeSize && p.processed <= budget
    && |p.tiles| <= MAX_TILES_PER_SYNC && p.batchBytes <= MAX_BATCH_BYTES
    && (p.tiles != [] ==> p.processed >= 1)
    && (p.cursor < treeSize && p.processed < budget ==> AtNextTile(start, p.cursor, |p.tiles|))
  }

  /** What has been collected so far. */
  ghost predicate Collected(p: Progress, fetch: Fetch, certs: map<nat, seq<Bytes>>, decode: Decode, treeSize: nat, start: nat) {
    && AllReadable(certs, decode, start, p.cursor)
    && p.names == RangeNames(certs, decode, start, p.cursor)
    && Consecutive(fetch, treeSize, start / 256, p.tiles)
    && p.batchBytes == TotalBytes(p.tiles)
  }

  /** Taking part of the next tile extends what has been collected. */
  lemma CollectTile(
      p: Progress, after: Progress, fetch: Fetch, certs: map<nat, seq<Bytes>>, decode: Decode, treeSize: nat, start: nat,
      index: nat, offset: nat, take: nat)
    requires Collected(p, fetch, certs, decode, treeSize, start)
    requires index == start / 256 + |p.tiles| && index in fetch && index in certs
    requires start <= p.cursor == index * 256 + offset && offset + take <= |certs[index]| <= 256
    requires AllDecode(decode, certs[index], offset, offset + take)
    requires after.cursor == p.cursor + take
    requires after.names == p.names + DerNames(decode, certs[index], offset, offset + take)
    requires after.tiles == p.tiles + [(TilePath(index, treeSize), fetch[index])]
    requires after.batchBytes == p.batchBytes + |fetch[index]|
    ensures Collected(after, fetch, certs, decode, treeSize, start)
  {
    TileNames(certs, decode, start, index, p.cursor, after.cursor, offset, offset + take);
    OneMoreTile(fetch, treeSize, start / 256, p.tiles, (TilePath(index, treeSize), fetch[index]));
  }

  datatype Outcome = Failed | BatchFull | More(progress: Progress)

  /** One round of the loop: the tile under the cursor, of which as much is taken as the budget allows. */
  function Round(p: Progress, fetch: Fetch, certs: map<nat, seq<Bytes>>, decode: Decode, treeSize: nat, budget: nat): (r: Outcome)
    requires p.cursor <= treeSize && p.processed <= budget
    ensures r.More? ==> |r.progress.tiles| == |p.tiles| + 1
    ensures r.More? ==> r.progress.cursor <= treeSize && r.progress.processed <= budget
  {
    var index := p.cursor / 256;
    if index !in fetch || |fetch[index]| > MAX_TILE_BYTES then Failed
    else if p.batchBytes + |fetch[index]| > MAX_BATCH_BYTES then BatchFull
    else if index !in certs then Failed
    else
      var offset := p.cursor - index * 256;
      var take := EntriesToTake(|certs[index]|, offset, budget - p.processed, treeSize - p.cursor);
      if take == 0 then Failed
      else
        match Decoded(decode, certs[index], offset, offset + take, p.names)
        case None => Failed
        case Some(found) =>
          More(Progress(p.cursor + take, p.processed + take, found, p.tiles + [(TilePath(index, treeSize), fetch[index])],
                        p.batchBytes + |fetch[index]|))
  }

  method TakeTile(p: Progress, fetch: Fetch, decode: Decode, treeSize: nat, budget: nat, ghost certs: map<nat, seq<Bytes>>)
    returns (r: Outcome)
    requires p.cursor <= treeSize && p.processed <= budget && Parses(fetch, treeSize, certs)
    ensures r == Round(p, fetch, certs, decode, treeSize, budget)
  {
    var index := p.cursor / 256;
    if index !in fetch || |fetch[index]| > MAX_TILE_BYTES {
      return Failed;
    }
    if p.batchBytes + |fetch[index]| > MAX_BATCH_BYTES {
      return BatchFull;
    }
    var entries := ParseTile(fetch, treeSize, index, certs);
    if entries.None? {
      return Failed;
    }
    var offset := p.cursor - index * 256;
    var take := EntriesToTake(|entries.value|, offset, budget - p.processed, treeSize - p.cursor);
    if take == 0 {
      return Failed;
    }
    var found := DecodeEntries(decode, entries.value, offset, take, p.names);
    if found.None? {
      return Failed;
    }
    var tile := (TilePath(index, treeSize), fetch[index]);
    return More(Progress(p.cursor + take, p.processed + take, found.value, p.tiles + [tile], p.batchBytes + |fetch[index]|));
  }

  /** The certificates recorded for a tile are as many as the tile must hold. */
  ghost predicate FullTiles(fetch: Fetch, treeSize: nat, certs: map<nat, seq<Bytes>>) {
    forall index {:trigger certs[index]} :: index in fetch && index in certs ==> |certs[index]| == ExpectedEntries(index, treeSize)
  }

  lemma ParsedTilesAreFull(fetch: Fetch, treeSize: nat, certs: map<nat, seq<Bytes>>)
    requires Parses(fetch, treeSize, certs)
    ensures FullTiles(fetch, treeSize, certs)
  {
    forall index {:trigger certs[index]} | index in fetch && index in certs ensures |certs[index]| == ExpectedEntries(index, treeSize) {
      TileLength(fetch[index], ExpectedEntries(index, treeSize));
    }
  }

  /** One round moves the cursor within the caps. */
  lemma RoundAdvances(p: Progress, fetch: Fetch, certs: map<nat, seq<Bytes>>, decode: Decode, treeSize: nat, start: nat, budget: nat)
    requires Bounded(p, treeSize, start, budget) && p.cursor / 256 == start / 256 + |p.tiles|
    requires p.cursor < treeSize && p.processed < budget && |p.tiles| < MAX_TILES_PER_SYNC && FullTiles(fetch, treeSize, certs)
    ensures var r := Round(p, fetch, certs, decode, treeSize, budget);
            r.More? ==> Bounded(r.progress, treeSize, start, budget) && r.progress.cursor > p.cursor
  {
    var r := Round(p, fetch, certs, decode, treeSize, budget);
    if r.More? {
      assert |certs[p.cursor / 256]| == ExpectedEntries(p.cursor / 256, treeSize);
      NextTile(start, p.cursor, |p.tiles|, treeSize, budget - p.processed);
    }
  }

  /** One round extends the collected range; a first tile always fits into the batch. */
  lemma RoundCollects(p: Progress, fetch: Fetch, certs: map<nat, seq<Bytes>>, decode: Decode, treeSize: nat, start: nat, budget: nat)
    requires Collected(p, fetch, certs, decode, treeSize, start) && p.cursor / 256 == start / 256 + |p.tiles|
    requires start <= p.cursor <= treeSize && p.processed <= budget && FullTiles(fetch, treeSize, certs)
    ensures var r := Round(p, fetch, certs, decode, treeSize, budget);
            && (r.BatchFull? ==> p.tiles != [])
            && (r.More? ==> Collected(r.progress, fetch, certs, decode, treeSize, start))
  {
    var r := Round(p, fetch, certs, decode, treeSize, budget);
    if r.More? {
      var index := p.cursor / 256;
      var offset := p.cursor - index * 256;
      var take := r.progress.cursor - p.cursor;
      assert |certs[index]| == ExpectedEntries(index, treeSize);
      DecodedNames(decode, certs[index], offset, offset + take, p.names);
      CollectTile(p, r.progress, fetch, certs, decode, treeSize, start, index, offset, take);
    }
  }

  /** The tile loop. */
  function SyncFrom(p: Progress, fetch: Fetch, certs: map<nat, seq<Bytes>>, decode: Decode, treeSize: nat, budget: nat): Option<Progress>
    requires p.cursor <= treeSize && p.processed <= budget
    decreases MAX_TILES_PER_SYNC - |p.tiles|
  {
    if p.cursor >= treeSize || p.processed >= budget || |p.tiles| >= MAX_TILES_PER_SYNC then Some(p)
    else
      match Round(p, fetch, certs, decode, treeSize, budget)
      case Failed => None
      case BatchFull => Some(p)
      case More(next) => SyncFrom(next, fetch, certs, decode, treeSize, budget)
  }

  lemma {:induction false} SyncCollects(
      p: Progress, fetch: Fetch, certs: map<nat, seq<Bytes>>, decode: Decode, treeSize: nat, start: nat, budget: nat)
    requires Bounded(p, treeSize, start, budget) && Collected(p, fetch, certs, decode, treeSize, start)
    requires FullTiles(fetch, treeSize, certs)
    requires p.tiles != [] || (p.cursor < treeSize && p.processed < budget)
    ensures var r := SyncFrom(p, fetch, certs, decode, treeSize, budget);
            r.Some? ==>
              && Bounded(r.value, treeSize, start, budget) && r.value.tiles != []
              && Collected(r.value, fetch, certs, decode, treeSize, start)
    decreases MAX_TILES_PER_SYNC - |p.tiles|
  {
    if p.cursor < treeSize && p.processed < budget && |p.tiles| < MAX_TILES_PER_SYNC {
      CursorTile(start, p.cursor, |p.tiles|);
      RoundAdvances(p, fetch, certs, decode, treeSize, start, budget);
      RoundCollects(p, fetch, certs, decode, treeSize, start, budget);
      var r := Round(p, fetch, certs, decode, treeSize, budget);
      if r.More? {
        SyncCollects(r.progress, fetch, certs, decode, treeSize, start, budget);
      }
    }
  }

  /** The tile loop, from a start that is short of the tree. */
  method SyncTiles(fetch: Fetch, decode: Decode, treeSize: nat, start: nat, budget: nat, ghost certs: map<nat, seq<Bytes>>)
    returns (r: Option<Progress>)
    requires start < treeSize && budget > 0 && Parses(fetch, treeSize, certs)
    ensures r == SyncFrom(Progress(start, 0, {}, [], 0), fetch, certs, decode, treeSize, budget)
  {
    var p := Progress(start, 0, {}, [], 0);
    ghost var first := p;
    while p.cursor < treeSize && p.processed < budget && |p.tiles| < MAX_TILES_PER_SYNC
      invariant p.cursor <= treeSize && p.processed <= budget
      invariant SyncFrom(first, fetch, certs, decode, treeSize, budget) == SyncFrom(p, fetch, certs, decode, treeSize, budget)
      decreases MAX_TILES_PER_SYNC - |p.tiles|
    {
      var outcome := TakeTile(p, fetch, decode, treeSize, budget, certs);
      match outcome {
        case Failed => return None;
        case BatchFull => return Some(p);
        case More(next) => p := next;
      }
    }
    return Some(p);
  }

  /** What a whole sync delivers. */
  function StaticDelta(
      fetch: Fetch, certs: map<nat, seq<Bytes>>, decode: Decode, treeSize: nat, start: nat, reset: bool, budget: nat): Option<StaticBatch>
  {
    if budget == 0 || start >= treeSize then Some(StaticBatch(treeSize, reset, start, 0, {}, []))
    else
      var p :- SyncFrom(Progress(start, 0, {}, [], 0), fetch, certs, decode, treeSize, budget);
      Some(StaticBatch(treeSize, reset, p.cursor, p.processed, p.names, p.tiles))
  }

  /** Position, names, tiles and caps of whatever a sync delivers; with a backlog and a budget it makes progress. */
  lemma SyncDelivers(fetch: Fetch, certs: map<nat, seq<Bytes>>, decode: Decode, treeSize: nat, start: nat, reset: bool, budget: nat)
    requires Parses(fetch, treeSize, certs) && start <= treeSize
    ensures var r := StaticDelta(fetch, certs, decode, treeSize, start, reset, budget);
            r.Some? ==>
              && r.value.resetCursor == reset
              && Delivered(fetch, certs, decode, treeSize, start, budget, r.value)
              && (start < treeSize && budget > 0 ==> r.value.entriesProcessed >= 1)
  {
    ParsedTilesAreFull(fetch, treeSize, certs);
    if budget > 0 && start < treeSize {
      SyncCollects(Progress(start, 0, {}, [], 0), fetch, certs, decode, treeSize, start, budget);
    }
  }

  method FetchStaticDelta(fetch: Fetch, decode: Decode, treeSize: nat, stored: Option<nat>, budget: nat, initialBackfill: nat)
    returns (r: Option<StaticBatch>)
    ensures var (start, reset) := StartCursor(stored, treeSize, initialBackfill);
            r == StaticDelta(fetch, Certificates(fetch, treeSize), decode, treeSize, start, reset, budget)
    ensures var (start, reset) := StartCursor(stored, treeSize, initialBackfill);
            r.Some? ==>
              && r.value.resetCursor == reset
              && Delivered(fetch, Certificates(fetch, treeSize), decode, treeSize, start, budget, r.value)
              && (start < treeSize && budget > 0 ==> r.value.entriesProcessed >= 1)
  {
    var (start, reset) := StartCursor(stored, treeSize, initialBackfill);
    SyncDelivers(fetch, Certificates(fetch, treeSize), decode, treeSize, start, reset, budget);
    if budget == 0 || start >= treeSize {
      return Some(StaticBatch(treeSize, reset, start, 0, {}, []));
    }
    var p := SyncTiles(fetch, decode, treeSize, start, budget, Certificates(fetch, treeSize));
    if p.None? {
      return None;
    }
    return Some(StaticBatch(treeSize, reset, p.value.cursor, p.value.processed, p.value.names, p.value.tiles));
  }
}
