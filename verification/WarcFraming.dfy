/**
 Finding the records of a decompressed WARC stream (src/archive_intelligence.rs; section 4 of ISO 28500). Only the
 framing is modelled; what is done with a record's body changes neither the cursor nor the count of records.
 */
module WarcFraming {
  import opened Basics
  import opened Hostnames
  import opened Decimals
  import opened Orders

  type Bytes = seq<byte>

  const CR: byte := 13
  const LF: byte := 10
  /** "WARC/1." */
  function Marker(): Bytes { [87, 65, 82, 67, 47, 49, 46] }
  function CrlfTwice(): Bytes { [CR, LF, CR, LF] }
  function LfTwice(): Bytes { [LF, LF] }
  function GzipMagic(): Bytes { [0x1f, 0x8b] }
  const USIZE_MAX: nat := 0xffff_ffff_ffff_ffff

  datatype Limits = Limits(maxArchiveBytes: nat, maxRecordBytes: nat, maxHeaderBytes: nat, maxRecords: nat)

  // ----- searching -----

  predicate At(data: Bytes, p: nat, pattern: Bytes) {
    p + |pattern| <= |data| && data[p..p + |pattern|] == pattern
  }

  /** The first occurrence of the pattern from start on. */
  function FirstAt(data: Bytes, start: nat, pattern: Bytes): (r: Option<nat>)
    ensures r.Some? ==> start <= r.value && r.value + |pattern| <= |data|
    decreases |data| - start
  {
    if start + |pattern| > |data| then None
    else if At(data, start, pattern) then Some(start)
    else FirstAt(data, start + 1, pattern)
  }

  lemma {:induction false} FirstAtFinds(data: Bytes, start: nat, pattern: Bytes)
    ensures var r := FirstAt(data, start, pattern);
            && (r.Some? ==> At(data, r.value, pattern) && forall p :: start <= p < r.value ==> !At(data, p, pattern))
            && (r.None? ==> forall p :: start <= p ==> !At(data, p, pattern))
    decreases |data| - start
  {
    if start + |pattern| <= |data| && !At(data, start, pattern) {
      FirstAtFinds(data, start + 1, pattern);
    }
  }

  /** The first occurrence is the only result that fits its description. */
  lemma FirstIs(data: Bytes, start: nat, pattern: Bytes, p: nat)
    requires start <= p && At(data, p, pattern) && forall q :: start <= q < p ==> !At(data, q, pattern)
    ensures FirstAt(data, start, pattern) == Some(p)
  {
    FirstAtFinds(data, start, pattern);
  }

  // ----- headers -----

  /** The end of a header block and the start of its body. */
  datatype Bounds = Bounds(headerEnd: nat, bodyStart: nat)

  /** The bytes in which a header block must end. */
  function Window(data: Bytes, start: nat, maxHeaderBytes: nat): Bytes {
    if start > |data| then [] else data[start..start + Min(|data| - start, maxHeaderBytes)]
  }

  function HeaderBounds(data: Bytes, start: nat, maxHeaderBytes: nat): (r: Option<Bounds>)
    ensures r.Some? ==> start <= r.value.headerEnd < r.value.bodyStart <= |data|
  {
    var window := Window(data, start, maxHeaderBytes);
    var crlf := FirstAt(window, 0, CrlfTwice());
    if crlf.Some? then Some(Bounds(start + crlf.value, start + crlf.value + 4))
    else
      var lf :- FirstAt(window, 0, LfTwice());
      Some(Bounds(start + lf, start + lf + 2))
  }

  function UntilChar(s: string, c: char): (n: nat)
    ensures n <= |s|
    ensures n < |s| ==> s[n] == c
    ensures forall i :: 0 <= i < n ==> s[i] != c
  {
    if s == "" || s[0] == c then 0 else 1 + UntilChar(s[1..], c)
  }

  /** The value that one header line gives to the wanted field, if it is that field. */
  function FieldOf(line: string, wanted: string): Option<string> {
    var text := TrimEnd(line, c => c == '\r');
    var colon := UntilChar(text, ':');
    if colon < |text| && Lower(Trim(text[..colon])) == Lower(wanted) then Some(Trim(text[colon + 1..])) else None
  }

  /** The first line that names the wanted field, in any case, gives its value. */
  function HeaderValue(text: string, wanted: string): Option<string>
    decreases |text|
  {
    if text == "" then None
    else
      var end := UntilChar(text, '\n');
      var field := FieldOf(text[..end], wanted);
      if field.Some? then field
      else if end == |text| then None
      else HeaderValue(text[end + 1..], wanted)
  }

  function ParseUsize(s: string): Option<nat> {
    var digits := if "+" <= s then s[1..] else s;
    if Numeral(digits) && Value(digits) <= USIZE_MAX then Some(Value(digits)) else None
  }

  /** decode reads UTF-8. */
  function ContentLength(decode: Bytes -> Option<string>, headers: Bytes): Option<nat> {
    var text :- decode(headers);
    var value :- HeaderValue(text, "content-length");
    ParseUsize(value)
  }

  /** What the length field of a header block says. */
  type LengthReader = Bytes -> Option<nat>

  function ContentLengths(decode: Bytes -> Option<string>): LengthReader { headers => ContentLength(decode, headers) }

  // ----- scanning -----

  datatype Visit =
    | Unframed(start: nat)
    | Unsized(start: nat, bodyStart: nat)
    | Overflowing(start: nat)
    | CutOff(start: nat)
    | Record(start: nat, headerEnd: nat, bodyStart: nat, bodyEnd: nat, oversized: bool)

  function VisitAt(lengthOf: LengthReader, limits: Limits, data: Bytes, start: nat): (v: Visit)
    ensures v.start == start
  {
    var bounds := HeaderBounds(data, start, limits.maxHeaderBytes);
    if bounds.None? then Unframed(start)
    else
      var b := bounds.value;
      var length := lengthOf(data[start..b.headerEnd]);
      if length.None? then Unsized(start, b.bodyStart)
      else if b.bodyStart + length.value > USIZE_MAX then Overflowing(start)
      else if b.bodyStart + length.value > |data| then CutOff(start)
      else Record(start, b.headerEnd, b.bodyStart, b.bodyStart + length.value, length.value > limits.maxRecordBytes)
  }

  /** Where the scan goes on, unless it stops. */
  function NextCursor(v: Visit): Option<nat> {
    match v
    case Unframed(start) => Some(start + 8)
    case Unsized(_, bodyStart) => Some(bodyStart)
    case Overflowing(_) => None
    case CutOff(_) => None
    case Record(_, _, _, bodyEnd, _) => Some(bodyEnd)
  }

  datatype Report = Report(visits: seq<Visit>, recordLimitHit: bool)

  /** Where the first marker from a cursor on stands, and what is found at a marker. */
  type Finder = nat -> Option<nat>
  type Visitor = nat -> Visit

  function FindMarker(data: Bytes): Finder { (p: nat) => FirstAt(data, p, Marker()) }

  function VisitMarker(lengthOf: LengthReader, limits: Limits, data: Bytes): Visitor {
    (p: nat) => VisitAt(lengthOf, limits, data, p)
  }

  ghost predicate Searches(data: Bytes, find: Finder) {
    forall p: nat {:trigger FirstAt(data, p, Marker())} :: find(p) == FirstAt(data, p, Marker())
  }

  ghost predicate Reads(lengthOf: LengthReader, limits: Limits, data: Bytes, visit: Visitor) {
    forall p: nat {:trigger VisitAt(lengthOf, limits, data, p)} :: visit(p) == VisitAt(lengthOf, limits, data, p)
  }

  function Scan(find: Finder, visit: Visitor, maxRecords: nat, cursor: nat, seen: nat): Report
    requires seen <= maxRecords
    decreases maxRecords - seen
  {
    var marker := find(cursor);
    if marker.None? then Report([], false)
    else if seen == maxRecords then Report([], true)
    else
      var v := visit(marker.value);
      var next := NextCursor(v);
      if next.None? then Report([v], false)
      else
        var rest := Scan(find, visit, maxRecords, next.value, seen + 1);
        Report([v] + rest.visits, rest.recordLimitHit)
  }

  /** The counters of the statistics. */
  datatype Stats = Stats(seen: nat, malformed: nat, oversized: nat, archiveTruncated: bool, recordLimitHit: bool)

  predicate Malformed(v: Visit) { v.Unframed? || v.Unsized? || v.Overflowing? }

  function Count(visits: seq<Visit>, p: Visit -> bool): nat {
    if visits == [] then 0 else Count(visits[..|visits| - 1], p) + if p(visits[|visits| - 1]) then 1 else 0
  }

  predicate Oversized(v: Visit) { v.Record? && v.oversized }

  lemma VisitMovesOn(lengthOf: LengthReader, limits: Limits, data: Bytes, start: nat)
    ensures var v := VisitAt(lengthOf, limits, data, start); v.start == start && (NextCursor(v).Some? ==> NextCursor(v).value > start)
  {
  }

  /** What the rest of a scan adds to the visits so far. */
  function Continued(before: seq<Visit>, rest: Report): Report {
    Report(before + rest.visits, rest.recordLimitHit)
  }

  lemma ContinuedStep(before: seq<Visit>, v: Visit, rest: Report)
    ensures Continued(before, Report([v] + rest.visits, rest.recordLimitHit)) == Continued(before + [v], rest)
    ensures Continued(before, Report([v], false)) == Report(before + [v], false)
  {
    assert before + ([v] + rest.visits) == (before + [v]) + rest.visits;
  }

  lemma CountMore(before: seq<Visit>, v: Visit, p: Visit -> bool)
    ensures Count(before + [v], p) == Count(before, p) + if p(v) then 1 else 0
  {
    assert (before + [v])[..|before|] == before;
  }

  /** One round of a scan under way. */
  lemma ContinuedScan(before: seq<Visit>, find: Finder, visit: Visitor, maxRecords: nat, cursor: nat, seen: nat, marker: nat, v: Visit)
    requires seen < maxRecords && find(cursor) == Some(marker) && v == visit(marker)
    ensures Continued(before, Scan(find, visit, maxRecords, cursor, seen)) ==
              if NextCursor(v).None? then Report(before + [v], false)
              else Continued(before + [v], Scan(find, visit, maxRecords, NextCursor(v).value, seen + 1))
  {
    if NextCursor(v).Some? {
      ContinuedStep(before, v, Scan(find, visit, maxRecords, NextCursor(v).value, seen + 1));
    }
  }

  lemma ContinuedStart(whole: Report)
    ensures whole == Continued([], whole)
  {
    assert [] + whole.visits == whole.visits;
  }

  /** A scan ends where there is no marker, or no room for one more record. */
  lemma ContinuedEnd(before: seq<Visit>, find: Finder, visit: Visitor, maxRecords: nat, cursor: nat, seen: nat)
    requires seen <= maxRecords
    ensures find(cursor).None? ==> Continued(before, Scan(find, visit, maxRecords, cursor, seen)) == Report(before, false)
    ensures find(cursor).Some? && seen == maxRecords ==>
              Continued(before, Scan(find, visit, maxRecords, cursor, seen)) == Report(before, true)
  {
    assert before + [] == before;
  }

  method FindNext(data: Bytes, cursor: nat, ghost find: Finder) returns (marker: Option<nat>)
    requires Searches(data, find)
    ensures marker == find(cursor) && (marker.Some? ==> marker.value >= cursor)
  {
    marker := FirstAt(data, cursor, Marker());
  }

  method ReadRecord(lengthOf: LengthReader, limits: Limits, data: Bytes, start: nat, ghost visit: Visitor) returns (v: Visit)
    requires Reads(lengthOf, limits, data, visit)
    ensures v == visit(start) && (NextCursor(v).Some? ==> NextCursor(v).value > start)
  {
    v := VisitAt(lengthOf, limits, data, start);
    VisitMovesOn(lengthOf, limits, data, start);
  }

  method CountVisit(ghost visits: seq<Visit>, v: Visit, malformed: nat, oversized: nat) returns (m: nat, o: nat)
    requires malformed == Count(visits, Malformed) && oversized == Count(visits, Oversized)
    ensures m == Count(visits + [v], Malformed) && o == Count(visits + [v], Oversized)
  {
    CountMore(visits, v, Malformed);
    CountMore(visits, v, Oversized);
    m := malformed + if Malformed(v) then 1 else 0;
    o := oversized + if Oversized(v) then 1 else 0;
  }

  /** What a round of the loop finds: no marker, no room, the last record of the scan, or one behind which it goes on. */
  datatype Found = Nothing | Full | Last(v: Visit) | More(v: Visit, next: nat)

  /** The scan from a cursor on when so many records have been seen. */
  type Rest = (nat, nat) -> Report

  function RestOfScan(find: Finder, visit: Visitor, maxRecords: nat): Rest {
    (cursor: nat, seen: nat) => if seen <= maxRecords then Scan(find, visit, maxRecords, cursor, seen) else Report([], true)
  }

  ghost predicate Scans(find: Finder, visit: Visitor, maxRecords: nat, rest: Rest) {
    forall cursor: nat, seen: nat {:trigger Scan(find, visit, maxRecords, cursor, seen)} :: seen <= maxRecords ==>
      rest(cursor, seen) == Scan(find, visit, maxRecords, cursor, seen)
  }

  lemma FoundRecord(
      before: seq<Visit>, find: Finder, visit: Visitor, maxRecords: nat, rest: Rest, cursor: nat, seen: nat, marker: nat, v: Visit)
    requires Scans(find, visit, maxRecords, rest) && seen < maxRecords && find(cursor) == Some(marker) && v == visit(marker)
    ensures Continued(before, rest(cursor, seen)) ==
              if NextCursor(v).None? then Report(before + [v], false) else Continued(before + [v], rest(NextCursor(v).value, seen + 1))
  {
    assert rest(cursor, seen) == Scan(find, visit, maxRecords, cursor, seen);
    if NextCursor(v).Some? {
      assert rest(NextCursor(v).value, seen + 1) == Scan(find, visit, maxRecords, NextCursor(v).value, seen + 1);
    }
    ContinuedScan(before, find, visit, maxRecords, cursor, seen, marker, v);
  }

  lemma FoundEnd(before: seq<Visit>, find: Finder, visit: Visitor, maxRecords: nat, rest: Rest, cursor: nat, seen: nat)
    requires Scans(find, visit, maxRecords, rest) && seen <= maxRecords
    ensures find(cursor).None? ==> Continued(before, rest(cursor, seen)) == Report(before, false)
    ensures find(cursor).Some? && seen == maxRecords ==> Continued(before, rest(cursor, seen)) == Report(before, true)
  {
    assert rest(cursor, seen) == Scan(find, visit, maxRecords, cursor, seen);
    ContinuedEnd(before, find, visit, maxRecords, cursor, seen);
  }

  /** One round, which moves the cursor strictly forward. */
  method LookForRecord(
      lengthOf: LengthReader, limits: Limits, data: Bytes, cursor: nat, ghost find: Finder, ghost visit: Visitor, ghost rest: Rest,
      seen: nat, ghost before: seq<Visit>)
    returns (found: Found)
    requires Searches(data, find) && Reads(lengthOf, limits, data, visit) && Scans(find, visit, limits.maxRecords, rest)
    requires seen <= limits.maxRecords
    ensures var all := Continued(before, rest(cursor, seen));
            match found
            case Nothing => all == Report(before, false)
            case Full => all == Report(before, true)
            case Last(v) => seen < limits.maxRecords && all == Report(before + [v], false)
            case More(v, next) =>
              && seen < limits.maxRecords && !v.CutOff? && next > cursor && all == Continued(before + [v], rest(next, seen + 1))
  {
    var marker := FindNext(data, cursor, find);
    FoundEnd(before, find, visit, limits.maxRecords, rest, cursor, seen);
    if marker.None? {
      return Nothing;
    }
    if seen >= limits.maxRecords {
      return Full;
    }
    var v := ReadRecord(lengthOf, limits, data, marker.value, visit);
    FoundRecord(before, find, visit, limits.maxRecords, rest, cursor, seen, marker.value, v);
    var next := NextCursor(v);
    return if next.None? then Last(v) else More(v, next.value);
  }

  /** The record loop looks at no more than maxRecords records. */
  method ReadRecords(lengthOf: LengthReader, limits: Limits, data: Bytes, ghost find: Finder, ghost visit: Visitor, ghost rest: Rest)
    returns (visits: seq<Visit>, stats: Stats)
    requires Searches(data, find) && Reads(lengthOf, limits, data, visit) && Scans(find, visit, limits.maxRecords, rest)
    ensures Report(visits, stats.recordLimitHit) == rest(0, 0)
    ensures stats.seen == |visits| <= limits.maxRecords
    ensures stats.malformed == Count(visits, Malformed) && stats.oversized == Count(visits, Oversized)
    ensures stats.archiveTruncated <==> visits != [] && visits[|visits| - 1].CutOff?
  {
    visits := [];
    var cursor, seen, malformed, oversized := 0, 0, 0, 0;
    ContinuedStart(rest(0, 0));
    while true
      invariant seen == |visits| <= limits.maxRecords
      invariant malformed == Count(visits, Malformed) && oversized == Count(visits, Oversized)
      invariant visits != [] ==> !visits[|visits| - 1].CutOff?
      invariant rest(0, 0) == Continued(visits, rest(cursor, seen))
      decreases limits.maxRecords - seen
    {
      var found := LookForRecord(lengthOf, limits, data, cursor, find, visit, rest, seen, visits);
      match found {
        case Nothing => return visits, Stats(seen, malformed, oversized, false, false);
        case Full => return visits, Stats(seen, malformed, oversized, false, true);
        case Last(v) =>
          malformed, oversized := CountVisit(visits, v, malformed, oversized);
          return visits + [v], Stats(seen + 1, malformed, oversized, v.CutOff?, false);
        case More(v, next) =>
          malformed, oversized := CountVisit(visits, v, malformed, oversized);
          visits, seen, cursor := visits + [v], seen + 1, next;
      }
    }
  }

  /** Scanning reads what the scan visits. */
  method ScanRecords(lengthOf: LengthReader, limits: Limits, data: Bytes, ghost find: Finder, ghost visit: Visitor)
    returns (visits: seq<Visit>, stats: Stats)
    requires Searches(data, find) && Reads(lengthOf, limits, data, visit)
    ensures Report(visits, stats.recordLimitHit) == Scan(find, visit, limits.maxRecords, 0, 0)
    ensures stats.seen == |visits| <= limits.maxRecords
    ensures stats.malformed == Count(visits, Malformed) && stats.oversized == Count(visits, Oversized)
    ensures stats.archiveTruncated <==> visits != [] && visits[|visits| - 1].CutOff?
  {
    visits, stats := ReadRecords(lengthOf, limits, data, find, visit, RestOfScan(find, visit, limits.maxRecords));
  }

  /** The whole entry point: compressed input is refused, and the input is cut at the byte limit. */
  method AnalyzeWarc(decode: Bytes -> Option<string>, limits: Limits, input: Bytes) returns (r: Option<(seq<Visit>, Stats)>)
    ensures r.None? <==> GzipMagic() <= input[..Min(|input|, limits.maxArchiveBytes + 1)]
    ensures r.Some? ==>
              var data := input[..Min(|input|, limits.maxArchiveBytes)];
              && Report(r.value.0, r.value.1.recordLimitHit)
                 == Scan(FindMarker(data), VisitMarker(ContentLengths(decode), limits, data), limits.maxRecords, 0, 0)
              && r.value.1.seen == |r.value.0| <= limits.maxRecords
              && (|input| > limits.maxArchiveBytes ==> r.value.1.archiveTruncated)
  {
    var data := input[..Min(|input|, limits.maxArchiveBytes + 1)];
    if GzipMagic() <= data {
      return None;
    }
    var truncated := |data| > limits.maxArchiveBytes;
    data := data[..Min(|data|, limits.maxArchiveBytes)];
    assert data == input[..Min(|input|, limits.maxArchiveBytes)];
    var visits, stats := ScanRecords(ContentLengths(decode), limits, data, FindMarker(data), VisitMarker(ContentLengths(decode), limits, data));
    return Some((visits, stats.(archiveTruncated := stats.archiveTruncated || truncated)));
  }

  // ----- any bytes -----

  /**
   Position p is passed over by this visit: eight bytes where no header block was found, the header block when it gives
   no length, the whole record when it does, and everything behind a record that does not fit.
   */
  predicate PassesOver(v: Visit, p: nat) {
    v.start <= p &&
    match v
    case Unframed(start) => p < start + 8
    case Unsized(_, bodyStart) => p < bodyStart
    case Overflowing(_) => true
    case CutOff(_) => true
    case Record(_, _, _, bodyEnd, _) => p < bodyEnd
  }

  /** From this cursor, find gives the first marker. */
  ghost predicate Finds(find: Finder, markers: nat -> bool, cursor: nat) {
    && (find(cursor).Some? ==> cursor <= find(cursor).value && markers(find(cursor).value))
    && (forall p: nat {:trigger markers(p)} :: cursor <= p && (find(cursor).Some? ==> p < find(cursor).value) ==> !markers(p))
  }

  ghost predicate FindsAll(find: Finder, markers: nat -> bool) {
    forall cursor: nat {:trigger find(cursor)} :: Finds(find, markers, cursor)
  }

  ghost predicate MovesOn(visit: Visitor) {
    forall p: nat {:trigger visit(p)} :: visit(p).start == p && (NextCursor(visit(p)).Some? ==> NextCursor(visit(p)).value > p)
  }

  predicate Behind(v: Visit, later: Visit) {
    NextCursor(v).Some? && v.start < NextCursor(v).value <= later.start
  }

  /** Visits stand at markers, each behind what the one before it passed over. */
  predicate Ordered(visits: seq<Visit>, cursor: nat, markers: nat -> bool) {
    && (forall k :: 0 <= k < |visits| ==> cursor <= visits[k].start && markers(visits[k].start))
    && (forall j, k :: 0 <= j < k < |visits| ==> Behind(visits[j], visits[k]))
  }

  ghost predicate AccountsFor(visits: seq<Visit>, p: nat) {
    exists k :: 0 <= k < |visits| && PassesOver(visits[k], p)
  }

  lemma OneMoreVisit(v: Visit, rest: seq<Visit>, p: nat)
    requires PassesOver(v, p) || AccountsFor(rest, p)
    ensures AccountsFor([v] + rest, p)
  {
    var visits := [v] + rest;
    if PassesOver(v, p) {
      assert PassesOver(visits[0], p);
    } else {
      var k :| 0 <= k < |rest| && PassesOver(rest[k], p);
      assert PassesOver(visits[k + 1], p);
    }
  }

  lemma OneMoreInOrder(v: Visit, rest: seq<Visit>, cursor: nat, markers: nat -> bool)
    requires cursor <= v.start && markers(v.start) && NextCursor(v).Some? && v.start < NextCursor(v).value
    requires Ordered(rest, NextCursor(v).value, markers)
    ensures Ordered([v] + rest, cursor, markers)
  {
    var visits := [v] + rest;
    forall j, k | 0 <= j < k < |visits| ensures Behind(visits[j], visits[k]) {
      assert visits[k] == rest[k - 1];
      assert j > 0 ==> visits[j] == rest[j - 1] && Behind(rest[j - 1], rest[k - 1]);
    }
  }

  ghost predicate AccountsForAll(visits: seq<Visit>, cursor: nat, markers: nat -> bool) {
    forall p: nat {:trigger markers(p)} :: cursor <= p && markers(p) ==> AccountsFor(visits, p)
  }

  lemma OneMoreAccounts(find: Finder, v: Visit, rest: seq<Visit>, cursor: nat, markers: nat -> bool)
    requires FindsAll(find, markers) && find(cursor) == Some(v.start)
    requires NextCursor(v).Some? ==> AccountsForAll(rest, NextCursor(v).value, markers)
    ensures AccountsForAll([v] + rest, cursor, markers)
  {
    forall p: nat | cursor <= p && markers(p) ensures AccountsFor([v] + rest, p) {
      assert p >= v.start;
      OneMoreVisit(v, rest, p);
    }
  }

  /** A report on the bytes from a cursor on, with room for this many more records. */
  ghost predicate Sound(r: Report, cursor: nat, room: nat, markers: nat -> bool) {
    && |r.visits| <= room && Ordered(r.visits, cursor, markers)
    && (r.recordLimitHit ==> |r.visits| == room)
    && (!r.recordLimitHit ==> AccountsForAll(r.visits, cursor, markers))
  }

  lemma OneMoreSound(find: Finder, v: Visit, rest: Report, cursor: nat, room: nat, markers: nat -> bool)
    requires FindsAll(find, markers) && find(cursor) == Some(v.start)
    requires NextCursor(v).Some? && v.start < NextCursor(v).value && Sound(rest, NextCursor(v).value, room, markers)
    ensures Sound(Report([v] + rest.visits, rest.recordLimitHit), cursor, room + 1, markers)
  {
    OneMoreInOrder(v, rest.visits, cursor, markers);
    if !rest.recordLimitHit {
      OneMoreAccounts(find, v, rest.visits, cursor, markers);
    }
  }

  lemma {:induction false} AnyScan(find: Finder, visit: Visitor, markers: nat -> bool, maxRecords: nat, cursor: nat, seen: nat)
    requires FindsAll(find, markers) && MovesOn(visit) && seen <= maxRecords
    ensures Sound(Scan(find, visit, maxRecords, cursor, seen), cursor, maxRecords - seen, markers)
    decreases maxRecords - seen
  {
    var marker := find(cursor);
    if marker.Some? && seen < maxRecords {
      var v := visit(marker.value);
      var next := NextCursor(v);
      if next.Some? {
        AnyScan(find, visit, markers, maxRecords, next.value, seen + 1);
        OneMoreSound(find, v, Scan(find, visit, maxRecords, next.value, seen + 1), cursor, maxRecords - seen - 1, markers);
      } else {
        assert [v] + [] == [v];
        OneMoreAccounts(find, v, [], cursor, markers);
      }
    }
  }

  /**
   On arbitrary bytes: visits stand at markers, strictly one behind the other, at most maxRecords of them, and unless
   the record limit was hit every marker was visited or lies in what a visit passed over.
   */
  lemma ScanIsOrderedAndComplete(lengthOf: LengthReader, limits: Limits, data: Bytes)
    ensures var r := Scan(FindMarker(data), VisitMarker(lengthOf, limits, data), limits.maxRecords, 0, 0);
            Sound(r, 0, limits.maxRecords, (p: nat) => At(data, p, Marker()))
  {
    var find, visit, markers := FindMarker(data), VisitMarker(lengthOf, limits, data), (p: nat) => At(data, p, Marker());
    forall cursor: nat ensures find(cursor) == FirstAt(data, cursor, Marker()) && Finds(find, markers, cursor) {
      FirstAtFinds(data, cursor, Marker());
    }
    forall p: nat ensures visit(p).start == p && (NextCursor(visit(p)).Some? ==> NextCursor(visit(p)).value > p) {
      VisitMovesOn(lengthOf, limits, data, p);
    }
    AnyScan(find, visit, markers, limits.maxRecords, 0, 0);
  }

  // ----- concatenated records -----

  /** The empty line behind the header lines: CRLF, as the standard has it, or bare line feeds, which are tolerated. */
  datatype Ending = CrLf | LineFeed
  {
    function Pattern(): Bytes { if CrLf? then CrlfTwice() else LfTwice() }
  }

  datatype WarcRecord = WarcRecord(head: Bytes, ending: Ending, body: Bytes, trailer: Bytes)
  {
    function Block(): Bytes { head + ending.Pattern() }
  }

  function Encode(r: WarcRecord): Bytes { r.Block() + r.body + r.trailer }

  /** Where the body of a record at start begins and ends. */
  function BodyAt(r: WarcRecord, start: nat): nat { start + |r.Block()| }

  function EndAt(r: WarcRecord, start: nat): nat { BodyAt(r, start) + |r.body| }

  function Archive(records: seq<WarcRecord>): Bytes {
    if records == [] then [] else Encode(records[0]) + Archive(records[1..])
  }

  predicate Blank(s: Bytes) { forall i :: 0 <= i < |s| ==> s[i] == CR || s[i] == LF }

  /** The header block starts with the marker, ends at its first empty line, and gives the length of the body. */
  predicate WellFormed(lengthOf: LengthReader, limits: Limits, r: WarcRecord) {
    && Marker() <= r.head
    && FirstAt(r.Block(), 0, r.ending.Pattern()) == Some(|r.head|)
    && |r.Block()| <= limits.maxHeaderBytes
    && lengthOf(r.head) == Some(|r.body|)
    && Blank(r.trailer)
  }

  function VisitOf(limits: Limits, r: WarcRecord, start: nat): Visit {
    Record(start, start + |r.head|, BodyAt(r, start), EndAt(r, start), |r.body| > limits.maxRecordBytes)
  }

  /** The visits that records standing at this offset should get. */
  function VisitsOf(limits: Limits, records: seq<WarcRecord>, offset: nat): (r: seq<Visit>)
    ensures |r| == |records|
  {
    if records == [] then []
    else [VisitOf(limits, records[0], offset)] + VisitsOf(limits, records[1..], offset + |Encode(records[0])|)
  }

  lemma NoMarkerInBlank(data: Bytes, cursor: nat, blank: Bytes, rest: Bytes)
    requires cursor <= |data| && data[cursor..] == blank + rest && Blank(blank)
    ensures forall q :: cursor <= q < cursor + |blank| ==> !At(data, q, Marker())
  {
    forall q | cursor <= q < cursor + |blank| ensures !At(data, q, Marker()) {
      assert data[q] == data[cursor..][q - cursor] == blank[q - cursor];
      if q + 7 <= |data| {
        assert data[q..q + 7][0] == data[q] != Marker()[0];
      }
    }
  }

  lemma BeginsWith(data: Bytes, p: nat, pattern: Bytes)
    requires p <= |data| && pattern <= data[p..]
    ensures At(data, p, pattern)
  {
    assert data[p..p + |pattern|] == data[p..][..|pattern|];
  }

  /** Blank bytes hold no marker, so the scan finds the one behind them. */
  lemma MarkerBehindBlank(data: Bytes, cursor: nat, blank: Bytes, rest: Bytes)
    requires cursor <= |data| && data[cursor..] == blank + rest && Blank(blank)
    requires rest == [] || Marker() <= rest
    ensures FirstAt(data, cursor, Marker()) == if rest == [] then None else Some(cursor + |blank|)
  {
    NoMarkerInBlank(data, cursor, blank, rest);
    DropBoth(data, cursor, blank, rest);
    if rest == [] {
      FirstAtFinds(data, cursor, Marker());
    } else {
      BeginsWith(data, cursor + |blank|, Marker());
      FirstIs(data, cursor, Marker(), cursor + |blank|);
    }
  }

  /** A search that is settled within a prefix is settled for the whole. */
  lemma FirstInPrefix(prefix: Bytes, whole: Bytes, pattern: Bytes)
    requires prefix <= whole && FirstAt(prefix, 0, pattern).Some?
    ensures FirstAt(whole, 0, pattern) == FirstAt(prefix, 0, pattern)
  {
    var p := FirstAt(prefix, 0, pattern).value;
    FirstAtFinds(prefix, 0, pattern);
    assert whole[p..p + |pattern|] == prefix[p..p + |pattern|];
    forall q | 0 <= q < p ensures !At(whole, q, pattern) {
      assert !At(prefix, q, pattern) && q + |pattern| <= |prefix|;
      assert whole[q..q + |pattern|] == prefix[q..q + |pattern|];
    }
    FirstIs(whole, 0, pattern, p);
  }

  lemma WindowShowsBlock(data: Bytes, start: nat, maxHeaderBytes: nat, block: Bytes, behind: Bytes)
    requires start <= |data| && data[start..] == block + behind && |block| <= maxHeaderBytes
    ensures block <= Window(data, start, maxHeaderBytes)
  {
    var window := Window(data, start, maxHeaderBytes);
    assert window == data[start..][..|window|];
    assert data[start..][..|block|] == block;
  }

  /** The header block of a record is found although the window reaches into its body. */
  lemma WindowFinds(data: Bytes, start: nat, maxHeaderBytes: nat, block: Bytes, behind: Bytes, pattern: Bytes)
    requires start <= |data| && data[start..] == block + behind && |block| <= maxHeaderBytes
    requires FirstAt(block, 0, pattern).Some?
    ensures FirstAt(Window(data, start, maxHeaderBytes), 0, pattern) == FirstAt(block, 0, pattern)
  {
    WindowShowsBlock(data, start, maxHeaderBytes, block, behind);
    FirstInPrefix(block, Window(data, start, maxHeaderBytes), pattern);
  }

  /** No CRLF empty line stands in the header window of the record, which reaches into its body and beyond. */
  predicate Clean(limits: Limits, data: Bytes, r: WarcRecord, start: nat) {
    r.ending.LineFeed? ==> FirstAt(Window(data, start, limits.maxHeaderBytes), 0, CrlfTwice()).None?
  }

  /** The header block ends where the writer ended it iff the record is clean. */
  lemma BoundsIffClean(limits: Limits, data: Bytes, start: nat, r: WarcRecord, behind: Bytes)
    requires start <= |data| && data[start..] == r.Block() + behind && |r.Block()| <= limits.maxHeaderBytes
    requires FirstAt(r.Block(), 0, r.ending.Pattern()) == Some(|r.head|)
    ensures var bounds := HeaderBounds(data, start, limits.maxHeaderBytes);
            && bounds.Some?
            && (Clean(limits, data, r, start) ==> bounds.value == Bounds(start + |r.head|, BodyAt(r, start)))
            && (!Clean(limits, data, r, start) ==> bounds.value.headerEnd != start + |r.head|)
  {
    var window := Window(data, start, limits.maxHeaderBytes);
    WindowFinds(data, start, limits.maxHeaderBytes, r.Block(), behind, r.ending.Pattern());
    if !Clean(limits, data, r, start) {
      var p := FirstAt(window, 0, CrlfTwice()).value;
      FirstAtFinds(window, 0, CrlfTwice());
      FirstAtFinds(window, 0, LfTwice());
      assert window[p] == window[p..p + 4][0] == CR;
      assert window[|r.head|] == window[|r.head|..|r.head| + 2][0] == LF;
    }
  }

  lemma VisitFromBounds(lengthOf: LengthReader, limits: Limits, data: Bytes, start: nat, b: Bounds, length: nat)
    requires HeaderBounds(data, start, limits.maxHeaderBytes) == Some(b)
    requires lengthOf(data[start..b.headerEnd]) == Some(length) && b.bodyStart + length <= |data| <= USIZE_MAX
    ensures VisitAt(lengthOf, limits, data, start)
         == Record(start, b.headerEnd, b.bodyStart, b.bodyStart + length, length > limits.maxRecordBytes)
  {
  }

  lemma VisitShowsBounds(lengthOf: LengthReader, limits: Limits, data: Bytes, start: nat, b: Bounds)
    requires HeaderBounds(data, start, limits.maxHeaderBytes) == Some(b)
    ensures var v := VisitAt(lengthOf, limits, data, start); v.Record? ==> v.headerEnd == b.headerEnd
  {
  }

  lemma HeadOfRecord(data: Bytes, start: nat, r: WarcRecord, rest: Bytes)
    requires start <= |data| && data[start..] == Encode(r) + rest
    ensures data[start..] == r.Block() + (r.body + r.trailer + rest)
    ensures EndAt(r, start) <= |data| && data[start..start + |r.head|] == r.head
  {
    assert Encode(r) + rest == r.Block() + (r.body + r.trailer + rest);
    assert data[start..start + |r.head|] == data[start..][..|r.head|] == r.head;
    assert |data[start..]| == |Encode(r)| + |rest|;
  }

  lemma VisitOfBounds(lengthOf: LengthReader, limits: Limits, data: Bytes, start: nat, r: WarcRecord, b: Bounds)
    requires HeaderBounds(data, start, limits.maxHeaderBytes) == Some(b) && start + |r.head| <= |data|
    requires data[start..start + |r.head|] == r.head && lengthOf(r.head) == Some(|r.body|) && EndAt(r, start) <= |data| <= USIZE_MAX
    requires b == Bounds(start + |r.head|, BodyAt(r, start)) || b.headerEnd != start + |r.head|
    ensures VisitAt(lengthOf, limits, data, start) == VisitOf(limits, r, start) <==> b.headerEnd == start + |r.head|
  {
    if b.headerEnd == start + |r.head| {
      VisitFromBounds(lengthOf, limits, data, start, b, |r.body|);
    } else {
      VisitShowsBounds(lengthOf, limits, data, start, b);
    }
  }

  /** A record is visited with its own bounds iff it is clean. */
  lemma VisitIffClean(lengthOf: LengthReader, limits: Limits, data: Bytes, start: nat, r: WarcRecord, rest: Bytes)
    requires WellFormed(lengthOf, limits, r) && start <= |data| <= USIZE_MAX && data[start..] == Encode(r) + rest
    ensures VisitAt(lengthOf, limits, data, start) == VisitOf(limits, r, start) <==> Clean(limits, data, r, start)
  {
    HeadOfRecord(data, start, r, rest);
    BoundsIffClean(limits, data, start, r, r.body + r.trailer + rest);
    VisitOfBounds(lengthOf, limits, data, start, r, HeaderBounds(data, start, limits.maxHeaderBytes).value);
  }

  lemma DropBoth(data: Bytes, at: nat, first: Bytes, second: Bytes)
    requires at <= |data| && data[at..] == first + second
    ensures at + |first| <= |data| && data[at + |first|..] == second
  {
    assert |data[at..]| == |first| + |second|;
    assert data[at + |first|..] == data[at..][|first|..];
  }

  lemma Regroup(a: Bytes, b: Bytes, c: Bytes)
    ensures (a + b) + c == a + (b + c)
  {
  }

  /** What stands behind a record's body. */
  lemma BehindBody(data: Bytes, cursor: nat, blank: Bytes, r: WarcRecord, rest: Bytes)
    requires cursor <= |data| && data[cursor..] == blank + (Encode(r) + rest)
    ensures var start := cursor + |blank|;
            && start <= |data| && data[start..] == Encode(r) + rest
            && EndAt(r, start) <= |data| && data[EndAt(r, start)..] == r.trailer + rest
  {
    var start := cursor + |blank|;
    DropBoth(data, cursor, blank, Encode(r) + rest);
    Regroup(r.Block() + r.body, r.trailer, rest);
    DropBoth(data, start, r.Block() + r.body, r.trailer + rest);
  }

  lemma ArchiveStartsWithMarker(lengthOf: LengthReader, limits: Limits, r: WarcRecord, rest: Bytes)
    requires WellFormed(lengthOf, limits, r)
    ensures Marker() <= Encode(r) + rest
  {
    assert Encode(r) + rest == r.head + (r.ending.Pattern() + r.body + r.trailer + rest);
  }

  /** One round of the scan in front of a record. */
  lemma NextRecord(
      lengthOf: LengthReader, limits: Limits, data: Bytes, find: Finder, visit: Visitor,
      cursor: nat, blank: Bytes, r: WarcRecord, rest: Bytes)
    requires Searches(data, find) && Reads(lengthOf, limits, data, visit) && cursor <= |data| <= USIZE_MAX
    requires Blank(blank) && WellFormed(lengthOf, limits, r) && data[cursor..] == blank + (Encode(r) + rest)
    ensures var start := cursor + |blank|;
            && find(cursor) == Some(start) && (visit(start) == VisitOf(limits, r, start) <==> Clean(limits, data, r, start))
            && EndAt(r, start) <= |data| && data[EndAt(r, start)..] == r.trailer + rest
  {
    BehindBody(data, cursor, blank, r, rest);
    FoundInFront(lengthOf, limits, data, find, cursor, blank, r, rest);
    VisitedInFront(lengthOf, limits, data, visit, cursor + |blank|, r, rest);
  }

  lemma FoundInFront(
      lengthOf: LengthReader, limits: Limits, data: Bytes, find: Finder, cursor: nat, blank: Bytes, r: WarcRecord, rest: Bytes)
    requires Searches(data, find) && cursor <= |data|
    requires Blank(blank) && WellFormed(lengthOf, limits, r) && data[cursor..] == blank + (Encode(r) + rest)
    ensures find(cursor) == Some(cursor + |blank|)
  {
    ArchiveStartsWithMarker(lengthOf, limits, r, rest);
    MarkerBehindBlank(data, cursor, blank, Encode(r) + rest);
    assert find(cursor) == FirstAt(data, cursor, Marker());
  }

  lemma VisitedInFront(
      lengthOf: LengthReader, limits: Limits, data: Bytes, visit: Visitor, start: nat, r: WarcRecord, rest: Bytes)
    requires Reads(lengthOf, limits, data, visit) && start <= |data| <= USIZE_MAX
    requires WellFormed(lengthOf, limits, r) && data[start..] == Encode(r) + rest
    ensures visit(start) == VisitOf(limits, r, start) <==> Clean(limits, data, r, start)
  {
    VisitIffClean(lengthOf, limits, data, start, r, rest);
    assert visit(start) == VisitAt(lengthOf, limits, data, start);
  }

  lemma NoMoreRecords(data: Bytes, find: Finder, cursor: nat, blank: Bytes)
    requires Searches(data, find) && cursor <= |data| && Blank(blank) && data[cursor..] == blank
    ensures find(cursor) == None
  {
    assert blank + [] == blank;
    MarkerBehindBlank(data, cursor, blank, []);
    assert find(cursor) == FirstAt(data, cursor, Marker());
  }

  ghost predicate AllWellFormed(lengthOf: LengthReader, limits: Limits, records: seq<WarcRecord>) {
    AllOf(Judging(lengthOf, limits), records)
  }

  function Judging(lengthOf: LengthReader, limits: Limits): WarcRecord -> bool {
    (r: WarcRecord) => WellFormed(lengthOf, limits, r)
  }

  ghost predicate AllOf(good: WarcRecord -> bool, records: seq<WarcRecord>) {
    forall k {:trigger records[k]} :: 0 <= k < |records| ==> good(records[k])
  }

  /** The records that a scan with so much room gets to look at are clean. */
  ghost predicate AllClean(clean: (WarcRecord, nat) -> bool, records: seq<WarcRecord>, offset: nat, room: nat)
    decreases |records|
  {
    records == [] || room == 0 ||
    (clean(records[0], offset) && AllClean(clean, records[1..], offset + |Encode(records[0])|, room - 1))
  }

  /** Cleanness within one archive. */
  function CleanIn(limits: Limits, data: Bytes): (WarcRecord, nat) -> bool {
    (r: WarcRecord, start: nat) => Clean(limits, data, r, start)
  }

  ghost predicate TellsClean(
      lengthOf: LengthReader, limits: Limits, data: Bytes, good: WarcRecord -> bool, clean: (WarcRecord, nat) -> bool)
  {
    && (forall r, start: nat {:trigger Clean(limits, data, r, start)} :: clean(r, start) == Clean(limits, data, r, start))
    && (forall r {:trigger WellFormed(lengthOf, limits, r)} :: good(r) == WellFormed(lengthOf, limits, r))
  }

  /** What a scan should report for records that stand at this offset. */
  function Expected(limits: Limits, records: seq<WarcRecord>, offset: nat, room: nat): Report {
    Report(VisitsOf(limits, records, offset)[..Min(|records|, room)], |records| > room)
  }

  /** The scan from this point reports what it should for these records. */
  predicate VisitsExactly(
      limits: Limits, find: Finder, visit: Visitor, cursor: nat, seen: nat, records: seq<WarcRecord>, offset: nat)
    requires seen <= limits.maxRecords
  {
    Scan(find, visit, limits.maxRecords, cursor, seen) == Expected(limits, records, offset, limits.maxRecords - seen)
  }

  type Exactness = (nat, nat, seq<WarcRecord>, nat) -> bool

  ghost predicate TellsExact(limits: Limits, find: Finder, visit: Visitor, exact: Exactness) {
    forall cursor: nat, seen: nat, records, offset: nat {:trigger Scan(find, visit, limits.maxRecords, cursor, seen), exact(cursor, seen, records, offset)} ::
      seen <= limits.maxRecords ==> exact(cursor, seen, records, offset) == VisitsExactly(limits, find, visit, cursor, seen, records, offset)
  }

  /**
   A concatenation of well-formed records is visited record by record, in order and with the right bounds, iff all
   records the scan gets to are clean; a record limit cuts the list and is reported.
   */
  lemma {:induction false} RecordsAreVisitedIff(
      lengthOf: LengthReader, limits: Limits, data: Bytes, find: Finder, visit: Visitor,
      good: WarcRecord -> bool, clean: (WarcRecord, nat) -> bool, exact: Exactness,
      cursor: nat, blank: Bytes, records: seq<WarcRecord>, seen: nat)
    requires Searches(data, find) && Reads(lengthOf, limits, data, visit) && TellsClean(lengthOf, limits, data, good, clean)
    requires TellsExact(limits, find, visit, exact)
    requires seen <= limits.maxRecords && cursor <= |data| <= USIZE_MAX
    requires Blank(blank) && AllOf(good, records) && data[cursor..] == blank + Archive(records)
    ensures exact(cursor, seen, records, cursor + |blank|) <==> AllClean(clean, records, cursor + |blank|, limits.maxRecords - seen)
    decreases |records|
  {
    if records == [] {
      NoMoreRecords(data, find, cursor, blank);
      NothingLeft(limits, find, visit, exact, cursor, cursor + |blank|, seen);
    } else {
      var r, rest, start := records[0], records[1..], cursor + |blank|;
      NextIsClean(lengthOf, limits, data, find, visit, good, clean, cursor, blank, r, Archive(rest));
      if seen == limits.maxRecords {
        LimitIsHit(limits, find, visit, exact, cursor, records, start);
      } else {
        RecordsAreVisitedIff(lengthOf, limits, data, find, visit, good, clean, exact, EndAt(r, start), r.trailer, rest, seen + 1);
        ExactIff(limits, find, visit, exact, cursor, start, records, seen);
        assert EndAt(r, start) + |r.trailer| == start + |Encode(r)|;
      }
    }
  }

  lemma NothingLeft(limits: Limits, find: Finder, visit: Visitor, exact: Exactness, cursor: nat, offset: nat, seen: nat)
    requires TellsExact(limits, find, visit, exact) && find(cursor).None? && seen <= limits.maxRecords
    ensures exact(cursor, seen, [], offset)
  {
    assert VisitsExactly(limits, find, visit, cursor, seen, [], offset);
  }

  lemma LimitIsHit(
      limits: Limits, find: Finder, visit: Visitor, exact: Exactness, cursor: nat, records: seq<WarcRecord>, offset: nat)
    requires TellsExact(limits, find, visit, exact) && records != [] && find(cursor).Some?
    ensures exact(cursor, limits.maxRecords, records, offset)
  {
    assert VisitsExactly(limits, find, visit, cursor, limits.maxRecords, records, offset);
  }

  lemma ExactIff(
      limits: Limits, find: Finder, visit: Visitor, exact: Exactness, cursor: nat, start: nat, records: seq<WarcRecord>, seen: nat)
    requires TellsExact(limits, find, visit, exact)
    requires records != [] && seen < limits.maxRecords && find(cursor) == Some(start)
    ensures exact(cursor, seen, records, start)
      <==> (visit(start) == VisitOf(limits, records[0], start) &&
            exact(EndAt(records[0], start), seen + 1, records[1..], start + |Encode(records[0])|))
  {
    OneRecordIff(limits, find, visit, cursor, start, records, seen);
    assert exact(cursor, seen, records, start) == VisitsExactly(limits, find, visit, cursor, seen, records, start);
    var end, next := EndAt(records[0], start), start + |Encode(records[0])|;
    assert exact(end, seen + 1, records[1..], next) == VisitsExactly(limits, find, visit, end, seen + 1, records[1..], next);
  }

  lemma NextIsClean(
      lengthOf: LengthReader, limits: Limits, data: Bytes, find: Finder, visit: Visitor,
      good: WarcRecord -> bool, clean: (WarcRecord, nat) -> bool, cursor: nat, blank: Bytes, r: WarcRecord, rest: Bytes)
    requires Searches(data, find) && Reads(lengthOf, limits, data, visit) && TellsClean(lengthOf, limits, data, good, clean)
    requires cursor <= |data| <= USIZE_MAX && Blank(blank) && good(r)
    requires data[cursor..] == blank + (Encode(r) + rest)
    ensures var start := cursor + |blank|;
            && find(cursor) == Some(start) && (visit(start) == VisitOf(limits, r, start) <==> clean(r, start))
            && EndAt(r, start) <= |data| && data[EndAt(r, start)..] == r.trailer + rest && Blank(r.trailer)
  {
    assert WellFormed(lengthOf, limits, r);
    NextRecord(lengthOf, limits, data, find, visit, cursor, blank, r, rest);
    assert clean(r, cursor + |blank|) == Clean(limits, data, r, cursor + |blank|);
  }

  lemma SameReports(v: Visit, a: Report, w: Visit, b: Report)
    ensures (Report([v] + a.visits, a.recordLimitHit) == Report([w] + b.visits, b.recordLimitHit)) <==> (v == w && a == b)
  {
    assert ([v] + a.visits)[1..] == a.visits && ([w] + b.visits)[1..] == b.visits;
    assert ([v] + a.visits)[0] == v && ([w] + b.visits)[0] == w;
  }

  lemma SameFirst(v: Visit, a: Report, w: Visit, b: Report)
    requires Report([v], false) == Report([w] + b.visits, b.recordLimitHit)
    ensures v == w
  {
    assert [v][0] == ([w] + b.visits)[0];
  }

  /** One record is visited exactly, and so is what follows it. */
  lemma OneRecordIff(limits: Limits, find: Finder, visit: Visitor, cursor: nat, start: nat, records: seq<WarcRecord>, seen: nat)
    requires records != [] && seen < limits.maxRecords && find(cursor) == Some(start)
    ensures VisitsExactly(limits, find, visit, cursor, seen, records, start)
      <==> (visit(start) == VisitOf(limits, records[0], start) &&
            VisitsExactly(limits, find, visit, EndAt(records[0], start), seen + 1, records[1..], start + |Encode(records[0])|))
  {
    var v, w := visit(start), VisitOf(limits, records[0], start);
    var expected := Expected(limits, records[1..], start + |Encode(records[0])|, limits.maxRecords - seen - 1);
    ExpectedStep(limits, records, start, limits.maxRecords - seen);
    if NextCursor(v).Some? {
      SameReports(v, Scan(find, visit, limits.maxRecords, NextCursor(v).value, seen + 1), w, expected);
    } else if Report([v], false) == Report([w] + expected.visits, expected.recordLimitHit) {
      SameFirst(v, expected, w, expected);
    }
  }

  lemma ExpectedStep(limits: Limits, records: seq<WarcRecord>, offset: nat, room: nat)
    requires records != [] && room > 0
    ensures var rest := Expected(limits, records[1..], offset + |Encode(records[0])|, room - 1);
            Expected(limits, records, offset, room) == Report([VisitOf(limits, records[0], offset)] + rest.visits, rest.recordLimitHit)
  {
    var v, others := VisitOf(limits, records[0], offset), VisitsOf(limits, records[1..], offset + |Encode(records[0])|);
    assert ([v] + others)[..Min(|records|, room)] == [v] + others[..Min(|records| - 1, room - 1)];
  }

  function Exactly(limits: Limits, find: Finder, visit: Visitor): Exactness {
    (cursor: nat, seen: nat, records: seq<WarcRecord>, offset: nat) =>
      seen <= limits.maxRecords && VisitsExactly(limits, find, visit, cursor, seen, records, offset)
  }

  lemma ExactlyTells(limits: Limits, find: Finder, visit: Visitor)
    ensures TellsExact(limits, find, visit, Exactly(limits, find, visit))
  {
  }

  lemma FromTheStart(data: Bytes)
    ensures data[0..] == [] + data
  {
  }

  lemma WholeArchiveIff(
      lengthOf: LengthReader, limits: Limits, data: Bytes, find: Finder, visit: Visitor,
      good: WarcRecord -> bool, clean: (WarcRecord, nat) -> bool, exact: Exactness, records: seq<WarcRecord>)
    requires Searches(data, find) && Reads(lengthOf, limits, data, visit) && TellsClean(lengthOf, limits, data, good, clean)
    requires TellsExact(limits, find, visit, exact) && |data| <= USIZE_MAX && AllOf(good, records) && data == Archive(records)
    ensures exact(0, 0, records, 0) <==> AllClean(clean, records, 0, limits.maxRecords)
  {
    FromTheStart(data);
    RecordsAreVisitedIff(lengthOf, limits, data, find, visit, good, clean, exact, 0, [], records, 0);
  }

  /**
   A whole archive, read from its first byte: every record is visited with its own bounds iff no record with bare line
   feeds that the scan gets to has a CRLF empty line within its header window.
   */
  lemma ArchiveIsVisitedIff(
      lengthOf: LengthReader, limits: Limits, records: seq<WarcRecord>, find: Finder, visit: Visitor)
    requires AllWellFormed(lengthOf, limits, records) && |Archive(records)| <= USIZE_MAX
    requires Searches(Archive(records), find) && Reads(lengthOf, limits, Archive(records), visit)
    ensures VisitsExactly(limits, find, visit, 0, 0, records, 0) <==> AllClean(CleanIn(limits, Archive(records)), records, 0, limits.maxRecords)
  {
    var data := Archive(records);
    var exact := Exactly(limits, find, visit);
    ExactlyTells(limits, find, visit);
    WholeArchiveIff(lengthOf, limits, data, find, visit, Judging(lengthOf, limits), CleanIn(limits, data), exact, records);
    assert exact(0, 0, records, 0) == VisitsExactly(limits, find, visit, 0, 0, records, 0);
  }

  lemma {:induction false} CrLfRecordsAreClean(limits: Limits, data: Bytes, records: seq<WarcRecord>, offset: nat, room: nat)
    requires forall k {:trigger records[k]} :: 0 <= k < |records| ==> records[k].ending.CrLf?
    ensures AllClean(CleanIn(limits, data), records, offset, room)
    decreases |records|
  {
    if records != [] && room > 0 {
      CrLfRecordsAreClean(limits, data, records[1..], offset + |Encode(records[0])|, room - 1);
    }
  }

  /** Records whose headers end in CRLF are all visited exactly, whatever their bodies contain. */
  lemma ArchiveIsVisitedExactly(
      lengthOf: LengthReader, limits: Limits, records: seq<WarcRecord>, find: Finder, visit: Visitor)
    requires AllWellFormed(lengthOf, limits, records) && |Archive(records)| <= USIZE_MAX
    requires forall k {:trigger records[k]} :: 0 <= k < |records| ==> records[k].ending.CrLf?
    requires Searches(Archive(records), find) && Reads(lengthOf, limits, Archive(records), visit)
    ensures VisitsExactly(limits, find, visit, 0, 0, records, 0)
  {
    CrLfRecordsAreClean(limits, Archive(records), records, 0, limits.maxRecords);
    ArchiveIsVisitedIff(lengthOf, limits, records, find, visit);
  }

  // ----- a record that bare line feeds lose -----

  /** A record in bare line feeds whose four bytes of body are a CRLF empty line. */
  function FeedRecord(head: Bytes): WarcRecord { WarcRecord(head, LineFeed, CrlfTwice(), []) }

  lemma NoCrBefore(all: Bytes, p: nat)
    requires p <= |all| && forall q :: 0 <= q < p ==> all[q] != CR
    ensures forall q :: 0 <= q < p ==> !At(all, q, CrlfTwice())
  {
    forall q | 0 <= q < p ensures !At(all, q, CrlfTwice()) {
      if q + 4 <= |all| { assert all[q..q + 4][0] == all[q]; }
    }
  }

  lemma NoCrInBlock(head: Bytes, behind: Bytes)
    requires CR !in head
    ensures forall q :: 0 <= q < |head| + 2 ==> ((head + LfTwice()) + behind)[q] != CR
  {
    var all := (head + LfTwice()) + behind;
    forall q | 0 <= q < |head| + 2 ensures all[q] != CR {
      if q < |head| { assert all[q] == head[q]; }
    }
  }

  lemma EndsIn(front: Bytes, pattern: Bytes)
    ensures At(front + pattern, |front|, pattern)
  {
    assert (front + pattern)[|front|..|front| + |pattern|] == pattern;
  }

  lemma EmptyLineInBody(head: Bytes)
    requires CR !in head
    ensures FirstAt((head + LfTwice()) + CrlfTwice(), 0, CrlfTwice()) == Some(|head| + 2)
  {
    var all := (head + LfTwice()) + CrlfTwice();
    NoCrInBlock(head, CrlfTwice());
    NoCrBefore(all, |head| + 2);
    EndsIn(head + LfTwice(), CrlfTwice());
    FirstIs(all, 0, CrlfTwice(), |head| + 2);
  }

  lemma ArchiveOfOne(r: WarcRecord)
    ensures Archive([r]) == Encode(r)
  {
    assert [r][1..] == [] && Encode(r) + [] == Encode(r);
  }

  lemma FeedVisit(lengthOf: LengthReader, limits: Limits, data: Bytes, head: Bytes)
    requires data == (head + LfTwice()) + CrlfTwice() && limits.maxHeaderBytes >= |data|
    requires FirstAt(data, 0, CrlfTwice()) == Some(|head| + 2) && lengthOf(head + LfTwice()) == Some(4)
    ensures VisitAt(lengthOf, limits, data, 0) == if |data| + 4 > USIZE_MAX then Overflowing(0) else CutOff(0)
  {
    assert Window(data, 0, limits.maxHeaderBytes) == data;
    assert data[0..|head| + 2] == head + LfTwice();
  }

  lemma FeedIsWellFormed(lengthOf: LengthReader, limits: Limits, head: Bytes)
    requires Marker() <= head && FirstAt(head + LfTwice(), 0, LfTwice()) == Some(|head|)
    requires lengthOf(head) == Some(4) && limits.maxHeaderBytes >= |head| + 6
    ensures WellFormed(lengthOf, limits, FeedRecord(head))
  {
  }

  lemma MarkerInFront(data: Bytes, head: Bytes, behind: Bytes)
    requires Marker() <= head && data == head + behind
    ensures FirstAt(data, 0, Marker()) == Some(0)
  {
    assert data[0..7] == head[..7];
  }

  lemma ScanOneCutOff(find: Finder, visit: Visitor, maxRecords: nat)
    requires find(0) == Some(0) && visit(0) == CutOff(0) && maxRecords >= 1
    ensures Scan(find, visit, maxRecords, 0, 0) == Report([CutOff(0)], false)
  {
  }

  lemma FeedScan(lengthOf: LengthReader, limits: Limits, head: Bytes, data: Bytes, find: Finder, visit: Visitor)
    requires Marker() <= head && data == (head + LfTwice()) + CrlfTwice()
    requires VisitAt(lengthOf, limits, data, 0) == CutOff(0) && limits.maxRecords >= 1
    requires Searches(data, find) && Reads(lengthOf, limits, data, visit)
    ensures Scan(find, visit, limits.maxRecords, 0, 0) == Report([CutOff(0)], false)
  {
    Regroup(head, LfTwice(), CrlfTwice());
    MarkerInFront(data, head, LfTwice() + CrlfTwice());
    assert find(0) == FirstAt(data, 0, Marker()) && visit(0) == VisitAt(lengthOf, limits, data, 0);
    ScanOneCutOff(find, visit, limits.maxRecords);
  }

  /**
   The record is well formed, but the scan takes the empty line of its body for the end of its header, looks for four
   more bytes, and reports an archive that is cut off.
   */
  lemma FeedRecordIsCutOff(lengthOf: LengthReader, limits: Limits, head: Bytes, data: Bytes, find: Finder, visit: Visitor)
    requires Marker() <= head && CR !in head && FirstAt(head + LfTwice(), 0, LfTwice()) == Some(|head|)
    requires lengthOf(head) == Some(4) && lengthOf(head + LfTwice()) == Some(4)
    requires limits.maxHeaderBytes >= |head| + 6 && limits.maxRecords >= 1 && |head| + 10 <= USIZE_MAX
    requires data == Archive([FeedRecord(head)]) && Searches(data, find) && Reads(lengthOf, limits, data, visit)
    ensures WellFormed(lengthOf, limits, FeedRecord(head))
    ensures Scan(find, visit, limits.maxRecords, 0, 0) == Report([CutOff(0)], false)
  {
    FeedArchive(head);
    EmptyLineInBody(head);
    FeedVisit(lengthOf, limits, data, head);
    FeedIsWellFormed(lengthOf, limits, head);
    FeedScan(lengthOf, limits, head, data, find, visit);
  }

  lemma FeedArchive(head: Bytes)
    ensures Archive([FeedRecord(head)]) == (head + LfTwice()) + CrlfTwice()
  {
    ArchiveOfOne(FeedRecord(head));
    assert Encode(FeedRecord(head)) == (head + LfTwice()) + CrlfTwice();
  }
}
