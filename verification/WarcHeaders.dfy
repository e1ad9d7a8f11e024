/** Reading header fields back (src/archive_intelligence.rs, header_value): what a WARC writer prints is what is read. */
module WarcHeaders {
  import opened Basics
  import opened Hostnames
  import opened Decimals
  import opened Orders
  import opened WarcFraming

  datatype Field = Field(name: string, value: string)

  /** Neither end is white space. */
  predicate Trimmed(s: string) {
    s == "" || (!Whitespace(s[0]) && !Whitespace(s[|s| - 1]))
  }

  /** A field that can be printed on one line. */
  predicate Printable(f: Field) {
    Trimmed(f.name) && Trimmed(f.value) && ':' !in f.name && '\n' !in f.name && '\n' !in f.value
  }

  function Line(f: Field): string { f.name + ": " + f.value }

  /** The lines of a header block, separated by CRLF. */
  function Print(first: string, fields: seq<Field>): string
    decreases |fields|
  {
    if fields == [] then first else first + "\r\n" + Print(Line(fields[0]), fields[1..])
  }

  /** The first field of that name, in any case. */
  function Lookup(fields: seq<Field>, wanted: string): Option<string> {
    if fields == [] then None
    else if Lower(fields[0].name) == Lower(wanted) then Some(fields[0].value)
    else Lookup(fields[1..], wanted)
  }

  lemma TrimmedStays(s: string)
    requires Trimmed(s)
    ensures Trim(s) == s && Trim(" " + s) == s
  {
    assert (" " + s)[1..] == s;
    assert TrimStart(" " + s, Whitespace) == TrimStart(s, Whitespace) == s;
  }

  lemma FirstChar(s: string, c: char, n: nat)
    requires n < |s| && s[n] == c && forall i :: 0 <= i < n ==> s[i] != c
    ensures UntilChar(s, c) == n
  {
    var m := UntilChar(s, c);
    assert m <= n && m >= n;
  }

  lemma NoChar(s: string, c: char)
    requires c !in s
    ensures UntilChar(s, c) == |s|
  {
    assert forall i :: 0 <= i < |s| ==> s[i] in s;
  }

  /** A carriage return at the end of a line is not part of it. */
  lemma ReturnIsDropped(s: string)
    requires s != "" && s[|s| - 1] != '\r'
    ensures TrimEnd(s + "\r", c => c == '\r') == s == TrimEnd(s, c => c == '\r')
  {
    var drop := (c: char) => c == '\r';
    assert (s + "\r")[..|s|] == s;
    assert TrimEnd(s, drop) == s;
    assert TrimEnd(s + "\r", drop) == TrimEnd(s, drop);
  }

  /** A printed line gives its value to its own name only. */
  lemma FieldOfLine(f: Field, wanted: string)
    requires Printable(f)
    ensures FieldOf(Line(f), wanted) == if Lower(f.name) == Lower(wanted) then Some(f.value) else None
    ensures FieldOf(Line(f) + "\r", wanted) == FieldOf(Line(f), wanted)
  {
    var line := Line(f);
    assert line[|f.name|] == ':' && line[|f.name| + 1] == ' ';
    ReturnIsDropped(line);
    FirstChar(line, ':', |f.name|);
    assert line[..|f.name|] == f.name;
    assert line[|f.name| + 1..] == " " + f.value;
    TrimmedStays(f.name);
    TrimmedStays(f.value);
  }

  /** The version line has no colon, so it gives no value. */
  lemma NoFieldOfLine(first: string, wanted: string)
    requires ':' !in first && first != "" && first[|first| - 1] != '\r'
    ensures FieldOf(first, wanted) == None && FieldOf(first + "\r", wanted) == None
  {
    ReturnIsDropped(first);
    NoChar(first, ':');
  }

  /** Reading a printed block: the first line, then the others. */
  lemma ReadFirstLine(first: string, rest: string, wanted: string)
    requires '\n' !in first
    ensures HeaderValue(first + "\r\n" + rest, wanted) ==
              if FieldOf(first + "\r", wanted).Some? then FieldOf(first + "\r", wanted) else HeaderValue(rest, wanted)
  {
    var text := first + "\r\n" + rest;
    var end := |first| + 1;
    forall i | 0 <= i < end ensures text[i] != '\n' {
      if i < |first| { assert text[i] == first[i]; }
    }
    assert text[end] == '\n';
    FirstChar(text, '\n', end);
    assert text[..end] == first + "\r" && text[end + 1..] == rest;
  }

  lemma ReadOnlyLine(line: string, wanted: string)
    requires '\n' !in line && line != ""
    ensures HeaderValue(line, wanted) == FieldOf(line, wanted)
  {
    NoChar(line, '\n');
    assert line[..|line|] == line;
  }

  lemma LineHasNoBreak(f: Field)
    requires Printable(f)
    ensures '\n' !in Line(f) && Line(f) != ""
  {
    forall i | 0 <= i < |Line(f)| ensures Line(f)[i] != '\n' {
      if i < |f.name| { assert Line(f)[i] == f.name[i]; }
      else if i >= |f.name| + 2 { assert Line(f)[i] == f.value[i - |f.name| - 2]; }
    }
  }

  lemma {:induction false} PrintedFieldsAreRead(f: Field, fields: seq<Field>, wanted: string)
    requires Printable(f) && forall k :: 0 <= k < |fields| ==> Printable(fields[k])
    ensures HeaderValue(Print(Line(f), fields), wanted) == Lookup([f] + fields, wanted)
    decreases |fields|
  {
    FieldOfLine(f, wanted);
    LineHasNoBreak(f);
    assert ([f] + fields)[1..] == fields;
    if fields == [] {
      ReadOnlyLine(Line(f), wanted);
    } else {
      ReadFirstLine(Line(f), Print(Line(fields[0]), fields[1..]), wanted);
      PrintedFieldsAreRead(fields[0], fields[1..], wanted);
      assert [fields[0]] + fields[1..] == fields;
    }
  }

  /** A block that starts with a version line gives, for each name in any case, the first value printed for it. */
  lemma HeaderRoundTrip(version: string, fields: seq<Field>, wanted: string)
    requires version != "" && ':' !in version && '\n' !in version && version[|version| - 1] != '\r'
    requires forall k :: 0 <= k < |fields| ==> Printable(fields[k])
    ensures HeaderValue(Print(version, fields), wanted) == Lookup(fields, wanted)
  {
    NoFieldOfLine(version, wanted);
    if fields == [] {
      ReadOnlyLine(version, wanted);
    } else {
      ReadFirstLine(version, Print(Line(fields[0]), fields[1..]), wanted);
      PrintedFieldsAreRead(fields[0], fields[1..], wanted);
      assert [fields[0]] + fields[1..] == fields;
    }
  }

  /** A decimal length in a machine word is read as that number. */
  lemma LengthRoundTrip(decode: Bytes -> Option<string>, headers: Bytes, version: string, fields: seq<Field>, length: nat)
    requires version != "" && ':' !in version && '\n' !in version && version[|version| - 1] != '\r'
    requires forall k :: 0 <= k < |fields| ==> Printable(fields[k])
    requires decode(headers) == Some(Print(version, fields))
    requires Lookup(fields, "content-length") == Some(Digits(length)) && length <= USIZE_MAX
    ensures ContentLength(decode, headers) == Some(length)
  {
    HeaderRoundTrip(version, fields, "content-length");
    ValueOfDigits(length);
    assert Digits(length)[0] != '+';
  }

  // ----- a record that bare line feeds lose -----

  function Ascii(text: string): Bytes
    requires forall i :: 0 <= i < |text| ==> text[i] < 128 as char
  {
    seq(|text|, i requires 0 <= i < |text| => text[i] as int as byte)
  }

  function FeedText(): string { "WARC/1.0\ncontent-length: 4" }

  function FeedHead(): Bytes { Ascii(FeedText()) }

  /** Lines that end in a bare line feed are read like the others. */
  lemma ReadFeedLine(first: string, rest: string, wanted: string)
    requires '\n' !in first
    ensures HeaderValue(first + "\n" + rest, wanted) ==
              if FieldOf(first, wanted).Some? then FieldOf(first, wanted) else HeaderValue(rest, wanted)
  {
    var text := first + "\n" + rest;
    forall i | 0 <= i < |first| ensures text[i] != '\n' { assert text[i] == first[i]; }
    assert text[|first|] == '\n';
    FirstChar(text, '\n', |first|);
    assert text[..|first|] == first && text[|first| + 1..] == rest;
  }

  /** A version line and one field, with or without an empty line behind them. */
  lemma OneFieldIsRead(version: string, f: Field, text: string)
    requires version != "" && ':' !in version && '\n' !in version && version[|version| - 1] != '\r' && Printable(f)
    requires text == version + "\n" + Line(f) || text == version + "\n" + (Line(f) + "\n" + "\n")
    ensures HeaderValue(text, f.name) == Some(f.value)
  {
    NoFieldOfLine(version, f.name);
    FieldOfLine(f, f.name);
    LineHasNoBreak(f);
    if text == version + "\n" + Line(f) {
      ReadFeedLine(version, Line(f), f.name);
      ReadOnlyLine(Line(f), f.name);
    } else {
      ReadFeedLine(version, Line(f) + "\n" + "\n", f.name);
      ReadFeedLine(Line(f), "\n", f.name);
    }
  }

  lemma FeedFieldIsPrintable()
    ensures Printable(Field("content-length", "4")) && Line(Field("content-length", "4")) == "content-length: 4"
  {
  }

  lemma FourIsRead()
    ensures ParseUsize("4") == Some(4)
  {
    ValueOfDigits(4);
    assert Digits(4) == "4";
  }

  lemma FeedLength(decode: Bytes -> Option<string>, headers: Bytes)
    requires decode(headers) == Some(FeedText()) || decode(headers) == Some(FeedText() + "\n\n")
    ensures ContentLengths(decode)(headers) == Some(4)
  {
    var version, line := "WARC/1.0", "content-length: 4";
    FeedFieldIsPrintable();
    assert FeedText() == version + "\n" + line;
    assert FeedText() + "\n\n" == version + "\n" + (line + "\n" + "\n");
    OneFieldIsRead(version, Field("content-length", "4"), decode(headers).value);
    FourIsRead();
  }

  lemma FeedBytes()
    ensures |FeedHead()| == 26 && Marker() <= FeedHead() && CR !in FeedHead()
    ensures forall q :: 0 <= q < 25 ==> FeedHead()[q] != LF || FeedHead()[q + 1] != LF
    ensures FeedHead()[25] != LF
  {
    var h := FeedHead();
    assert |FeedText()| == 26;
    assert forall q :: 0 <= q < 26 ==> h[q] == FeedText()[q] as int as byte;
    assert h[..7] == Marker();
  }

  lemma FeedBlock()
    ensures FirstAt(FeedHead() + LfTwice(), 0, LfTwice()) == Some(|FeedHead()|)
  {
    FeedBytes();
    var h := FeedHead();
    var block := h + LfTwice();
    forall q | 0 <= q < 26 ensures !At(block, q, LfTwice()) {
      assert block[q..q + 2][0] == block[q] && block[q..q + 2][1] == block[q + 1];
      assert block[q] == h[q] && (q < 25 ==> block[q + 1] == h[q + 1]);
    }
    assert block[26..28] == LfTwice();
    FirstIs(block, 0, LfTwice(), 26);
  }

  /** The printed record "WARC/1.0, content-length: 4" in bare line feeds is lost to the CRLF empty line in its body. */
  lemma PrintedFeedRecordIsCutOff(decode: Bytes -> Option<string>, limits: Limits, data: Bytes, find: Finder, visit: Visitor)
    requires decode(FeedHead()) == Some(FeedText()) && decode(FeedHead() + LfTwice()) == Some(FeedText() + "\n\n")
    requires limits.maxHeaderBytes >= 32 && limits.maxRecords >= 1
    requires data == Archive([FeedRecord(FeedHead())]) && Searches(data, find) && Reads(ContentLengths(decode), limits, data, visit)
    ensures WellFormed(ContentLengths(decode), limits, FeedRecord(FeedHead()))
    ensures Scan(find, visit, limits.maxRecords, 0, 0) == Report([CutOff(0)], false)
  {
    FeedBytes();
    FeedBlock();
    FeedLength(decode, FeedHead());
    FeedLength(decode, FeedHead() + LfTwice());
    FeedRecordIsCutOff(ContentLengths(decode), limits, FeedHead(), data, find, visit);
  }
}
