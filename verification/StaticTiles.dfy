/** The data tiles of a static Certificate Transparency log: their binary codec and their paths (src/ct_static.rs). */
module StaticTiles {
  import opened Basics
  import opened Orders
  import opened Decimals

  type Bytes = seq<byte>

  const TILE_WIDTH: nat := 256

  // ----- the format -----

  datatype Entry =
    | X509Entry(timestamp: Bytes, certificate: Bytes, extensions: Bytes, chain: Bytes)
    | PrecertEntry(timestamp: Bytes, issuerKeyHash: Bytes, tbs: Bytes, extensions: Bytes, precertificate: Bytes, chain: Bytes)
  {
    predicate Valid() {
      && |timestamp| == 8
      && |extensions| < 0x1_0000
      && |chain| < 0x1_0000 && |chain| % 32 == 0
      && match this
         case X509Entry(_, certificate, _, _) => |certificate| < 0x100_0000
         case PrecertEntry(_, hash, tbs, _, precertificate, _) =>
           |hash| == 32 && |tbs| < 0x100_0000 && |precertificate| < 0x100_0000
    }

    /** The certificate the indexer decodes. */
    function Der(): Bytes {
      match this
      case X509Entry(_, certificate, _, _) => certificate
      case PrecertEntry(_, _, _, _, precertificate, _) => precertificate
    }
  }

  function U16(n: nat): Bytes
    requires n < 0x1_0000
  {
    [(n / 0x100) as byte, (n % 0x100) as byte]
  }

  function U24(n: nat): Bytes
    requires n < 0x100_0000
  {
    [(n / 0x1_0000) as byte, (n / 0x100 % 0x100) as byte, (n % 0x100) as byte]
  }

  function Opaque16(b: Bytes): Bytes
    requires |b| < 0x1_0000
  {
    U16(|b|) + b
  }

  function Opaque24(b: Bytes): Bytes
    requires |b| < 0x100_0000
  {
    U24(|b|) + b
  }

  function Encode(e: Entry): Bytes
    requires e.Valid()
  {
    match e
    case X509Entry(timestamp, certificate, extensions, chain) =>
      timestamp + (U16(0) + (Opaque24(certificate) + (Opaque16(extensions) + Opaque16(chain))))
    case PrecertEntry(timestamp, hash, tbs, extensions, precertificate, chain) =>
      timestamp + (U16(1) + (hash + (Opaque24(tbs) + (Opaque16(extensions) + (Opaque24(precertificate) + Opaque16(chain))))))
  }

  predicate AllValid(es: seq<Entry>) { forall i :: 0 <= i < |es| ==> es[i].Valid() }

  function EncodeAll(es: seq<Entry>): Bytes
    requires AllValid(es)
  {
    if es == [] then [] else Encode(es[0]) + EncodeAll(es[1..])
  }

  // ----- reading -----

  /** A value and the bytes after it. */
  datatype Read<+T> = Read(value: T, rest: Bytes)

  function ReadBytes(s: Bytes, n: nat): Option<Read<Bytes>> {
    if n <= |s| then Some(Read(s[..n], s[n..])) else None
  }

  function ReadU16(s: Bytes): (r: Option<Read<nat>>)
    ensures r.Some? ==> r.value.value < 0x1_0000
  {
    var b :- ReadBytes(s, 2);
    Some(Read(b.value[0] as nat * 0x100 + b.value[1] as nat, b.rest))
  }

  function ReadU24(s: Bytes): (r: Option<Read<nat>>)
    ensures r.Some? ==> r.value.value < 0x100_0000
  {
    var b :- ReadBytes(s, 3);
    Some(Read(b.value[0] as nat * 0x1_0000 + b.value[1] as nat * 0x100 + b.value[2] as nat, b.rest))
  }

  function ReadOpaque16(s: Bytes): (r: Option<Read<Bytes>>)
    ensures r.Some? ==> |r.value.value| < 0x1_0000
  {
    var n :- ReadU16(s);
    ReadBytes(n.rest, n.value)
  }

  function ReadOpaque24(s: Bytes): (r: Option<Read<Bytes>>)
    ensures r.Some? ==> |r.value.value| < 0x100_0000
  {
    var n :- ReadU24(s);
    ReadBytes(n.rest, n.value)
  }

  function ReadX509(timestamp: Bytes, s: Bytes): Option<Read<Entry>> {
    var certificate :- ReadOpaque24(s);
    var extensions :- ReadOpaque16(certificate.rest);
    var chain :- ReadOpaque16(extensions.rest);
    if |chain.value| % 32 != 0 then None
    else Some(Read(X509Entry(timestamp, certificate.value, extensions.value, chain.value), chain.rest))
  }

  function ReadPrecert(timestamp: Bytes, s: Bytes): Option<Read<Entry>> {
    var hash :- ReadBytes(s, 32);
    var tbs :- ReadOpaque24(hash.rest);
    var extensions :- ReadOpaque16(tbs.rest);
    var precertificate :- ReadOpaque24(extensions.rest);
    var chain :- ReadOpaque16(precertificate.rest);
    if |chain.value| % 32 != 0 then None
    else Some(Read(PrecertEntry(timestamp, hash.value, tbs.value, extensions.value, precertificate.value, chain.value), chain.rest))
  }

  function ReadEntry(s: Bytes): Option<Read<Entry>> {
    var timestamp :- ReadBytes(s, 8);
    var entryType :- ReadU16(timestamp.rest);
    match entryType.value
    case 0 => ReadX509(timestamp.value, entryType.rest)
    case 1 => ReadPrecert(timestamp.value, entryType.rest)
    case _ => None
  }

  // ----- reading undoes writing, and the other way round -----

  lemma U16Back(n: nat, rest: Bytes)
    requires n < 0x1_0000
    ensures ReadU16(U16(n) + rest) == Some(Read(n, rest))
  {
  }

  lemma Opaque16Back(b: Bytes, rest: Bytes)
    requires |b| < 0x1_0000
    ensures ReadOpaque16(Opaque16(b) + rest) == Some(Read(b, rest))
  {
    assert Opaque16(b) + rest == U16(|b|) + (b + rest);
    U16Back(|b|, b + rest);
  }

  lemma Opaque24Back(b: Bytes, rest: Bytes)
    requires |b| < 0x100_0000
    ensures ReadOpaque24(Opaque24(b) + rest) == Some(Read(b, rest))
  {
    assert Opaque24(b) + rest == U24(|b|) + (b + rest);
  }

  lemma X509Back(e: Entry, rest: Bytes)
    requires e.Valid() && e.X509Entry?
    ensures ReadEntry(Encode(e) + rest) == Some(Read(e, rest))
  {
    var r4 := Opaque16(e.chain) + rest;
    var r3 := Opaque16(e.extensions) + r4;
    var r2 := Opaque24(e.certificate) + r3;
    var r1 := U16(0) + r2;
    assert Encode(e) + rest == e.timestamp + r1;
    U16Back(0, r2);
    Opaque24Back(e.certificate, r3);
    Opaque16Back(e.extensions, r4);
    Opaque16Back(e.chain, rest);
  }

  lemma PrecertBack(e: Entry, rest: Bytes)
    requires e.Valid() && e.PrecertEntry?
    ensures ReadEntry(Encode(e) + rest) == Some(Read(e, rest))
  {
    var r6 := Opaque16(e.chain) + rest;
    var r5 := Opaque24(e.precertificate) + r6;
    var r4 := Opaque16(e.extensions) + r5;
    var r3 := Opaque24(e.tbs) + r4;
    var r2 := e.issuerKeyHash + r3;
    var r1 := U16(1) + r2;
    assert Encode(e) + rest == e.timestamp + r1;
    U16Back(1, r2);
    Opaque24Back(e.tbs, r4);
    Opaque16Back(e.extensions, r5);
    Opaque24Back(e.precertificate, r6);
    Opaque16Back(e.chain, rest);
  }

  lemma EntryBack(e: Entry, rest: Bytes)
    requires e.Valid()
    ensures ReadEntry(Encode(e) + rest) == Some(Read(e, rest))
  {
    if e.X509Entry? { X509Back(e, rest); } else { PrecertBack(e, rest); }
  }

  lemma BytesForth(s: Bytes, n: nat)
    requires ReadBytes(s, n).Some?
    ensures s == ReadBytes(s, n).value.value + ReadBytes(s, n).value.rest
  {
  }

  lemma U16Forth(s: Bytes)
    requires ReadU16(s).Some?
    ensures s == U16(ReadU16(s).value.value) + ReadU16(s).value.rest
  {
    BytesForth(s, 2);
  }

  lemma U24Digits(a: byte, b: byte, c: byte)
    ensures U24(a as nat * 0x1_0000 + b as nat * 0x100 + c as nat) == [a, b, c]
  {
    var high := a as nat * 0x100 + b as nat;
    var n := high * 0x100 + c as nat;
    assert n / 0x100 == high && n % 0x100 == c as nat;
    assert n / 0x1_0000 == a as nat && high % 0x100 == b as nat;
  }

  lemma U24Forth(s: Bytes)
    requires ReadU24(s).Some?
    ensures s == U24(ReadU24(s).value.value) + ReadU24(s).value.rest
  {
    BytesForth(s, 3);
    U24Digits(s[0], s[1], s[2]);
    assert s[..3] == [s[0], s[1], s[2]];
  }

  lemma Opaque16Forth(s: Bytes)
    requires ReadOpaque16(s).Some?
    ensures var r := ReadOpaque16(s).value; s == Opaque16(r.value) + r.rest
  {
    U16Forth(s);
    var n := ReadU16(s).value;
    BytesForth(n.rest, n.value);
  }

  lemma Opaque24Forth(s: Bytes)
    requires ReadOpaque24(s).Some?
    ensures var r := ReadOpaque24(s).value; s == Opaque24(r.value) + r.rest
  {
    U24Forth(s);
    var n := ReadU24(s).value;
    BytesForth(n.rest, n.value);
  }

  /** Concatenation is associative. */
  lemma Regroup<T>(a: seq<T>, b: seq<T>, rest: seq<T>)
    ensures (a + b) + rest == a + (b + rest)
  {
  }

  lemma HeadAndTail<T>(s: seq<T>)
    requires s != []
    ensures [s[0]] + s[1..] == s
  {
  }

  lemma X509Forth(timestamp: Bytes, s: Bytes)
    requires |timestamp| == 8 && ReadX509(timestamp, s).Some?
    ensures var r := ReadX509(timestamp, s).value; r.value.Valid() && timestamp + (U16(0) + s) == Encode(r.value) + r.rest
  {
    Opaque24Forth(s);
    var a := ReadOpaque24(s).value;
    Opaque16Forth(a.rest);
    var b := ReadOpaque16(a.rest).value;
    Opaque16Forth(b.rest);
    var c := ReadOpaque16(b.rest).value;
    var z := Opaque16(c.value);
    var y := Opaque16(b.value) + z;
    var x := Opaque24(a.value) + y;
    Regroup(Opaque16(b.value), z, c.rest);
    Regroup(Opaque24(a.value), y, c.rest);
    Regroup(U16(0), x, c.rest);
    Regroup(timestamp, U16(0) + x, c.rest);
  }

  lemma PrecertForth(timestamp: Bytes, s: Bytes)
    requires |timestamp| == 8 && ReadPrecert(timestamp, s).Some?
    ensures var r := ReadPrecert(timestamp, s).value; r.value.Valid() && timestamp + (U16(1) + s) == Encode(r.value) + r.rest
  {
    BytesForth(s, 32);
    var h := ReadBytes(s, 32).value;
    Opaque24Forth(h.rest);
    var a := ReadOpaque24(h.rest).value;
    Opaque16Forth(a.rest);
    var b := ReadOpaque16(a.rest).value;
    Opaque24Forth(b.rest);
    var p := ReadOpaque24(b.rest).value;
    Opaque16Forth(p.rest);
    var c := ReadOpaque16(p.rest).value;
    var z := Opaque16(c.value);
    var y := Opaque24(p.value) + z;
    var x := Opaque16(b.value) + y;
    var w := Opaque24(a.value) + x;
    var v := h.value + w;
    Regroup(Opaque24(p.value), z, c.rest);
    Regroup(Opaque16(b.value), y, c.rest);
    Regroup(Opaque24(a.value), x, c.rest);
    Regroup(h.value, w, c.rest);
    Regroup(U16(1), v, c.rest);
    Regroup(timestamp, U16(1) + v, c.rest);
  }

  lemma EntryForth(s: Bytes)
    requires ReadEntry(s).Some?
    ensures var r := ReadEntry(s).value; r.value.Valid() && s == Encode(r.value) + r.rest && |r.rest| < |s|
  {
    BytesForth(s, 8);
    var t := ReadBytes(s, 8).value;
    U16Forth(t.rest);
    var k := ReadU16(t.rest).value;
    if k.value == 0 { X509Forth(t.value, k.rest); } else { PrecertForth(t.value, k.rest); }
  }

  // ----- whole tiles -----

  function ReadAll(s: Bytes): Option<seq<Entry>>
    decreases |s|
  {
    if s == [] then Some([])
    else
      var r :- ReadEntry(s);
      EntryForth(s);
      var es :- ReadAll(r.rest);
      Some([r.value] + es)
  }

  function Ders(es: seq<Entry>): (r: seq<Bytes>)
    ensures |r| == |es|
  {
    seq(|es|, i requires 0 <= i < |es| => es[i].Der())
  }

  /** The certificates of a tile that must hold exactly the expected number of entries. */
  function TileCertificates(payload: Bytes, expected: nat): Option<seq<Bytes>> {
    if expected == 0 || expected > TILE_WIDTH then None
    else
      var es :- ReadAll(payload);
      if |es| == expected then Some(Ders(es)) else None
  }

  lemma ReadAllCons(s: Bytes, e: Entry, rest: Bytes, es: seq<Entry>)
    requires s != [] && ReadEntry(s) == Some(Read(e, rest)) && ReadAll(rest) == Some(es)
    ensures ReadAll(s) == Some([e] + es)
  {
  }

  /** One more entry in front of bytes that read back. */
  lemma OneMoreBack(e: Entry, rest: Bytes, es: seq<Entry>)
    requires e.Valid() && ReadAll(rest) == Some(es)
    ensures ReadAll(Encode(e) + rest) == Some([e] + es)
  {
    EntryBack(e, rest);
    assert |Encode(e)| >= 8;
    ReadAllCons(Encode(e) + rest, e, rest, es);
  }

  lemma {:induction false} AllBack(es: seq<Entry>)
    requires AllValid(es)
    ensures ReadAll(EncodeAll(es)) == Some(es)
  {
    if es != [] {
      AllBack(es[1..]);
      OneMoreBack(es[0], EncodeAll(es[1..]), es[1..]);
      HeadAndTail(es);
    }
  }

  lemma {:induction false} AllForth(s: Bytes)
    requires ReadAll(s).Some?
    ensures AllValid(ReadAll(s).value) && EncodeAll(ReadAll(s).value) == s
    decreases |s|
  {
    if s != [] {
      EntryForth(s);
      AllForth(ReadEntry(s).value.rest);
      var es := ReadAll(s).value;
      assert es[1..] == ReadAll(ReadEntry(s).value.rest).value;
    }
  }

  /** Writing 1 to 256 entries and parsing the tile gives their certificates back. */
  lemma TileRoundTrip(es: seq<Entry>)
    requires AllValid(es) && 1 <= |es| <= TILE_WIDTH
    ensures TileCertificates(EncodeAll(es), |es|) == Some(Ders(es))
  {
    AllBack(es);
  }

  /** An accepted payload is the encoding of exactly one list of entries, which has the expected length. */
  lemma TileIsUnique(payload: Bytes, expected: nat) returns (es: seq<Entry>)
    requires TileCertificates(payload, expected).Some?
    ensures AllValid(es) && EncodeAll(es) == payload && |es| == expected
    ensures TileCertificates(payload, expected) == Some(Ders(es))
    ensures forall fs: seq<Entry> :: AllValid(fs) && EncodeAll(fs) == payload ==> fs == es
  {
    es := ReadAll(payload).value;
    AllForth(payload);
    forall fs: seq<Entry> | AllValid(fs) && EncodeAll(fs) == payload ensures fs == es {
      AllBack(fs);
    }
  }

  // ----- the parser -----

  class Cursor {
    const bytes: Bytes
    var position: nat

    constructor (bytes: Bytes)
      ensures this.bytes == bytes && position == 0
    {
      this.bytes := bytes;
      position := 0;
    }

    predicate Valid()
      reads this
    {
      position <= |bytes|
    }

    function Rest(): Bytes
      requires Valid()
      reads this
    {
      bytes[position..]
    }

    /** The value that was read and the bytes after it. */
    ghost predicate Advanced<T>(r: Option<Read<T>>, value: Option<T>)
      requires Valid()
      reads this
    {
      match r
      case None => value.None?
      case Some(read) => value == Some(read.value) && Rest() == read.rest
    }

    method Take(length: nat) returns (value: Option<Bytes>)
      requires Valid()
      modifies this
      ensures Valid() && Advanced(ReadBytes(old(Rest()), length), value)
      ensures position == if value.Some? then old(position) + length else old(position)
    {
      var end := position + length;
      if end > |bytes| {
        return None;
      }
      value := Some(bytes[position..end]);
      assert bytes[position..][..length] == bytes[position..end] && bytes[position..][length..] == bytes[end..];
      position := end;
    }

    method TakeU16() returns (value: Option<nat>)
      requires Valid()
      modifies this
      ensures Valid() && Advanced(ReadU16(old(Rest())), value)
    {
      var b := Take(2);
      if b.None? { return None; }
      return Some(b.value[0] as nat * 0x100 + b.value[1] as nat);
    }

    method TakeU24() returns (value: Option<nat>)
      requires Valid()
      modifies this
      ensures Valid() && Advanced(ReadU24(old(Rest())), value)
    {
      var b := Take(3);
      if b.None? { return None; }
      return Some(b.value[0] as nat * 0x1_0000 + b.value[1] as nat * 0x100 + b.value[2] as nat);
    }

    method TakeOpaque16() returns (value: Option<Bytes>)
      requires Valid()
      modifies this
      ensures Valid() && Advanced(ReadOpaque16(old(Rest())), value)
    {
      var n := TakeU16();
      if n.None? { return None; }
      value := Take(n.value);
    }

    method TakeOpaque24() returns (value: Option<Bytes>)
      requires Valid()
      modifies this
      ensures Valid() && Advanced(ReadOpaque24(old(Rest())), value)
    {
      var n := TakeU24();
      if n.None? { return None; }
      value := Take(n.value);
    }

    /** One entry of the tile; only its certificate is kept. */
    method TakeEntry() returns (der: Option<Bytes>)
      requires Valid()
      modifies this
      ensures Valid()
      ensures match ReadEntry(old(Rest()))
              case None => der.None?
              case Some(read) => der == Some(read.value.Der()) && Rest() == read.rest
    {
      var timestamp := Take(8);
      if timestamp.None? { return None; }
      var entryType := TakeU16();
      if entryType.None? || entryType.value > 1 { return None; }
      if entryType.value == 0 {
        der := TakeOpaque24();
        if der.None? { return None; }
      } else {
        var hash := Take(32);
        if hash.None? { return None; }
        var tbs := TakeOpaque24();
        if tbs.None? { return None; }
      }
      var extensions := TakeOpaque16();
      if extensions.None? { return None; }
      if entryType.value == 1 {
        der := TakeOpaque24();
        if der.None? { return None; }
      }
      var chain := TakeOpaque16();
      if chain.None? || |chain.value| % 32 != 0 { return None; }
    }
  }

  /** The payload reads as the entries in read followed by whatever rest reads as. */
  ghost predicate Parsing(payload: Bytes, rest: Bytes, read: seq<Entry>) {
    ReadAll(payload) == match ReadAll(rest) case None => None case Some(es) => Some(read + es)
  }

  lemma ParsingStarts(payload: Bytes)
    ensures Parsing(payload, payload, [])
  {
    if ReadAll(payload).Some? { assert [] + ReadAll(payload).value == ReadAll(payload).value; }
  }

  lemma ParsingSteps(payload: Bytes, rest: Bytes, read: seq<Entry>)
    requires Parsing(payload, rest, read) && rest != []
    ensures match ReadEntry(rest)
            case None => ReadAll(payload) == None
            case Some(r) => Parsing(payload, r.rest, read + [r.value]) && |r.rest| < |rest|
    ensures ReadAll(payload).Some? ==> |ReadAll(payload).value| > |read|
  {
    if ReadEntry(rest).Some? {
      EntryForth(rest);
      var r := ReadEntry(rest).value;
      if ReadAll(r.rest).Some? {
        assert read + ([r.value] + ReadAll(r.rest).value) == (read + [r.value]) + ReadAll(r.rest).value;
      }
    }
  }

  lemma ParsingEnds(payload: Bytes, read: seq<Entry>)
    requires Parsing(payload, [], read)
    ensures ReadAll(payload) == Some(read)
  {
    assert read + [] == read;
  }

  method ParseDataTile(payload: Bytes, expected: nat) returns (r: Option<seq<Bytes>>)
    ensures r == TileCertificates(payload, expected)
  {
    if expected == 0 || expected > TILE_WIDTH {
      return None;
    }
    var cursor := new Cursor(payload);
    var entries: seq<Bytes> := [];
    ghost var read: seq<Entry> := [];
    ParsingStarts(payload);
    assert cursor.Rest() == payload;
    while cursor.position < |payload|
      invariant fresh(cursor) && cursor.bytes == payload && cursor.Valid()
      invariant entries == Ders(read) && |entries| <= expected
      invariant Parsing(payload, cursor.Rest(), read)
      decreases |payload| - cursor.position
    {
      ghost var rest := cursor.Rest();
      ParsingSteps(payload, rest, read);
      if |entries| >= expected {
        return None;
      }
      var der := cursor.TakeEntry();
      if der.None? {
        return None;
      }
      entries := entries + [der.value];
      read := read + [ReadEntry(rest).value.value];
    }
    ParsingEnds(payload, read);
    if |entries| != expected {
      return None;
    }
    return Some(entries);
  }

  // ----- tile paths -----

  /** Groups of three digits, all but the last marked with an x. */
  function GroupPath(s: string): string {
    if |s| <= 3 then s else "x" + s[..3] + "/" + GroupPath(s[3..])
  }

  function PaddedIndex(index: nat): string {
    var decimal := Digits(index);
    Zeros((3 - |decimal| % 3) % 3) + decimal
  }

  function TileIndexPath(index: nat): string {
    GroupPath(PaddedIndex(index))
  }

  function DataTilePath(index: nat, partialWidth: Option<nat>): Option<string> {
    var base := "tile/data/" + TileIndexPath(index);
    match partialWidth
    case None => Some(base)
    case Some(width) => if 1 <= width <= 255 then Some(base + ".p/" + Digits(width)) else None
  }

  function Strip(path: string): string {
    if path == "" then ""
    else if path[0] == 'x' || path[0] == '/' then Strip(path[1..])
    else [path[0]] + Strip(path[1..])
  }

  function Kept(c: char): string { if c == 'x' || c == '/' then "" else [c] }

  lemma StripHead(c: char, path: string)
    ensures Strip([c] + path) == Kept(c) + Strip(path)
  {
    assert ([c] + path)[1..] == path;
  }

  lemma {:induction false} StripAppend(a: string, b: string)
    ensures Strip(a + b) == Strip(a) + Strip(b)
  {
    if a == "" {
      assert a + b == b;
    } else {
      var c, t := a[0], a[1..];
      StripAppend(t, b);
      HeadAndTail(a);
      Regroup([c], t, b);
      StripHead(c, t);
      StripHead(c, t + b);
      Regroup(Kept(c), Strip(t), Strip(b));
    }
  }

  lemma {:induction false} StripDigits(s: string)
    requires forall i :: 0 <= i < |s| ==> IsDigit(s[i])
    ensures Strip(s) == s
  {
    if s != "" {
      StripDigits(s[1..]);
    }
  }

  lemma {:induction false} StripGroups(s: string)
    requires forall i :: 0 <= i < |s| ==> IsDigit(s[i])
    ensures Strip(GroupPath(s)) == s
    ensures forall i :: 0 <= i < |GroupPath(s)| ==> GroupPath(s)[i] != '.'
  {
    StripDigits(s);
    if |s| > 3 {
      StripGroups(s[3..]);
      StripDigits(s[..3]);
      StripAppend("x" + s[..3] + "/", GroupPath(s[3..]));
      StripAppend("x" + s[..3], "/");
      StripAppend("x", s[..3]);
      assert Strip("x") == "" && Strip("/") == "";
      assert s == s[..3] + s[3..];
    }
  }

  lemma PadsToThree(n: nat)
    ensures ((3 - n % 3) % 3 + n) % 3 == 0
  {
    assert n == 3 * (n / 3) + n % 3;
  }

  lemma PaddedIndexValue(index: nat)
    ensures Numeral(PaddedIndex(index)) && Value(PaddedIndex(index)) == index && |PaddedIndex(index)| % 3 == 0
  {
    ValueOfDigits(index);
    ValueOfPadded((3 - |Digits(index)| % 3) % 3, Digits(index));
    PadsToThree(|Digits(index)|);
  }

  /** Stripping the markers gives the padded decimal index back. */
  lemma PathGivesIndex(index: nat)
    ensures Strip(TileIndexPath(index)) == PaddedIndex(index)
    ensures Numeral(Strip(TileIndexPath(index))) && Value(Strip(TileIndexPath(index))) == index
    ensures '.' !in TileIndexPath(index)
  {
    PaddedIndexValue(index);
    StripGroups(PaddedIndex(index));
  }

  lemma StemNotLonger(a: string, b: string, u: string, v: string)
    requires '.' !in b && a + "." + u == b + "." + v
    ensures |b| <= |a|
  {
    var w := a + "." + u;
    assert w[|a|] == '.';
    assert forall i :: 0 <= i < |b| ==> w[i] == b[i] && b[i] in b;
  }

  lemma SameStem(a: string, b: string, u: string, v: string)
    requires '.' !in a && '.' !in b && a + "." + u == b + "." + v
    ensures a == b && u == v
  {
    StemNotLonger(a, b, u, v);
    StemNotLonger(b, a, v, u);
    var w := a + "." + u;
    assert a == w[..|a|] && b == w[..|b|] && u == w[|a| + 1..] && v == w[|b| + 1..];
  }

  function FullPath(index: nat): string { "tile/data/" + TileIndexPath(index) }

  lemma FullPathsDiffer(i: nat, j: nat)
    requires FullPath(i) == FullPath(j)
    ensures i == j
  {
    assert FullPath(i)[10..] == TileIndexPath(i) && FullPath(j)[10..] == TileIndexPath(j);
    PathGivesIndex(i);
    PathGivesIndex(j);
  }

  lemma FullPathHasNoDot(index: nat)
    ensures '.' !in FullPath(index)
  {
    PathGivesIndex(index);
  }

  lemma PartialPath(index: nat, width: nat)
    requires 1 <= width <= 255
    ensures DataTilePath(index, Some(width)) == Some(FullPath(index) + "." + ("p/" + Digits(width)))
    ensures '.' in DataTilePath(index, Some(width)).value
  {
    var p := FullPath(index) + "." + ("p/" + Digits(width));
    assert FullPath(index) + ".p/" + Digits(width) == p;
    assert p[|FullPath(index)|] == '.';
  }

  /** Different tiles, full or partial, never share a path. */
  lemma TilePathsAreInjective(i: nat, m: Option<nat>, j: nat, n: Option<nat>)
    requires DataTilePath(i, m).Some? && DataTilePath(i, m) == DataTilePath(j, n)
    ensures i == j && m == n
  {
    FullPathHasNoDot(i);
    FullPathHasNoDot(j);
    if m.Some? { PartialPath(i, m.value); }
    if n.Some? { PartialPath(j, n.value); }
    if m.Some? && n.Some? {
      var u, v := "p/" + Digits(m.value), "p/" + Digits(n.value);
      SameStem(FullPath(i), FullPath(j), u, v);
      assert u[2..] == Digits(m.value) && v[2..] == Digits(n.value);
      ValueOfDigits(m.value);
      ValueOfDigits(n.value);
    }
    FullPathsDiffer(i, j);
  }
}
