/**
 Presentation names and canonical order (src/dnssec_proof.rs, section 6.1 of RFC 4034).
 A name is a sequence of labels, leftmost current first; the root is the empty sequence.
 */
module DnsNames {
  import opened Orders

  type Octets = seq<byte>
  type Name = seq<Octets>

  datatype ParseResult = Parsed(name: Name) | InvalidDnsName

  const DOT: byte := 46
  const BACKSLASH: byte := 92

  predicate IsDigit(b: byte) { 48 <= b <= 57 }

  function Lower(b: byte): byte { if 65 <= b <= 90 then b + 32 else b }

  // ----- what a presentation name means -----

  datatype Token = Dot | Octet(value: byte)

  datatype Tokens = Tokens(all: seq<Token>) | BadEscape
  {
    function Prepend(t: Token): Tokens {
      match this
      case Tokens(all) => Tokens([t] + all)
      case BadEscape => BadEscape
    }
  }

  predicate ThreeDigits(s: seq<byte>) {
    |s| >= 3 && IsDigit(s[0]) && IsDigit(s[1]) && IsDigit(s[2])
  }

  function DecimalValue(s: seq<byte>): nat
    requires ThreeDigits(s)
  {
    (s[0] as int - 48) * 100 + (s[1] as int - 48) * 10 + (s[2] as int - 48)
  }

  /** One token and the number of bytes that spell it. */
  datatype Step = Step(token: Token, width: nat) | Malformed

  /** A dot that is not escaped separates labels; escapes and case are resolved. */
  function First(s: seq<byte>): (r: Step)
    requires s != []
    ensures r.Step? ==> 0 < r.width <= |s|
  {
    if s[0] == DOT then Step(Dot, 1)
    else if s[0] != BACKSLASH then Step(Octet(Lower(s[0])), 1)
    else if |s| == 1 then Malformed
    else if ThreeDigits(s[1..]) then
      if DecimalValue(s[1..]) > 255 then Malformed
      else Step(Octet(Lower(DecimalValue(s[1..]) as byte)), 4)
    else Step(Octet(Lower(s[1])), 2)
  }

  function Decode(s: seq<byte>): Tokens {
    if s == [] then Tokens([])
    else
      match First(s)
      case Malformed => BadEscape
      case Step(token, width) => Decode(s[width..]).Prepend(token)
  }

  function Split(tokens: seq<Token>): (labels: Name)
    ensures labels != []
  {
    if tokens == [] then [[]]
    else
      var rest := Split(tokens[1..]);
      match tokens[0]
      case Dot => [[]] + rest
      case Octet(v) => [[v] + rest[0]] + rest[1..]
  }

  function WireLength(labels: Name): nat {
    if labels == [] then 1 else |labels[0]| + 1 + WireLength(labels[1..])
  }

  predicate ValidName(labels: Name) {
    (forall l :: l in labels ==> 1 <= |l| <= 63) && WireLength(labels) <= 255
  }

  function Checked(tokens: Tokens): ParseResult {
    if tokens.Tokens? && ValidName(Split(tokens.all)) then Parsed(Split(tokens.all)) else InvalidDnsName
  }

  function WithoutRootDot(s: seq<byte>): seq<byte> {
    if s != [] && s[|s| - 1] == DOT then s[..|s| - 1] else s
  }

  function Parse(s: seq<byte>): ParseResult {
    if s == [DOT] then Parsed([])
    else if WithoutRootDot(s) == [] then InvalidDnsName
    else Checked(Decode(WithoutRootDot(s)))
  }

  // ----- the parser -----

  /** Two runs of labels, the last of the first continued by the first of the second. */
  function Join(l: Name, r: Name): Name
    requires l != [] && r != []
  {
    l[..|l| - 1] + [l[|l| - 1] + r[0]] + r[1..]
  }

  lemma JoinAfterDot(l: Name, r: Name)
    requires l != [] && r != []
    ensures Join([[]] + l, r) == [[]] + Join(l, r)
  {
    assert ([[]] + l)[..|l|] == [[]] + l[..|l| - 1];
  }

  lemma JoinAfterOctet(v: byte, l: Name, r: Name)
    requires l != [] && r != []
    ensures Join([[v] + l[0]] + l[1..], r) == [[v] + Join(l, r)[0]] + Join(l, r)[1..]
  {
    var m := [[v] + l[0]] + l[1..];
    if |l| == 1 {
      assert ([v] + l[0]) + r[0] == [v] + (l[0] + r[0]);
    } else {
      assert m[..|m| - 1] == [[v] + l[0]] + l[1..|l| - 1];
      assert l[..|l| - 1] == [l[0]] + l[1..|l| - 1];
    }
  }

  lemma {:induction false} SplitAppend(a: seq<Token>, b: seq<Token>)
    ensures Split(a + b) == Join(Split(a), Split(b))
  {
    if a == [] {
      assert a + b == b;
      assert [] + Split(b)[0] == Split(b)[0];
      assert Join([[]], Split(b)) == Split(b);
    } else {
      SplitAppend(a[1..], b);
      assert (a + b)[1..] == a[1..] + b;
      if a[0].Dot? {
        JoinAfterDot(Split(a[1..]), Split(b));
      } else {
        JoinAfterOctet(a[0].value, Split(a[1..]), Split(b));
      }
    }
  }

  /** A label that is already empty at its dot, or already too long, spoils the name. */
  lemma BadLabel(done: seq<Token>, rest: seq<Token>, labels: Name, current: Octets)
    requires Split(done) == labels + [current]
    requires |current| > 63 || (current == [] && (rest == [] || rest[0] == Dot))
    ensures !ValidName(Split(done + rest))
  {
    SplitAppend(done, rest);
    var all := Split(done + rest);
    assert all[|labels|] == current + Split(rest)[0];
  }

  lemma SplitStep(done: seq<Token>, labels: Name, current: Octets, t: Token)
    requires Split(done) == labels + [current]
    ensures Split(done + [t]) ==
            if t.Dot? then labels + [current] + [[]] else labels + [current + [t.value]]
  {
    SplitAppend(done, [t]);
    var none: Name := [[]];
    assert [t][1..] == [] && Split([]) == none && none[1..] == [];
    if t.Octet? {
      assert [t.value] + none[0] == [t.value];
      assert Split([t]) == [[t.value]];
    } else {
      assert current + [] == current;
    }
  }

  /** Decoding can resume at cursor, after the tokens in done. */
  ghost predicate Resumes(s: seq<byte>, cursor: nat, done: seq<Token>)
    requires cursor <= |s|
  {
    Decode(s) == match Decode(s[cursor..])
                 case Tokens(rest) => Tokens(done + rest)
                 case BadEscape => BadEscape
  }

  lemma ResumesNext(s: seq<byte>, cursor: nat, done: seq<Token>)
    requires cursor < |s| && Resumes(s, cursor, done)
    ensures match First(s[cursor..])
            case Malformed => Decode(s) == BadEscape
            case Step(t, width) => Resumes(s, cursor + width, done + [t])
  {
    if First(s[cursor..]).Step? {
      var t, next := First(s[cursor..]).token, cursor + First(s[cursor..]).width;
      assert s[cursor..][next - cursor..] == s[next..];
      if Decode(s[next..]).Tokens? {
        var rest := Decode(s[next..]).all;
        assert done + ([t] + rest) == (done + [t]) + rest;
      }
    }
  }

  predicate GoodLabels(labels: Name) {
    forall i :: 0 <= i < |labels| ==> 1 <= |labels[i]| <= 63
  }

  /** The parser stands at cursor with these finished labels and this unfinished one. */
  ghost predicate Scanning(s: seq<byte>, cursor: nat, done: seq<Token>, labels: Name, current: Octets) {
    && cursor <= |s|
    && Resumes(s, cursor, done)
    && Split(done) == labels + [current]
    && GoodLabels(labels)
  }

  lemma Spoiled(s: seq<byte>, cursor: nat, done: seq<Token>, labels: Name, current: Octets)
    requires Scanning(s, cursor, done, labels, current)
    requires |current| > 63 || (current == [] && (cursor == |s| || s[cursor] == DOT))
    ensures Checked(Decode(s)) == InvalidDnsName
  {
    if Decode(s[cursor..]).Tokens? {
      BadLabel(done, Decode(s[cursor..]).all, labels, current);
    }
  }

  lemma Advanced(s: seq<byte>, next: nat, done: seq<Token>, labels: Name, current: Octets, t: Token)
    requires next <= |s| && Resumes(s, next, done + [t]) && Split(done) == labels + [current] && GoodLabels(labels)
    ensures t.Octet? ==> Scanning(s, next, done + [t], labels, current + [t.value])
    ensures t.Dot? && 1 <= |current| <= 63 ==> Scanning(s, next, done + [t], labels + [current], [])
  {
    SplitStep(done, labels, current, t);
  }

  lemma DotIsFirst(s: seq<byte>)
    requires s != [] && First(s).Step? && First(s).token.Dot?
    ensures s[0] == DOT
  {
  }

  lemma BadEscapeIsInvalid(s: seq<byte>)
    requires Decode(s) == BadEscape
    ensures Checked(Decode(s)) == InvalidDnsName
  {
  }

  /** Where the parser may stand; the loop only needs to know that there is such a description. */
  type Standing = (nat, seq<Token>, Name, Octets) -> bool

  ghost function StandingIn(s: seq<byte>): Standing {
    (cursor: nat, done: seq<Token>, labels: Name, current: Octets) => cursor <= |s| && Scanning(s, cursor, done, labels, current)
  }

  ghost predicate Describes(s: seq<byte>, stands: Standing) {
    forall cursor: nat, done, labels, current {:trigger Scanning(s, cursor, done, labels, current)} ::
      stands(cursor, done, labels, current) == Scanning(s, cursor, done, labels, current)
  }

  lemma AdvanceMalformed(s: seq<byte>, stands: Standing, cursor: nat, done: seq<Token>, labels: Name, current: Octets)
    requires Describes(s, stands) && stands(cursor, done, labels, current) && cursor < |s| && First(s[cursor..]).Malformed?
    ensures Checked(Decode(s)) == InvalidDnsName
  {
    assert Scanning(s, cursor, done, labels, current);
    ResumesNext(s, cursor, done);
    BadEscapeIsInvalid(s);
  }

  lemma ScanToken(s: seq<byte>, cursor: nat, done: seq<Token>, labels: Name, current: Octets, t: Token, width: nat)
    requires cursor < |s| && Scanning(s, cursor, done, labels, current) && First(s[cursor..]) == Step(t, width)
    ensures cursor + width <= |s|
    ensures t.Octet? ==> Scanning(s, cursor + width, done + [t], labels, current + [t.value])
    ensures t.Dot? && 1 <= |current| <= 63 ==> Scanning(s, cursor + width, done + [t], labels + [current], [])
  {
    ResumesNext(s, cursor, done);
    Advanced(s, cursor + width, done, labels, current, t);
  }

  lemma AdvanceToken(
      s: seq<byte>, stands: Standing, cursor: nat, done: seq<Token>, labels: Name, current: Octets, t: Token, width: nat)
    requires Describes(s, stands) && stands(cursor, done, labels, current) && cursor < |s| && First(s[cursor..]) == Step(t, width)
    ensures cursor + width <= |s|
    ensures t.Octet? ==> stands(cursor + width, done + [t], labels, current + [t.value])
    ensures t.Dot? && 1 <= |current| <= 63 ==> stands(cursor + width, done + [t], labels + [current], [])
  {
    assert Scanning(s, cursor, done, labels, current);
    ScanToken(s, cursor, done, labels, current, t, width);
  }

  lemma AdvanceSpoiled(s: seq<byte>, stands: Standing, cursor: nat, done: seq<Token>, labels: Name, current: Octets)
    requires Describes(s, stands) && cursor <= |s| && stands(cursor, done, labels, current)
    requires |current| > 63 || (current == [] && (cursor == |s| || s[cursor] == DOT))
    ensures Checked(Decode(s)) == InvalidDnsName
  {
    assert Scanning(s, cursor, done, labels, current);
    Spoiled(s, cursor, done, labels, current);
  }

  lemma ScanStarts(s: seq<byte>, stands: Standing)
    requires Describes(s, stands)
    ensures stands(0, [], [], [])
  {
    assert s[0..] == s;
    if Decode(s).Tokens? { assert [] + Decode(s).all == Decode(s).all; }
    assert Scanning(s, 0, [], [], []);
  }

  lemma ScanEnds(s: seq<byte>, stands: Standing, done: seq<Token>, labels: Name, current: Octets)
    requires Describes(s, stands) && stands(|s|, done, labels, current) && 1 <= |current| <= 63
    ensures Checked(Decode(s)) ==
            if WireLength(labels + [current]) > 255 then InvalidDnsName else Parsed(labels + [current])
  {
    assert Scanning(s, |s|, done, labels, current);
    Finish(s, done, labels, current);
  }

  lemma Finish(s: seq<byte>, done: seq<Token>, labels: Name, current: Octets)
    requires Scanning(s, |s|, done, labels, current) && 1 <= |current| <= 63
    ensures Checked(Decode(s)) ==
            if WireLength(labels + [current]) > 255 then InvalidDnsName else Parsed(labels + [current])
  {
    assert done + [] == done;
    var all := labels + [current];
    assert forall l :: l in all ==> exists i :: 0 <= i < |all| && all[i] == l;
  }

  lemma FirstAt(bytes: seq<byte>, end: nat, c: nat)
    requires c < end <= |bytes|
    ensures First(bytes[..end][c..]) ==
            if bytes[c] == DOT then Step(Dot, 1)
            else if bytes[c] != BACKSLASH then Step(Octet(Lower(bytes[c])), 1)
            else if c + 1 == end then Malformed
            else if c + 3 < end && ThreeDigits(bytes[c + 1..]) then
              if DecimalValue(bytes[c + 1..]) > 255 then Malformed
              else Step(Octet(Lower(DecimalValue(bytes[c + 1..]) as byte)), 4)
            else Step(Octet(Lower(bytes[c + 1])), 2)
  {
    var s := bytes[..end][c..];
    assert s[1..] == bytes[c + 1..end];
  }

  /** Reads the escape whose backslash is at start. */
  method ReadEscape(bytes: seq<byte>, start: nat, end: nat) returns (r: Step)
    requires start < end <= |bytes| && bytes[start] == BACKSLASH
    ensures r == First(bytes[..end][start..])
    ensures r.Step? ==> r.token.Octet?
  {
    FirstAt(bytes, end, start);
    var cursor := start + 1;
    if cursor >= end {
      return Malformed;
    }
    if cursor + 2 < end && IsDigit(bytes[cursor]) && IsDigit(bytes[cursor + 1]) && IsDigit(bytes[cursor + 2]) {
      var value := (bytes[cursor] as int - 48) * 100 + (bytes[cursor + 1] as int - 48) * 10 + (bytes[cursor + 2] as int - 48);
      return if value > 255 then Malformed else Step(Octet(Lower(value as byte)), 4);
    }
    return Step(Octet(Lower(bytes[cursor])), 2);
  }

  method ParsePresentationName(bytes: seq<byte>) returns (r: ParseResult)
    ensures r == Parse(bytes)
  {
    if bytes == [DOT] {
      return Parsed([]);
    }
    var end := if bytes != [] && bytes[|bytes| - 1] == DOT then |bytes| - 1 else |bytes|;
    if end == 0 {
      return InvalidDnsName;
    }
    assert bytes[..end] == WithoutRootDot(bytes);
    r := ParseLabels(bytes, end, StandingIn(bytes[..end]));
  }

  /** The cursor loop over the bytes in front of the root dot. */
  method ParseLabels(bytes: seq<byte>, end: nat, ghost stands: Standing) returns (r: ParseResult)
    requires end <= |bytes| && Describes(bytes[..end], stands)
    ensures r == Checked(Decode(bytes[..end]))
  {
    ghost var s := bytes[..end];
    var labels: Name, current: Octets := [], [];
    var cursor := 0;
    ghost var done: seq<Token> := [];
    ScanStarts(s, stands);
    while cursor < end
      invariant cursor <= end && |current| <= 63
      invariant stands(cursor, done, labels, current)
    {
      ghost var step := First(s[cursor..]);
      FirstAt(bytes, end, cursor);
      if step.Malformed? {
        AdvanceMalformed(s, stands, cursor, done, labels, current);
      } else {
        AdvanceToken(s, stands, cursor, done, labels, current, step.token, step.width);
      }
      if bytes[cursor] == DOT {
        if current == [] {
          AdvanceSpoiled(s, stands, cursor, done, labels, current);
          return InvalidDnsName;
        }
        labels, current := labels + [current], [];
        cursor := cursor + 1;
      } else if bytes[cursor] == BACKSLASH {
        var escape := ReadEscape(bytes, cursor, end);
        if escape.Malformed? {
          return InvalidDnsName;
        }
        current := current + [escape.token.value];
        cursor := cursor + escape.width;
      } else {
        current := current + [Lower(bytes[cursor])];
        cursor := cursor + 1;
      }
      done := done + [step.token];
      if |current| > 63 {
        AdvanceSpoiled(s, stands, cursor, done, labels, current);
        return InvalidDnsName;
      }
    }
    if current == [] {
      AdvanceSpoiled(s, stands, cursor, done, labels, current);
      return InvalidDnsName;
    }
    ScanEnds(s, stands, done, labels, current);
    labels := labels + [current];
    if WireLength(labels) > 255 {
      return InvalidDnsName;
    }
    return Parsed(labels);
  }

  // ----- every spelling of a name -----

  /** One octet, written as itself, after a backslash, or as a decimal escape. */
  datatype Atom = Literal(octet: byte) | Quoted(octet: byte) | Decimal(octet: byte)
  {
    /** A digit after a backslash could start a decimal escape, so it must not be quoted. */
    predicate WellFormed() {
      match this
      case Literal(b) => b != DOT && b != BACKSLASH
      case Quoted(b) => !IsDigit(b)
      case Decimal(b) => true
    }

    function Spell(): seq<byte> {
      match this
      case Literal(b) => [b]
      case Quoted(b) => [BACKSLASH, b]
      case Decimal(b) => [BACKSLASH, 48 + b / 100, 48 + b / 10 % 10, 48 + b % 10]
    }
  }

  function SpellLabel(atoms: seq<Atom>): seq<byte> {
    if atoms == [] then [] else atoms[0].Spell() + SpellLabel(atoms[1..])
  }

  function SpellName(labels: seq<seq<Atom>>): seq<byte>
    requires labels != []
  {
    if |labels| == 1 then SpellLabel(labels[0])
    else SpellLabel(labels[0]) + [DOT] + SpellName(labels[1..])
  }

  function Values(atoms: seq<Atom>): Octets {
    seq(|atoms|, i requires 0 <= i < |atoms| => Lower(atoms[i].octet))
  }

  function Spelled(labels: seq<seq<Atom>>): Name {
    seq(|labels|, i requires 0 <= i < |labels| => Values(labels[i]))
  }

  predicate AllWellFormed(atoms: seq<Atom>) {
    forall i :: 0 <= i < |atoms| ==> atoms[i].WellFormed()
  }

  predicate WellSpelled(labels: seq<seq<Atom>>) {
    && labels != []
    && forall i :: 0 <= i < |labels| ==> labels[i] != [] && AllWellFormed(labels[i])
  }

  predicate EndsInQuotedDot(labels: seq<seq<Atom>>)
    requires WellSpelled(labels)
  {
    var last := labels[|labels| - 1];
    last[|last| - 1] == Quoted(DOT)
  }

  function Follow(prefix: seq<Token>, rest: Tokens): Tokens {
    match rest
    case Tokens(all) => Tokens(prefix + all)
    case BadEscape => BadEscape
  }

  lemma DecodeAtom(a: Atom, rest: seq<byte>)
    requires a.WellFormed()
    ensures Decode(a.Spell() + rest) == Decode(rest).Prepend(Octet(Lower(a.octet)))
  {
    var s := a.Spell() + rest;
    assert s[|a.Spell()|..] == rest;
    if a.Decimal? {
      assert DecimalValue(s[1..]) == a.octet as int;
    }
  }

  lemma FollowAppend(p: seq<Token>, q: seq<Token>, rest: Tokens)
    ensures Follow(p + q, rest) == Follow(p, Follow(q, rest))
    ensures Follow([], rest) == rest
  {
    if rest.Tokens? {
      assert (p + q) + rest.all == p + (q + rest.all);
      assert [] + rest.all == rest.all;
    }
  }

  function LabelTokens(atoms: seq<Atom>): seq<Token> {
    seq(|atoms|, i requires 0 <= i < |atoms| => Octet(Lower(atoms[i].octet)))
  }

  lemma {:induction false} DecodeLabel(atoms: seq<Atom>, rest: seq<byte>)
    requires AllWellFormed(atoms)
    ensures Decode(SpellLabel(atoms) + rest) == Follow(LabelTokens(atoms), Decode(rest))
  {
    if atoms == [] {
      assert SpellLabel(atoms) + rest == rest;
      FollowAppend([], [], Decode(rest));
    } else {
      var t, tail := Octet(Lower(atoms[0].octet)), SpellLabel(atoms[1..]);
      assert SpellLabel(atoms) + rest == atoms[0].Spell() + (tail + rest);
      assert LabelTokens(atoms) == [t] + LabelTokens(atoms[1..]);
      calc {
        Decode(SpellLabel(atoms) + rest);
        { DecodeAtom(atoms[0], tail + rest); }
        Decode(tail + rest).Prepend(t);
        { DecodeLabel(atoms[1..], rest); }
        Follow([t], Follow(LabelTokens(atoms[1..]), Decode(rest)));
        { FollowAppend([t], LabelTokens(atoms[1..]), Decode(rest)); }
        Follow(LabelTokens(atoms), Decode(rest));
      }
    }
  }

  function NameTokens(labels: seq<seq<Atom>>): seq<Token>
    requires labels != []
  {
    if |labels| == 1 then LabelTokens(labels[0])
    else LabelTokens(labels[0]) + ([Dot] + NameTokens(labels[1..]))
  }

  lemma {:induction false} DecodeName(labels: seq<seq<Atom>>, rest: seq<byte>)
    requires labels != []
    requires forall i :: 0 <= i < |labels| ==> AllWellFormed(labels[i])
    ensures Decode(SpellName(labels) + rest) == Follow(NameTokens(labels), Decode(rest))
  {
    if |labels| == 1 {
      DecodeLabel(labels[0], rest);
    } else {
      var after, tokens := SpellName(labels[1..]) + rest, NameTokens(labels[1..]);
      assert SpellName(labels) + rest == SpellLabel(labels[0]) + ([DOT] + after);
      calc {
        Decode(SpellName(labels) + rest);
        { DecodeLabel(labels[0], [DOT] + after); }
        Follow(LabelTokens(labels[0]), Decode([DOT] + after));
        { DecodeDot(after); }
        Follow(LabelTokens(labels[0]), Follow([Dot], Decode(after)));
        { DecodeName(labels[1..], rest); FollowAppend([Dot], tokens, Decode(rest)); }
        Follow(LabelTokens(labels[0]), Follow([Dot] + tokens, Decode(rest)));
        { FollowAppend(LabelTokens(labels[0]), [Dot] + tokens, Decode(rest)); }
        Follow(NameTokens(labels), Decode(rest));
      }
    }
  }

  lemma DecodeDot(rest: seq<byte>)
    ensures Decode([DOT] + rest) == Follow([Dot], Decode(rest))
  {
    assert First([DOT] + rest) == Step(Dot, 1);
    assert ([DOT] + rest)[1..] == rest;
  }

  lemma {:induction false} SplitLabel(atoms: seq<Atom>)
    ensures Split(LabelTokens(atoms)) == [Values(atoms)]
  {
    if atoms != [] {
      SplitLabel(atoms[1..]);
      assert LabelTokens(atoms)[1..] == LabelTokens(atoms[1..]);
      assert Values(atoms) == [Lower(atoms[0].octet)] + Values(atoms[1..]);
    } else {
      assert LabelTokens(atoms) == [] && Values(atoms) == [];
    }
  }

  lemma {:induction false} SplitName(labels: seq<seq<Atom>>)
    requires labels != []
    ensures Split(NameTokens(labels)) == Spelled(labels)
  {
    SplitLabel(labels[0]);
    if |labels| == 1 {
      assert Spelled(labels) == [Values(labels[0])];
    } else {
      SplitName(labels[1..]);
      var tail := [Dot] + NameTokens(labels[1..]);
      assert tail[1..] == NameTokens(labels[1..]);
      SplitAppend(LabelTokens(labels[0]), tail);
      assert NameTokens(labels) == LabelTokens(labels[0]) + tail;
      assert Values(labels[0]) + [] == Values(labels[0]);
      assert Spelled(labels) == [Values(labels[0])] + Spelled(labels[1..]);
    }
  }

  lemma {:induction false} SpellEnd(labels: seq<seq<Atom>>) returns (front: seq<byte>)
    requires WellSpelled(labels)
    ensures var last := labels[|labels| - 1];
            SpellName(labels) == front + last[|last| - 1].Spell()
    ensures EndsInQuotedDot(labels) ==> Decode(front + [BACKSLASH]) == BadEscape
    ensures Decode(SpellName(labels)).Tokens? && |front| < |SpellName(labels)|
  {
    DecodeName(labels, []);
    assert SpellName(labels) + [] == SpellName(labels);
    var n, last := |labels| - 1, labels[|labels| - 1];
    var cut := labels[n := last[..|last| - 1]];
    SpellLabelEnd(last);
    SpellNameEnd(labels, cut, last[|last| - 1].Spell());
    front := SpellName(cut);
    DecodeName(cut, [BACKSLASH]);
  }

  lemma {:induction false} SpellLabelEnd(atoms: seq<Atom>)
    requires atoms != []
    ensures SpellLabel(atoms) == SpellLabel(atoms[..|atoms| - 1]) + atoms[|atoms| - 1].Spell()
  {
    if |atoms| > 1 {
      SpellLabelEnd(atoms[1..]);
      TailOfFront(atoms);
      Regroup(atoms[0].Spell(), SpellLabel(atoms[..|atoms| - 1][1..]), atoms[|atoms| - 1].Spell());
    } else {
      assert SpellLabel(atoms[1..]) == [];
    }
  }

  lemma TailOfFront<T>(s: seq<T>)
    requires |s| > 1
    ensures s[1..][..|s| - 2] == s[..|s| - 1][1..] && s[..|s| - 1][0] == s[0]
  {
  }

  lemma Regroup<T>(a: seq<T>, b: seq<T>, c: seq<T>)
    ensures a + (b + c) == (a + b) + c
  {
  }

  lemma SpellNameStep(labels: seq<seq<Atom>>)
    requires |labels| > 1
    ensures SpellName(labels) == (SpellLabel(labels[0]) + [DOT]) + SpellName(labels[1..])
  {
  }

  lemma {:induction false} SpellNameEnd(labels: seq<seq<Atom>>, cut: seq<seq<Atom>>, tail: seq<byte>)
    requires labels != [] && |cut| == |labels|
    requires cut[..|cut| - 1] == labels[..|cut| - 1]
    requires SpellLabel(labels[|cut| - 1]) == SpellLabel(cut[|cut| - 1]) + tail
    ensures SpellName(labels) == SpellName(cut) + tail
  {
    if |cut| > 1 {
      TailOfFront(labels);
      TailOfFront(cut);
      SpellNameEnd(labels[1..], cut[1..], tail);
      SpellNameStep(labels);
      SpellNameStep(cut);
      Regroup(SpellLabel(cut[0]) + [DOT], SpellName(cut[1..]), tail);
    }
  }

  function Meaning(labels: seq<seq<Atom>>): ParseResult {
    if ValidName(Spelled(labels)) then Parsed(Spelled(labels)) else InvalidDnsName
  }

  lemma DecodedMeaning(labels: seq<seq<Atom>>)
    requires WellSpelled(labels)
    ensures Checked(Decode(SpellName(labels))) == Meaning(labels)
  {
    DecodeName(labels, []);
    assert SpellName(labels) + [] == SpellName(labels) && NameTokens(labels) + [] == NameTokens(labels);
    SplitName(labels);
  }

  lemma RootDotIsDropped(s: seq<byte>)
    requires s != []
    ensures Parse(s + [DOT]) == Checked(Decode(s))
  {
    assert WithoutRootDot(s + [DOT]) == s;
    assert |s + [DOT]| > 1;
  }

  lemma LastIsKept(front: seq<byte>, last: seq<byte>)
    requires last != [] && last[|last| - 1] != DOT
    ensures Parse(front + last) == Checked(Decode(front + last))
  {
    assert (front + last)[|front + last| - 1] == last[|last| - 1];
  }

  lemma QuotedDotIsCut(front: seq<byte>)
    ensures Parse(front + [BACKSLASH, DOT]) == Checked(Decode(front + [BACKSLASH]))
  {
    var s := front + [BACKSLASH, DOT];
    assert s[|s| - 1] == DOT && s[..|s| - 1] == front + [BACKSLASH];
  }

  /** Only a quoted dot is spelled with a dot at its end. */
  lemma LastOfAtom(a: Atom)
    requires a.WellFormed()
    ensures a.Spell() != [] && (a.Spell()[|a.Spell()| - 1] == DOT <==> a == Quoted(DOT))
    ensures a == Quoted(DOT) ==> a.Spell() == [BACKSLASH, DOT]
  {
  }

  /** The last atom of a spelling, and what stands in front of it. */
  lemma SpellingEnds(labels: seq<seq<Atom>>) returns (front: seq<byte>, last: seq<byte>)
    requires WellSpelled(labels)
    ensures SpellName(labels) == front + last && last != []
    ensures if EndsInQuotedDot(labels) then last == [BACKSLASH, DOT] && Decode(front + [BACKSLASH]) == BadEscape else last[|last| - 1] != DOT
  {
    front := SpellEnd(labels);
    var atoms := labels[|labels| - 1];
    var a := atoms[|atoms| - 1];
    last := a.Spell();
    assert a in atoms && a.WellFormed();
    LastOfAtom(a);
  }

  lemma AbsoluteSpellingIsParsed(labels: seq<seq<Atom>>)
    requires WellSpelled(labels)
    ensures Parse(SpellName(labels) + [DOT]) == Meaning(labels)
  {
    var front, last := SpellingEnds(labels);
    DecodedMeaning(labels);
    RootDotIsDropped(SpellName(labels));
  }

  lemma RelativeSpellingIsParsed(labels: seq<seq<Atom>>)
    requires WellSpelled(labels)
    ensures Parse(SpellName(labels)) == if EndsInQuotedDot(labels) then InvalidDnsName else Meaning(labels)
  {
    var front, last := SpellingEnds(labels);
    if EndsInQuotedDot(labels) {
      QuotedDotIsCut(front);
      BadEscapeIsInvalid(front + [BACKSLASH]);
    } else {
      DecodedMeaning(labels);
      LastIsKept(front, last);
    }
  }

  /**
   Parsing undoes every spelling: case and escapes do not matter, the root dot is optional, and a
   relative spelling that ends in a quoted dot is the one shape that is rejected although its labels are fine.
   */
  lemma ParseUndoesSpelling(labels: seq<seq<Atom>>)
    requires WellSpelled(labels)
    ensures Parse(SpellName(labels)) == if EndsInQuotedDot(labels) then InvalidDnsName else Meaning(labels)
    ensures Parse(SpellName(labels) + [DOT]) == Meaning(labels)
  {
    RelativeSpellingIsParsed(labels);
    AbsoluteSpellingIsParsed(labels);
  }

  /** `a\.` names the label "a." yet is refused. */
  lemma QuotedFinalDotIsRejected()
    ensures Parse([97, BACKSLASH, DOT]) == InvalidDnsName
    ensures Parse([97, BACKSLASH, DOT, DOT]) == Parsed([[97, DOT]])
    ensures Parse([97, BACKSLASH, 48, 52, 54]) == Parsed([[97, DOT]])
  {
    var quoted, decimal := [[Literal(97), Quoted(DOT)]], [[Literal(97), Decimal(DOT)]];
    assert SpellLabel(quoted[0][1..]) == [BACKSLASH, DOT] by { assert quoted[0][1..] == [Quoted(DOT)]; }
    assert SpellLabel(decimal[0][1..]) == [BACKSLASH, 48, 52, 54] by { assert decimal[0][1..] == [Decimal(DOT)]; }
    assert SpellName(quoted) == [97, BACKSLASH, DOT];
    assert SpellName(decimal) == [97, BACKSLASH, 48, 52, 54];
    ParseUndoesSpelling(quoted);
    ParseUndoesSpelling(decimal);
    assert Values(quoted[0]) == [97, DOT] && Values(decimal[0]) == [97, DOT];
    assert Spelled(quoted) == [[97, DOT]] && Spelled(decimal) == [[97, DOT]];
    assert WireLength([[97, DOT]]) == 4;
    assert SpellName(quoted) + [DOT] == [97, BACKSLASH, DOT, DOT];
  }

  // ----- canonical order -----

  function Reversed<T>(s: seq<T>): seq<T> {
    seq(|s|, i requires 0 <= i < |s| => s[|s| - 1 - i])
  }

  /** Labels are compared from the root downwards. */
  function CanonicalCompare(a: Name, b: Name): Ordering {
    LexCompare(CompareBytes, Reversed(a), Reversed(b))
  }

  method CanonicalNameCmp(left: Name, right: Name) returns (r: Ordering)
    ensures r == CanonicalCompare(left, right)
  {
    ghost var a, b := Reversed(left), Reversed(right);
    var i := 0;
    assert a[0..] == a && b[0..] == b;
    while true
      invariant i <= |left| && i <= |right|
      invariant LexCompare(CompareBytes, a, b) == LexCompare(CompareBytes, a[i..], b[i..])
      decreases |left| - i
    {
      if i < |left| && i < |right| {
        var ordering := CompareBytes(left[|left| - 1 - i], right[|right| - 1 - i]);
        assert a[i..][0] == left[|left| - 1 - i] && b[i..][0] == right[|right| - 1 - i];
        assert a[i..][1..] == a[i + 1..] && b[i..][1..] == b[i + 1..];
        if ordering != Equal {
          return ordering;
        }
        i := i + 1;
      } else {
        return if i < |right| then Less else if i < |left| then Greater else Equal;
      }
    }
  }

  lemma CanonicalTotal()
    ensures TotalOrder(CanonicalCompare)
  {
    BytesTotal();
    forall a, b ensures (CanonicalCompare(a, b) == Equal <==> a == b)
                     && CanonicalCompare(a, b) == CanonicalCompare(b, a).Reverse() {
      LexEqual(CompareBytes, Reversed(a), Reversed(b));
      LexReverse(CompareBytes, Reversed(a), Reversed(b));
      if Reversed(a) == Reversed(b) {
        assert |Reversed(a)| == |a| && |Reversed(b)| == |b|;
        forall i | 0 <= i < |a| ensures a[i] == b[i] {
          assert Reversed(a)[|a| - 1 - i] == a[i] && Reversed(b)[|a| - 1 - i] == b[i];
        }
      }
    }
    forall a, b, c | CanonicalCompare(a, b) == Less && CanonicalCompare(b, c) == Less
      ensures CanonicalCompare(a, c) == Less
    {
      LexTransitive(CompareBytes, Reversed(a), Reversed(b), Reversed(c));
    }
  }

  predicate InZone(name: Name, apex: Name) {
    |apex| <= |name| && name[|name| - |apex|..] == apex
  }

  lemma {:induction false} PrefixContiguous(p: seq<Octets>, a: seq<Octets>, b: seq<Octets>, c: seq<Octets>)
    requires p <= a && p <= c
    requires LexCompare(CompareBytes, a, b) != Greater && LexCompare(CompareBytes, b, c) != Greater
    ensures p <= b
  {
    if p != [] {
      BytesTotal();
      assert b != [];
      assert a[0] == p[0] && c[0] == p[0];
      assert CompareBytes(a[0], b[0]) == CompareBytes(b[0], a[0]).Reverse();
      assert b[0] == p[0];
      PrefixContiguous(p[1..], a[1..], b[1..], c[1..]);
      assert p == [p[0]] + p[1..] && b == [b[0]] + b[1..];
    }
  }

  /** The names of a zone are contiguous in canonical order, and the apex comes first. */
  lemma ZoneContiguous(apex: Name, a: Name, b: Name, c: Name)
    requires InZone(a, apex) && InZone(c, apex)
    requires CanonicalCompare(a, b) != Greater && CanonicalCompare(b, c) != Greater
    ensures InZone(b, apex)
    ensures CanonicalCompare(apex, a) != Greater
  {
    ReversedPrefix(apex, a);
    ReversedPrefix(apex, b);
    ReversedPrefix(apex, c);
    PrefixContiguous(Reversed(apex), Reversed(a), Reversed(b), Reversed(c));
    PrefixFirst(Reversed(apex), Reversed(a));
  }

  lemma {:induction false} PrefixFirst(p: seq<Octets>, a: seq<Octets>)
    requires p <= a
    ensures LexCompare(CompareBytes, p, a) != Greater
  {
    if p != [] {
      BytesTotal();
      PrefixFirst(p[1..], a[1..]);
    }
  }

  lemma ReversedPrefix(apex: Name, a: Name)
    ensures InZone(a, apex) <==> Reversed(apex) <= Reversed(a)
  {
    var ra, rz := Reversed(a), Reversed(apex);
    if InZone(a, apex) {
      forall i | 0 <= i < |apex| ensures ra[i] == rz[i] {
        assert a[|a| - |apex|..][|apex| - 1 - i] == apex[|apex| - 1 - i];
      }
    }
    if rz <= ra {
      forall i | 0 <= i < |apex| ensures a[|a| - |apex|..][i] == apex[i] {
        assert ra[|apex| - 1 - i] == rz[|apex| - 1 - i];
      }
    }
  }
}
