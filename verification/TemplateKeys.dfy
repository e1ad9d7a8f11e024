/** The keys under which labels are gathered into templates (src/intelligence.rs): no two templates share one. */
module TemplateKeys {
  import opened Decimals
  import opened TokenKinds
  import opened BeamSearch

  function Body(part: TemplatePart): string {
    match part
    case Literal(_, value) => "literal:" + value
    case Slot(_, kind, index) => "slot:" + (kind.Tag() + ":" + Digits(index))
  }

  function Piece(part: TemplatePart): string { part.separatorBefore + Body(part) }

  function KeyText(parent: string, parts: seq<TemplatePart>): string {
    if parts == [] then "parent=" + parent + "|"
    else KeyText(parent, parts[..|parts| - 1]) + Piece(parts[|parts| - 1]) + "|"
  }

  method TemplateKey(parent: string, parts: seq<TemplatePart>) returns (key: string)
    ensures key == KeyText(parent, parts)
  {
    key := "parent=" + parent + "|";
    for n := 0 to |parts|
      invariant key == KeyText(parent, parts[..n])
    {
      assert parts[..n + 1][..n] == parts[..n];
      key := key + Piece(parts[n]) + "|";
    }
    assert parts[..|parts|] == parts;
  }

  /** What tokens of host names give: separators are hyphens or nothing, and no text holds the bar. */
  predicate PlainPart(part: TemplatePart) {
    part.separatorBefore in {"", "-"} && (part.Literal? ==> '|' !in part.value)
  }

  predicate PlainParts(parts: seq<TemplatePart>) {
    forall i :: 0 <= i < |parts| ==> PlainPart(parts[i])
  }

  // ----- reading a key back -----

  lemma MarkIsNotBefore(mark: char, a: string, x: string, b: string, y: string)
    requires mark !in b && a + [mark] + x == b + [mark] + y
    ensures |b| <= |a|
  {
    var whole := a + [mark] + x;
    assert whole[|a|] == mark;
    assert forall i :: 0 <= i < |b| ==> whole[i] == b[i];
  }

  /** The first mark splits a text in one way. */
  lemma SplitAtMark(mark: char, a: string, x: string, b: string, y: string)
    requires mark !in a && mark !in b && a + [mark] + x == b + [mark] + y
    ensures a == b && x == y
  {
    MarkIsNotBefore(mark, a, x, b, y);
    MarkIsNotBefore(mark, b, y, a, x);
    var l, r := a + [mark] + x, b + [mark] + y;
    assert a == l[..|a|] && b == r[..|a|];
    assert x == l[|a| + 1..] && y == r[|a| + 1..];
  }

  predicate Closed(s: string) { s == "" || s[|s| - 1] == '|' }

  lemma BarIsNotBehind(x: string, p: string, y: string, q: string)
    requires Closed(y) && '|' !in p && x + p == y + q
    ensures |y| <= |x|
  {
    var whole := x + p;
    assert forall i :: |x| <= i < |whole| ==> whole[i] == p[i - |x|];
    assert y == "" || whole[|y| - 1] == '|';
  }

  /** So does the last bar. */
  lemma LastPiece(x: string, p: string, y: string, q: string)
    requires Closed(x) && Closed(y) && '|' !in p && '|' !in q && x + p == y + q
    ensures x == y && p == q
  {
    BarIsNotBehind(x, p, y, q);
    BarIsNotBehind(y, q, x, p);
    var whole := x + p;
    assert x == whole[..|x|] && y == whole[..|x|];
    assert p == whole[|x|..] && q == whole[|x|..];
  }

  lemma DropSuffix(a: string, b: string, c: string)
    requires a + c == b + c
    ensures a == b
  {
    assert a == (a + c)[..|a|] && b == (b + c)[..|b|];
  }

  lemma DropPrefix(a: string, b: string, c: string)
    requires c + a == c + b
    ensures a == b
  {
    assert a == (c + a)[|c|..] && b == (c + b)[|c|..];
  }

  lemma SlotBodies(k: TokenKind, i: nat, l: TokenKind, j: nat)
    requires k.Tag() + ":" + Digits(i) == l.Tag() + ":" + Digits(j)
    ensures k == l && i == j
  {
    SplitAtMark(':', k.Tag(), Digits(i), l.Tag(), Digits(j));
    TagsDiffer(k, l);
    ValueOfDigits(i);
    ValueOfDigits(j);
  }

  lemma SameBody(a: TemplatePart, b: TemplatePart)
    requires Body(a) == Body(b) && a.separatorBefore == b.separatorBefore
    ensures a == b
  {
    assert Body(a)[0] == (if a.Literal? then 'l' else 's') && Body(b)[0] == (if b.Literal? then 'l' else 's');
    if a.Literal? {
      DropPrefix(a.value, b.value, "literal:");
    } else {
      DropPrefix(a.kind.Tag() + ":" + Digits(a.slotIndex), b.kind.Tag() + ":" + Digits(b.slotIndex), "slot:");
      SlotBodies(a.kind, a.slotIndex, b.kind, b.slotIndex);
    }
  }

  lemma SamePiece(a: TemplatePart, b: TemplatePart)
    requires PlainPart(a) && PlainPart(b) && Piece(a) == Piece(b)
    ensures a == b
  {
    assert Body(a)[0] != '-' && Body(b)[0] != '-';
    assert Piece(a)[0] == '-' <==> a.separatorBefore == "-";
    assert Piece(b)[0] == '-' <==> b.separatorBefore == "-";
    DropPrefix(Body(a), Body(b), a.separatorBefore);
    SameBody(a, b);
  }

  lemma PieceHasNoBar(part: TemplatePart)
    requires PlainPart(part)
    ensures '|' !in Piece(part)
  {
    if part.Slot? {
      DigitsNumeral(part.slotIndex);
      assert '|' !in Digits(part.slotIndex) && '|' !in part.kind.Tag();
    }
  }

  lemma KeyOfMore(parent: string, parts: seq<TemplatePart>)
    requires parts != []
    ensures KeyText(parent, parts) == KeyText(parent, parts[..|parts| - 1]) + Piece(parts[|parts| - 1]) + "|"
    ensures Closed(KeyText(parent, parts[..|parts| - 1])) && KeyText(parent, parts[..|parts| - 1]) != ""
  {
  }

  lemma PlainFront(parts: seq<TemplatePart>)
    requires PlainParts(parts) && parts != []
    ensures PlainParts(parts[..|parts| - 1]) && PlainPart(parts[|parts| - 1])
  {
  }

  /** A key that ends in a part is not the key of a parent alone. */
  lemma RootKeyDiffers(parent: string, other: string, parts: seq<TemplatePart>)
    requires '|' !in parent && PlainParts(parts) && parts != []
    ensures KeyText(parent, []) != KeyText(other, parts)
  {
    var last := parts[|parts| - 1];
    KeyOfMore(other, parts);
    PlainFront(parts);
    PieceHasNoBar(last);
    if KeyText(parent, []) == KeyText(other, parts) {
      var x := KeyText(other, parts[..|parts| - 1]);
      DropSuffix("parent=" + parent, x + Piece(last), "|");
      assert "" + ("parent=" + parent) == "parent=" + parent;
      LastPiece("", "parent=" + parent, x, Piece(last));
    }
  }

  lemma SameRoot(parent: string, a: seq<TemplatePart>, other: string, b: seq<TemplatePart>)
    requires '|' !in parent && '|' !in other && PlainParts(a) && PlainParts(b)
    requires KeyText(parent, a) == KeyText(other, b) && (a == [] || b == [])
    ensures parent == other && a == b
  {
    if b != [] {
      RootKeyDiffers(parent, other, b);
    } else if a != [] {
      RootKeyDiffers(other, parent, a);
    } else {
      DropSuffix("parent=" + parent, "parent=" + other, "|");
      DropPrefix(parent, other, "parent=");
    }
  }

  lemma {:induction false} KeyInjective(parent: string, a: seq<TemplatePart>, other: string, b: seq<TemplatePart>)
    requires '|' !in parent && '|' !in other && PlainParts(a) && PlainParts(b)
    requires KeyText(parent, a) == KeyText(other, b)
    ensures parent == other && a == b
    decreases |a|
  {
    if a == [] || b == [] {
      SameRoot(parent, a, other, b);
    } else {
      SameLastPart(parent, a, other, b);
      PlainFront(a);
      PlainFront(b);
      KeyInjective(parent, a[..|a| - 1], other, b[..|b| - 1]);
      FrontAndLast(a, b);
    }
  }

  lemma FrontAndLast(a: seq<TemplatePart>, b: seq<TemplatePart>)
    requires a != [] && b != [] && a[..|a| - 1] == b[..|b| - 1] && a[|a| - 1] == b[|b| - 1]
    ensures a == b
  {
    assert a == a[..|a| - 1] + [a[|a| - 1]] && b == b[..|b| - 1] + [b[|b| - 1]];
  }

  /** The key names the parent and every part: different templates never share a key. */
  lemma KeyIff(parent: string, a: seq<TemplatePart>, other: string, b: seq<TemplatePart>)
    requires '|' !in parent && '|' !in other && PlainParts(a) && PlainParts(b)
    ensures KeyText(parent, a) == KeyText(other, b) <==> parent == other && a == b
  {
    if KeyText(parent, a) == KeyText(other, b) {
      KeyInjective(parent, a, other, b);
    }
  }

  lemma SameLastPart(parent: string, a: seq<TemplatePart>, other: string, b: seq<TemplatePart>)
    requires a != [] && b != [] && PlainParts(a) && PlainParts(b) && KeyText(parent, a) == KeyText(other, b)
    ensures KeyText(parent, a[..|a| - 1]) == KeyText(other, b[..|b| - 1]) && a[|a| - 1] == b[|b| - 1]
  {
    var x, p, y, q := KeyText(parent, a[..|a| - 1]), a[|a| - 1], KeyText(other, b[..|b| - 1]), b[|b| - 1];
    KeyOfMore(parent, a);
    KeyOfMore(other, b);
    PlainFront(a);
    PlainFront(b);
    PieceHasNoBar(p);
    PieceHasNoBar(q);
    DropSuffix(x + Piece(p), y + Piece(q), "|");
    LastPiece(x, Piece(p), y, Piece(q));
    SamePiece(p, q);
  }
}
