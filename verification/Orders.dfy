/** Three-way comparison, and the lexicographic order that Rust derives for slices. */
module Orders {

  newtype byte = b: int | 0 <= b < 256

  datatype Ordering = Less | Equal | Greater
  {
    function Reverse(): Ordering {
      match this
      case Less => Greater
      case Equal => Equal
      case Greater => Less
    }
  }

  /** cmp is a total order whose Equal is equality. */
  ghost predicate TotalOrder<T(!new)>(cmp: (T, T) -> Ordering) {
    && (forall x, y :: cmp(x, y) == Equal <==> x == y)
    && (forall x, y :: cmp(x, y) == cmp(y, x).Reverse())
    && (forall x, y, z :: cmp(x, y) == Less && cmp(y, z) == Less ==> cmp(x, z) == Less)
  }

  function CompareByte(x: byte, y: byte): Ordering {
    if x < y then Less else if x == y then Equal else Greater
  }

  function CompareChar(x: char, y: char): Ordering {
    if x < y then Less else if x == y then Equal else Greater
  }

  /** The order of slices: the first difference decides, and a proper prefix comes first. */
  function LexCompare<T>(cmp: (T, T) -> Ordering, a: seq<T>, b: seq<T>): Ordering {
    if a == [] then if b == [] then Equal else Less
    else if b == [] then Greater
    else if cmp(a[0], b[0]) == Equal then LexCompare(cmp, a[1..], b[1..])
    else cmp(a[0], b[0])
  }

  lemma {:induction false} LexEqual<T(!new)>(cmp: (T, T) -> Ordering, a: seq<T>, b: seq<T>)
    requires TotalOrder(cmp)
    ensures LexCompare(cmp, a, b) == Equal <==> a == b
  {
    if a != [] && b != [] {
      LexEqual(cmp, a[1..], b[1..]);
      assert a == [a[0]] + a[1..] && b == [b[0]] + b[1..];
    }
  }

  lemma {:induction false} LexReverse<T(!new)>(cmp: (T, T) -> Ordering, a: seq<T>, b: seq<T>)
    requires TotalOrder(cmp)
    ensures LexCompare(cmp, a, b) == LexCompare(cmp, b, a).Reverse()
  {
    if a != [] && b != [] {
      LexReverse(cmp, a[1..], b[1..]);
    }
  }

  lemma {:induction false} LexTransitive<T(!new)>(cmp: (T, T) -> Ordering, a: seq<T>, b: seq<T>, c: seq<T>)
    requires TotalOrder(cmp)
    requires LexCompare(cmp, a, b) == Less && LexCompare(cmp, b, c) == Less
    ensures LexCompare(cmp, a, c) == Less
  {
    if a != [] && cmp(a[0], b[0]) == Equal && cmp(b[0], c[0]) == Equal {
      LexTransitive(cmp, a[1..], b[1..], c[1..]);
    }
  }

  function CompareBytes(a: seq<byte>, b: seq<byte>): Ordering {
    LexCompare(CompareByte, a, b)
  }

  function CompareStrings(a: string, b: string): Ordering {
    LexCompare(CompareChar, a, b)
  }

  lemma BytesTotal()
    ensures TotalOrder(CompareBytes)
  {
    assert TotalOrder(CompareByte);
    forall a, b ensures (CompareBytes(a, b) == Equal <==> a == b)
                     && CompareBytes(a, b) == CompareBytes(b, a).Reverse() {
      LexEqual(CompareByte, a, b);
      LexReverse(CompareByte, a, b);
    }
    forall a, b, c | CompareBytes(a, b) == Less && CompareBytes(b, c) == Less
      ensures CompareBytes(a, c) == Less
    {
      LexTransitive(CompareByte, a, b, c);
    }
  }

  lemma StringsTotal()
    ensures TotalOrder(CompareStrings)
  {
    assert TotalOrder(CompareChar);
    forall a, b ensures (CompareStrings(a, b) == Equal <==> a == b)
                     && CompareStrings(a, b) == CompareStrings(b, a).Reverse() {
      LexEqual(CompareChar, a, b);
      LexReverse(CompareChar, a, b);
    }
    forall a, b, c | CompareStrings(a, b) == Less && CompareStrings(b, c) == Less
      ensures CompareStrings(a, c) == Less
    {
      LexTransitive(CompareChar, a, b, c);
    }
  }
}
