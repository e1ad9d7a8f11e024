/** Tile paths in terms of the index alone (src/ct_static.rs): three digits for each power of a thousand. */
module TilePaths {
  import opened Basics
  import opened Decimals
  import opened StaticTiles

  function Three(n: nat): string
    requires n < 1000
  {
    [DigitChar(n / 100), DigitChar(n / 10 % 10), DigitChar(n % 10)]
  }

  /** The leading groups, each marked with an x. */
  function Leading(m: nat): string {
    if m == 0 then "" else Leading(m / 1000) + "x" + Three(m % 1000) + "/"
  }

  /** Marked groups of three characters. */
  function Marked(s: string): string {
    if |s| < 3 then "" else "x" + s[..3] + "/" + Marked(s[3..])
  }

  lemma {:induction false} MarkedJoins(s: string, t: string)
    requires |s| % 3 == 0
    ensures Marked(s + t) == Marked(s) + Marked(t)
  {
    if s == "" {
      assert s + t == t;
    } else {
      MarkedJoins(s[3..], t);
      assert (s + t)[..3] == s[..3] && (s + t)[3..] == s[3..] + t;
      Regroup("x" + s[..3] + "/", Marked(s[3..]), Marked(t));
    }
  }

  lemma {:induction false} GroupsOf(s: string, t: string)
    requires |s| % 3 == 0 && |t| == 3
    ensures GroupPath(s + t) == Marked(s) + t
  {
    if s == "" {
      assert s + t == t;
    } else {
      GroupsOf(s[3..], t);
      assert (s + t)[..3] == s[..3] && (s + t)[3..] == s[3..] + t;
      Regroup("x" + s[..3] + "/", Marked(s[3..]), t);
    }
  }

  lemma {:induction false} DigitsOfThousands(n: nat)
    requires n >= 1000
    ensures Digits(n) == Digits(n / 1000) + Three(n % 1000)
  {
    assert n / 10 / 10 == n / 100 && n / 100 / 10 == n / 1000;
    assert n % 1000 / 100 == n / 100 % 10 && n % 1000 / 10 % 10 == n / 10 % 10 && n % 1000 % 10 == n % 10;
    assert Digits(n) == Digits(n / 10) + [DigitChar(n % 10)];
    assert Digits(n / 10) == Digits(n / 100) + [DigitChar(n / 10 % 10)];
    assert Digits(n / 100) == Digits(n / 1000) + [DigitChar(n / 100 % 10)];
  }

  lemma PaddingJoins(digits: string, t: string)
    requires |t| == 3
    ensures Zeros((3 - |digits + t| % 3) % 3) + (digits + t) == Zeros((3 - |digits| % 3) % 3) + digits + t
  {
    assert |digits + t| % 3 == |digits| % 3;
    Regroup(Zeros((3 - |digits| % 3) % 3), digits, t);
  }

  lemma {:induction false} PaddedThousands(n: nat)
    requires n >= 1000
    ensures PaddedIndex(n) == PaddedIndex(n / 1000) + Three(n % 1000)
  {
    DigitsOfThousands(n);
    PaddingJoins(Digits(n / 1000), Three(n % 1000));
  }

  lemma PaddedSmall(n: nat)
    requires n < 1000
    ensures PaddedIndex(n) == Three(n)
  {
    if n >= 10 { assert Digits(n) == Digits(n / 10) + [DigitChar(n % 10)]; }
    if n >= 100 { assert Digits(n / 10) == Digits(n / 100) + [DigitChar(n / 10 % 10)]; }
  }

  lemma OneGroup(front: string, t: string)
    requires |t| == 3
    ensures front + Marked(t) == front + "x" + t + "/"
  {
    assert Marked(t) == "x" + t + "/" + Marked("") == "x" + t + "/";
  }

  lemma {:induction false} MarkedIndex(n: nat)
    requires n > 0
    ensures Marked(PaddedIndex(n)) == Leading(n)
  {
    if n < 1000 {
      PaddedSmall(n);
      OneGroup("", Three(n));
      assert Leading(n / 1000) == "" && Marked(Three(n)) == "" + Marked(Three(n));
    } else {
      MarkedIndex(n / 1000);
      PaddedThousands(n);
      PaddedIndexValue(n / 1000);
      MarkedJoins(PaddedIndex(n / 1000), Three(n % 1000));
      OneGroup(Leading(n / 1000), Three(n % 1000));
    }
  }

  /** The last group is the index modulo a thousand; the ones before it, marked, are the groups of the index over a thousand. */
  lemma PathIsInThousands(index: nat)
    ensures TileIndexPath(index) == Leading(index / 1000) + Three(index % 1000)
  {
    if index < 1000 {
      PaddedSmall(index);
    } else {
      PaddedIndexValue(index / 1000);
      PaddedThousands(index);
      GroupsOf(PaddedIndex(index / 1000), Three(index % 1000));
      MarkedIndex(index / 1000);
    }
  }
}
