/** Decimal numerals as strings. */
module Decimals {

  predicate IsDigit(c: char) { '0' <= c <= '9' }

  predicate Numeral(s: string) {
    s != "" && forall i :: 0 <= i < |s| ==> IsDigit(s[i])
  }

  function DigitChar(d: nat): char
    requires d < 10
  {
    '0' + d as char
  }

  function Digits(n: nat): string {
    if n < 10 then [DigitChar(n)] else Digits(n / 10) + [DigitChar(n % 10)]
  }

  function DigitValue(c: char): nat
    requires IsDigit(c)
  {
    c as int - '0' as int
  }

  function Value(s: string): nat
    requires forall i :: 0 <= i < |s| ==> IsDigit(s[i])
  {
    if s == "" then 0 else 10 * Value(s[..|s| - 1]) + DigitValue(s[|s| - 1])
  }

  function Zeros(k: nat): string { seq(k, _ => '0') }

  lemma {:induction false} DigitsNumeral(n: nat)
    ensures Numeral(Digits(n))
    ensures n > 0 ==> Digits(n)[0] != '0'
  {
    if n >= 10 {
      DigitsNumeral(n / 10);
    }
  }

  lemma {:induction false} ValueOfDigits(n: nat)
    ensures Numeral(Digits(n)) && Value(Digits(n)) == n
  {
    DigitsNumeral(n);
    if n >= 10 {
      ValueOfDigits(n / 10);
      assert Digits(n)[..|Digits(n)| - 1] == Digits(n / 10);
    }
  }

  /** Leading zeros do not change the value. */
  lemma {:induction false} ValueOfPadded(k: nat, s: string)
    requires forall i :: 0 <= i < |s| ==> IsDigit(s[i])
    ensures forall i :: 0 <= i < k + |s| ==> IsDigit((Zeros(k) + s)[i])
    ensures Value(Zeros(k) + s) == Value(s)
  {
    var z := Zeros(k) + s;
    if s != "" {
      ValueOfPadded(k, s[..|s| - 1]);
      assert z[..|z| - 1] == Zeros(k) + s[..|s| - 1];
    } else if k > 0 {
      ValueOfPadded(k - 1, s);
      assert z[..|z| - 1] == Zeros(k - 1) + s;
    }
  }

  /** Rust's `{:0width$}`. */
  function Padded(n: nat, width: nat): string {
    var d := Digits(n);
    if |d| < width then Zeros(width - |d|) + d else d
  }

  lemma PaddedNumeral(n: nat, width: nat)
    ensures Numeral(Padded(n, width)) && Value(Padded(n, width)) == n && |Padded(n, width)| >= width
  {
    ValueOfDigits(n);
    if |Digits(n)| < width {
      ValueOfPadded(width - |Digits(n)|, Digits(n));
    }
  }
}
