/**
 * Decimal numerals: `str(n)` for a non-negative integer, the zero-padded
 * fields `%Y`, `%m`, `%d` of `strftime`, and reading a numeral back.
 */
module Numerals {

  predicate IsDigit(c: char) {
    '0' <= c <= '9'
  }

  predicate AllDigits(s: string) {
    forall i :: 0 <= i < |s| ==> IsDigit(s[i])
  }

  function DigitChar(k: nat): (c: char)
    requires k < 10
    ensures IsDigit(c) && DigitValue(c) == k
  {
    ('0' as int + k) as char
  }

  function DigitValue(c: char): nat
    requires IsDigit(c)
  {
    c as int - '0' as int
  }

  function Pow10(w: nat): (p: nat)
    ensures p >= 1
  {
    if w == 0 then 1 else 10 * Pow10(w - 1)
  }

  /** Python's `str(n)` for `n >= 0`: no sign, no leading zeros. */
  function Decimal(n: nat): (s: string)
    ensures |s| >= 1 && AllDigits(s)
  {
    if n < 10 then [DigitChar(n)] else Decimal(n / 10) + [DigitChar(n % 10)]
  }

  /** The numeral `s` at least `w` characters wide, filled with leading zeros. */
  function Pad(s: string, w: nat): (r: string)
    ensures |r| == if |s| < w then w else |s|
    ensures AllDigits(s) ==> AllDigits(r)
  {
    (if |s| < w then seq(w - |s|, _ => '0') else []) + s
  }

  /** `strftime`'s zero-padded numeric field of width `w` (`%Y` is 4, `%m` and `%d` are 2). */
  function Digits(n: nat, w: nat): (s: string)
    ensures |s| >= 1 && AllDigits(s)
  {
    Pad(Decimal(n), w)
  }

  /** The value of a string of decimal digits (leading zeros allowed). */
  function ParseDecimal(s: string): nat
    requires AllDigits(s)
  {
    if s == [] then 0 else 10 * ParseDecimal(s[..|s| - 1]) + DigitValue(s[|s| - 1])
  }

  lemma {:induction false} DecimalRoundTrip(n: nat)
    ensures ParseDecimal(Decimal(n)) == n
  {
    if n >= 10 {
      var s := Decimal(n);
      assert s[..|s| - 1] == Decimal(n / 10);
      DecimalRoundTrip(n / 10);
    }
  }

  lemma {:induction false} ZerosAreZero(k: nat)
    ensures AllDigits(seq(k, _ => '0')) && ParseDecimal(seq(k, _ => '0')) == 0
  {
    if k > 0 {
      assert seq(k, _ => '0')[..k - 1] == seq(k - 1, _ => '0');
      ZerosAreZero(k - 1);
    }
  }

  lemma {:induction false} LeadingZerosIgnored(z: string, s: string)
    requires AllDigits(z) && ParseDecimal(z) == 0 && AllDigits(s)
    ensures AllDigits(z + s) && ParseDecimal(z + s) == ParseDecimal(s)
  {
    if s != [] {
      var s' := s[..|s| - 1];
      assert (z + s)[..|z + s| - 1] == z + s';
      LeadingZerosIgnored(z, s');
    } else {
      assert z + s == z;
    }
  }

  /** Reading a zero-padded field back gives the number that was rendered. */
  lemma DigitsRoundTrip(n: nat, w: nat)
    ensures ParseDecimal(Digits(n, w)) == n
  {
    var d := Decimal(n);
    DecimalRoundTrip(n);
    if |d| < w {
      ZerosAreZero(w - |d|);
      LeadingZerosIgnored(seq(w - |d|, _ => '0'), d);
    } else {
      assert Digits(n, w) == d;
    }
  }

  lemma {:induction false} DecimalWidth(n: nat, w: nat)
    requires w >= 1 && n < Pow10(w)
    ensures |Decimal(n)| <= w
  {
    if n >= 10 {
      DecimalWidth(n / 10, w - 1);
    }
  }

  /** A number below 10^w renders as exactly `w` characters. */
  lemma DigitsWidth(n: nat, w: nat)
    requires w >= 1 && n < Pow10(w)
    ensures |Digits(n, w)| == w
  {
    DecimalWidth(n, w);
  }

  /** Distinct numbers render as distinct fields of the same width. */
  lemma DigitsInjective(n: nat, m: nat, w: nat)
    requires Digits(n, w) == Digits(m, w)
    ensures n == m
  {
    DigitsRoundTrip(n, w);
    DigitsRoundTrip(m, w);
  }
}
