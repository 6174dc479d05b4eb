/** The decimal conversions of `printf` that the logger uses to build file
    names and timestamps: `%d` and the zero-padded `%02d` / `%04d`, for
    non-negative numbers. */
module Format {

  predicate IsDigit(ch: char)
  {
    '0' <= ch <= '9'
  }

  predicate AllDigits(s: string)
  {
    forall i :: 0 <= i < |s| ==> IsDigit(s[i])
  }

  function DigitChar(d: nat): (ch: char)
    requires d < 10
    ensures IsDigit(ch)
  {
    ('0' as int + d) as char
  }

  function DigitValue(ch: char): (d: nat)
    requires IsDigit(ch)
    ensures d < 10
  {
    ch as int - '0' as int
  }

  /** The number a string of decimal digits denotes (leading zeros allowed). */
  function Value(s: string): nat
    requires AllDigits(s)
  {
    if s == [] then 0 else Value(s[..|s| - 1]) * 10 + DigitValue(s[|s| - 1])
  }

  /** `%d` of `n`. */
  function Decimal(n: nat): string
    decreases n
  {
    if n < 10 then [DigitChar(n)] else Decimal(n / 10) + [DigitChar(n % 10)]
  }

  /** `%d` gives at least one digit, only digits, and a leading zero only
      for 0 itself. */
  lemma {:induction false} DecimalDigits(n: nat)
    ensures 1 <= |Decimal(n)| && AllDigits(Decimal(n))
    ensures |Decimal(n)| > 1 ==> Decimal(n)[0] != '0'
    decreases n
  {
    if n >= 10 {
      DecimalDigits(n / 10);
      var s, d := Decimal(n), Decimal(n / 10);
      assert s == d + [DigitChar(n % 10)];
      assert s[0] == d[0];
      if |d| == 1 {
        assert d == [DigitChar(n / 10)];
      }
    }
  }

  /** Reading back what `%d` printed gives the number. */
  lemma {:induction false} DecimalRoundTrip(n: nat)
    ensures AllDigits(Decimal(n)) && Value(Decimal(n)) == n
    decreases n
  {
    DecimalDigits(n);
    if n >= 10 {
      var s := Decimal(n);
      assert s[..|s| - 1] == Decimal(n / 10);
      DecimalRoundTrip(n / 10);
    }
  }

  /** Distinct numbers print differently. */
  lemma DecimalInjective(a: nat, b: nat)
    requires Decimal(a) == Decimal(b)
    ensures a == b
  {
    DecimalRoundTrip(a);
    DecimalRoundTrip(b);
  }

  function Zeros(k: nat): (s: string)
    ensures |s| == k && AllDigits(s)
  {
    seq(k, _ => '0')
  }

  /** `%0<width>d` of `n`: `Decimal(n)` with zeros in front up to `width`
      characters; a longer number is printed in full. */
  function ZeroPadded(n: nat, width: nat): string
  {
    var d := Decimal(n);
    (if |d| < width then Zeros(width - |d|) else []) + d
  }

  /** `%0<width>d` gives only digits, `width` of them or the whole number
      when it is longer, ending in the digits of `%d`. */
  lemma ZeroPaddedShape(n: nat, width: nat)
    ensures var s := ZeroPadded(n, width);
      AllDigits(s) && |s| == (if |Decimal(n)| < width then width else |Decimal(n)|) &&
      s[|s| - |Decimal(n)|..] == Decimal(n)
  {
    DecimalDigits(n);
  }

  /** Leading zeros do not change the value of a digit string. */
  lemma {:induction false} LeadingZerosValue(k: nat, s: string)
    requires AllDigits(s)
    ensures AllDigits(Zeros(k) + s) && Value(Zeros(k) + s) == Value(s)
    decreases |s|
  {
    var z := Zeros(k);
    if s == [] {
      assert z + s == z;
      ZerosValue(k);
    } else {
      var t := z + s;
      assert t[..|t| - 1] == z + s[..|s| - 1];
      LeadingZerosValue(k, s[..|s| - 1]);
    }
  }

  lemma {:induction false} ZerosValue(k: nat)
    ensures Value(Zeros(k)) == 0
    decreases k
  {
    if k > 0 {
      assert Zeros(k)[..k - 1] == Zeros(k - 1);
      ZerosValue(k - 1);
    }
  }

  /** Reading back a zero-padded number gives the number. */
  lemma ZeroPaddedRoundTrip(n: nat, width: nat)
    ensures AllDigits(ZeroPadded(n, width)) && Value(ZeroPadded(n, width)) == n
  {
    ZeroPaddedShape(n, width);
    var d := Decimal(n);
    DecimalRoundTrip(n);
    if |d| < width {
      LeadingZerosValue(width - |d|, d);
    } else {
      assert ZeroPadded(n, width) == d;
    }
  }
}
