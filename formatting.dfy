/**
 * Python's `d` format specification for non-negative integers: decimal digits,
 * left-padded with '0' to a minimum width (`{n:03d}`, `{n:02d}`), and the
 * decimal reading that inverts it.
 */
module Formatting {

  predicate IsDigit(c: char) { '0' <= c <= '9' }

  predicate AllDigits(s: string) { forall i :: 0 <= i < |s| ==> IsDigit(s[i]) }

  function DigitChar(d: nat): (c: char)
    requires d < 10
    ensures IsDigit(c)
  {
    ('0' as int + d) as char
  }

  function DigitValue(c: char): (d: nat)
    requires IsDigit(c)
    ensures d < 10 && DigitChar(d) == c
  {
    c as int - '0' as int
  }

  /** The decimal digits of n, most significant first, with no leading zero. */
  function Digits(n: nat): (s: string)
    ensures 1 <= |s| && AllDigits(s)
    ensures |s| == 1 <==> n < 10
    decreases n
  {
    if n < 10 then [DigitChar(n)] else Digits(n / 10) + [DigitChar(n % 10)]
  }

  function Zeros(k: nat): (s: string)
    ensures |s| == k && forall i :: 0 <= i < k ==> s[i] == '0'
  {
    if k == 0 then [] else Zeros(k - 1) + ['0']
  }

  /** `format(n, '0<width>d')`: the digits of n, padded on the left with zeros. */
  function ZeroPad(n: nat, width: nat): (s: string)
    ensures AllDigits(s)
    ensures |s| == if width <= |Digits(n)| then |Digits(n)| else width
  {
    var digits := Digits(n);
    if width <= |digits| then digits else Zeros(width - |digits|) + digits
  }

  /** Reads a string of decimal digits back as a number (`int(s)`). */
  function DecimalValue(s: string): nat
    requires AllDigits(s)
  {
    if s == [] then 0 else DecimalValue(s[..|s| - 1]) * 10 + DigitValue(s[|s| - 1])
  }

  lemma DigitsLength(n: nat)
    ensures n < 100 ==> |Digits(n)| <= 2
    ensures n < 1000 ==> |Digits(n)| <= 3
    ensures 1000 <= n ==> 4 <= |Digits(n)|
  {
  }

  /** Digits(n) starts with '0' only for n == 0. */
  lemma {:induction false} DigitsNoLeadingZero(n: nat)
    ensures Digits(n)[0] == '0' <==> n == 0
    decreases n
  {
    if 10 <= n {
      DigitsNoLeadingZero(n / 10);
      assert Digits(n)[0] == Digits(n / 10)[0];
    }
  }

  lemma {:induction false} DecimalOfDigits(n: nat)
    ensures DecimalValue(Digits(n)) == n
    decreases n
  {
    if 10 <= n {
      var s := Digits(n);
      assert s[..|s| - 1] == Digits(n / 10);
      assert s[|s| - 1] == DigitChar(n % 10);
      DecimalOfDigits(n / 10);
    } else {
      assert Digits(n)[..0] == [];
    }
  }

  lemma {:induction false} DecimalOfZeros(k: nat)
    ensures DecimalValue(Zeros(k)) == 0
  {
    if k > 0 {
      assert Zeros(k)[..k - 1] == Zeros(k - 1);
      DecimalOfZeros(k - 1);
    }
  }

  lemma {:induction false} DecimalIgnoresLeadingZeros(k: nat, s: string)
    requires AllDigits(s)
    ensures AllDigits(Zeros(k) + s)
    ensures DecimalValue(Zeros(k) + s) == DecimalValue(s)
    decreases |s|
  {
    var t := Zeros(k) + s;
    assert AllDigits(t) by {
      forall i | 0 <= i < |t| ensures IsDigit(t[i]) {
        if i >= k { assert t[i] == s[i - k]; }
      }
    }
    if s == [] {
      assert t == Zeros(k);
      DecimalOfZeros(k);
    } else {
      assert t[..|t| - 1] == Zeros(k) + s[..|s| - 1];
      assert t[|t| - 1] == s[|s| - 1];
      DecimalIgnoresLeadingZeros(k, s[..|s| - 1]);
    }
  }

  /** Round trip: reading a zero-padded rendering gives the number back. */
  lemma DecimalOfZeroPad(n: nat, width: nat)
    ensures DecimalValue(ZeroPad(n, width)) == n
  {
    DecimalOfDigits(n);
    if width > |Digits(n)| {
      DecimalIgnoresLeadingZeros(width - |Digits(n)|, Digits(n));
    }
  }

  /** Zero-padding is injective: different numbers never render alike. */
  lemma ZeroPadInjective(a: nat, b: nat, width: nat)
    requires ZeroPad(a, width) == ZeroPad(b, width)
    ensures a == b
  {
    DecimalOfZeroPad(a, width);
    DecimalOfZeroPad(b, width);
  }

  /** Below 10^width the rendering has exactly `width` characters. */
  lemma ZeroPadWidth(n: nat, width: nat)
    requires width == 2 || width == 3
    requires width == 2 ==> n < 100
    requires width == 3 ==> n < 1000
    ensures |ZeroPad(n, width)| == width
  {
    DigitsLength(n);
  }
}
