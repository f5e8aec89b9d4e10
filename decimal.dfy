/** Decimal rendering of naturals (`str(n)`), Python's `str.zfill`, and the
    value of a digit string, used by every zero-padded identifier. */
module Decimal {

  predicate IsDigit(c: char) { '0' <= c <= '9' }

  predicate AllDigits(s: string) { forall i :: 0 <= i < |s| ==> IsDigit(s[i]) }

  function DigitChar(d: nat): (c: char)
    requires d < 10
    ensures IsDigit(c)
  {
    ('0' as int + d) as char
  }

  function DigitValue(c: char): (d: nat)
    requires IsDigit(c)
    ensures d < 10
  {
    c as int - '0' as int
  }

  function Pow10(k: nat): (p: nat)
    ensures p >= 1
  {
    if k == 0 then 1 else 10 * Pow10(k - 1)
  }

  /** `str(n)` for a natural number: no sign, no leading zero. */
  function Dec(n: nat): (s: string)
    ensures |s| >= 1 && AllDigits(s)
  {
    if n < 10 then [DigitChar(n)] else Dec(n / 10) + [DigitChar(n % 10)]
  }

  /** The number a digit string denotes; leading zeros do not count. */
  function Value(s: string): nat
    requires AllDigits(s)
  {
    if s == [] then 0 else 10 * Value(s[..|s| - 1]) + DigitValue(s[|s| - 1])
  }

  function Zeros(k: nat): (z: string)
    ensures |z| == k && AllDigits(z)
    ensures forall i :: 0 <= i < k ==> z[i] == '0'
  {
    seq(k, i => '0')
  }

  /** Python's `s.zfill(width)`: left-pad with '0' to `width` characters,
      keeping a leading sign in front of the zeros. */
  function ZFill(s: string, width: nat): (z: string)
    ensures |z| == if |s| >= width then |s| else width
  {
    if |s| >= width then s
    else if s != [] && (s[0] == '+' || s[0] == '-') then [s[0]] + Zeros(width - |s|) + s[1..]
    else Zeros(width - |s|) + s
  }

  /** The zero-padded decimal rendering used for identifiers:
      `str(n).zfill(width)`. */
  function Padded(n: nat, width: nat): string
  {
    ZFill(Dec(n), width)
  }

  lemma {:induction false} ValueOfDec(n: nat)
    ensures Value(Dec(n)) == n
  {
    var s := Dec(n);
    if n >= 10 {
      ValueOfDec(n / 10);
      assert s[..|s| - 1] == Dec(n / 10);
    }
  }

  lemma {:induction false} ValueIgnoresZeros(k: nat, s: string)
    requires AllDigits(s)
    ensures AllDigits(Zeros(k) + s) && Value(Zeros(k) + s) == Value(s)
  {
    var t := Zeros(k) + s;
    if s == [] {
      assert t == Zeros(k);
      if k > 0 {
        assert t[..|t| - 1] == Zeros(k - 1) + [];
        ValueIgnoresZeros(k - 1, []);
      }
    } else {
      assert t[..|t| - 1] == Zeros(k) + s[..|s| - 1];
      ValueIgnoresZeros(k, s[..|s| - 1]);
    }
  }

  /** The number survives zero-padding: `int(str(n).zfill(w)) == n`. */
  lemma PaddedValue(n: nat, width: nat)
    ensures AllDigits(Padded(n, width)) && Value(Padded(n, width)) == n
  {
    ValueOfDec(n);
    var s := Dec(n);
    if |s| < width {
      ValueIgnoresZeros(width - |s|, s);
    }
  }

  /** Distinct numbers give distinct padded identifiers, whatever the width. */
  lemma PaddedInjective(a: nat, b: nat, width: nat)
    requires Padded(a, width) == Padded(b, width)
    ensures a == b
  {
    PaddedValue(a, width);
    PaddedValue(b, width);
  }

  lemma {:induction false} DecLength(n: nat, k: nat)
    requires 1 <= k
    requires Pow10(k - 1) <= n < Pow10(k) || (k == 1 && n < 10)
    ensures |Dec(n)| == k
  {
    if k > 1 {
      DecLength(n / 10, k - 1);
    }
  }

  /** `str(n).zfill(w)` has exactly `w` characters when `n < 10^w`. */
  lemma {:induction false} PaddedLength(n: nat, width: nat)
    requires 1 <= width && n < Pow10(width)
    ensures |Padded(n, width)| == width
  {
    if n < 10 {
      DecLength(n, 1);
    } else {
      var k :| 1 < k <= width && Pow10(k - 1) <= n < Pow10(k) by {
        FindLength(n, width);
      }
      DecLength(n, k);
    }
  }

  lemma {:induction false} FindLength(n: nat, width: nat)
    requires 10 <= n < Pow10(width)
    ensures exists k :: 1 < k <= width && Pow10(k - 1) <= n < Pow10(k)
  {
    if n >= Pow10(width - 1) {
      assert width > 1;
    } else {
      FindLength(n, width - 1);
    }
  }
}
