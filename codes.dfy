/** Record codes such as "QT000042" and "SM000007": a prefix followed by a
    decimal number left-padded with zeros to six digits
    (`prefix + String(n).padStart(6, '0')`). */
module Codes {

  predicate IsDigit(c: char)
  {
    '0' <= c <= '9'
  }

  predicate AllDigits(s: string)
  {
    forall i :: 0 <= i < |s| ==> IsDigit(s[i])
  }

  function Digit(d: nat): (c: char)
    requires d < 10
    ensures IsDigit(c)
  {
    ('0' as int + d) as char
  }

  function DigitValue(c: char): (d: nat)
    requires IsDigit(c)
    ensures d < 10
  {
    c as int - '0' as int
  }

  /** `String(n)` for a non-negative integer: its decimal digits, most
      significant first, without leading zeros. */
  function Decimal(n: nat): (s: string)
    ensures |s| >= 1
    ensures AllDigits(s)
    ensures |s| > 1 ==> s[0] != '0'
  {
    if n < 10 then [Digit(n)] else Decimal(n / 10) + [Digit(n % 10)]
  }

  /** The number a string of decimal digits denotes. */
  function ValueOf(s: string): nat
    requires AllDigits(s)
  {
    if s == [] then 0 else ValueOf(s[..|s| - 1]) * 10 + DigitValue(s[|s| - 1])
  }

  /** `s.padStart(width, fill)`. */
  function PadStart(s: string, width: nat, fill: char): (r: string)
    ensures |r| == if |s| >= width then |s| else width
    ensures r[|r| - |s|..] == s
    ensures forall i :: 0 <= i < |r| - |s| ==> r[i] == fill
  {
    if |s| >= width then s else seq(width - |s|, _ => fill) + s
  }

  function RecordCode(prefix: string, n: nat): string
  {
    prefix + PadStart(Decimal(n), 6, '0')
  }

  lemma {:induction false} DecimalRoundTrip(n: nat)
    ensures ValueOf(Decimal(n)) == n
  {
    var s := Decimal(n);
    if n >= 10 {
      DecimalRoundTrip(n / 10);
      assert s[..|s| - 1] == Decimal(n / 10);
    }
  }

  lemma {:induction false} ZerosValue(z: string)
    requires forall i :: 0 <= i < |z| ==> z[i] == '0'
    ensures AllDigits(z) && ValueOf(z) == 0
  {
    if z != [] {
      ZerosValue(z[..|z| - 1]);
    }
  }

  /** Leading zeros do not change the value of a digit string. */
  lemma {:induction false} LeadingZeros(z: string, s: string)
    requires forall i :: 0 <= i < |z| ==> z[i] == '0'
    requires AllDigits(s)
    ensures AllDigits(z + s) && ValueOf(z + s) == ValueOf(s)
  {
    if s == [] {
      assert z + s == z;
      ZerosValue(z);
    } else {
      LeadingZeros(z, s[..|s| - 1]);
      assert (z + s)[..|z + s| - 1] == z + s[..|s| - 1];
    }
  }

  /** A code starts with its prefix, and the digits after the prefix give back
      the number it was made from. */
  lemma RecordCodeRoundTrip(prefix: string, n: nat)
    ensures var c := RecordCode(prefix, n);
            && |c| >= |prefix|
            && c[..|prefix|] == prefix
            && AllDigits(c[|prefix|..])
            && ValueOf(c[|prefix|..]) == n
  {
    var d := Decimal(n);
    var p := PadStart(d, 6, '0');
    var c := RecordCode(prefix, n);
    assert c[|prefix|..] == p;
    var z := p[..|p| - |d|];
    assert p == z + d;
    LeadingZeros(z, d);
    DecimalRoundTrip(n);
  }

  function Pow10(k: nat): nat
  {
    if k == 0 then 1 else 10 * Pow10(k - 1)
  }

  /** A number below 10^k has at most k decimal digits. */
  lemma {:induction false} DecimalLength(n: nat, k: nat)
    requires 1 <= k && n < Pow10(k)
    ensures |Decimal(n)| <= k
  {
    if n >= 10 && k >= 2 {
      assert n / 10 < Pow10(k - 1);
      DecimalLength(n / 10, k - 1);
    }
  }

  lemma RecordCodeLength(prefix: string, n: nat)
    requires n < 1000000
    ensures |RecordCode(prefix, n)| == |prefix| + 6
  {
    assert Pow10(6) == 1000000;
    DecimalLength(n, 6);
  }

  /** Different numbers give different codes under the same prefix. */
  lemma RecordCodeInjective(prefix: string, n: nat, m: nat)
    requires RecordCode(prefix, n) == RecordCode(prefix, m)
    ensures n == m
  {
    RecordCodeRoundTrip(prefix, n);
    RecordCodeRoundTrip(prefix, m);
  }
}
