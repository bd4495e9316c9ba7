/** Decimal rendering of integers (JavaScript's `String(n)`), left padding
    (`padStart(2, '0')`) and the decimal value of a run of digits. */
module Text {

  predicate IsDigit(c: char) {
    '0' <= c <= '9'
  }

  predicate AllDigits(s: string) {
    forall i :: 0 <= i < |s| ==> IsDigit(s[i])
  }

  function DigitChar(d: nat): (c: char)
    requires d < 10
    ensures IsDigit(c) && c as int - '0' as int == d
  {
    ('0' as int + d) as char
  }

  /** The value of a string of decimal digits, most significant first. */
  function DigitsValue(s: string): (n: nat)
    requires AllDigits(s)
  {
    if s == [] then 0
    else DigitsValue(s[..|s| - 1]) * 10 + (s[|s| - 1] as int - '0' as int)
  }

  /** The shortest decimal rendering of a natural number. */
  function NatToString(n: nat): (s: string)
    ensures AllDigits(s) && |s| >= 1
    ensures DigitsValue(s) == n
    ensures n >= 10 ==> s[0] != '0'
  {
    if n < 10 then [DigitChar(n)]
    else
      var s := NatToString(n / 10) + [DigitChar(n % 10)];
      assert s[..|s| - 1] == NatToString(n / 10);
      s
  }

  /** `String(n)` for an integer: a minus sign before negative numbers. */
  function IntToString(n: int): string {
    if n < 0 then "-" + NatToString(-n) else NatToString(n)
  }

  /** The number of digits `NatToString` produces. */
  lemma {:induction false} NatToStringLength(n: nat)
    ensures n < 10 ==> |NatToString(n)| == 1
    ensures 10 <= n < 100 ==> |NatToString(n)| == 2
    ensures 100 <= n < 1000 ==> |NatToString(n)| == 3
    ensures 1000 <= n < 10000 ==> |NatToString(n)| == 4
  {
    if n >= 10 {
      NatToStringLength(n / 10);
    }
  }

  /** The numbers 10..19 render as "1" followed by one digit. */
  lemma TeenDigits(n: nat)
    requires 10 <= n < 20
    ensures |NatToString(n)| == 2 && NatToString(n)[0] == '1'
  {
    assert NatToString(n) == NatToString(n / 10) + [DigitChar(n % 10)];
    assert n / 10 == 1;
  }

  /** `padStart(2, '0')`: prefixes zeros up to length 2; longer strings are unchanged. */
  function PadStart2(s: string): (r: string)
    ensures |s| >= 2 ==> r == s
    ensures |s| < 2 ==> |r| == 2 && r[2 - |s|..] == s && forall i :: 0 <= i < 2 - |s| ==> r[i] == '0'
  {
    if |s| >= 2 then s
    else if |s| == 1 then "0" + s
    else "00"
  }

  /** Prefixing zeros keeps the decimal value. */
  lemma {:induction false} LeadingZeroValue(s: string)
    requires AllDigits(s)
    ensures AllDigits("0" + s) && DigitsValue("0" + s) == DigitsValue(s)
    decreases |s|
  {
    if s != [] {
      var t := "0" + s;
      assert t[..|t| - 1] == "0" + s[..|s| - 1];
      LeadingZeroValue(s[..|s| - 1]);
    }
  }

  /** A number below 100 renders, padded, as exactly two digits carrying its value. */
  lemma TwoDigitField(n: nat)
    requires n < 100
    ensures var f := PadStart2(IntToString(n));
      |f| == 2 && AllDigits(f) && DigitsValue(f) == n
  {
    NatToStringLength(n);
    if n < 10 {
      LeadingZeroValue(NatToString(n));
    }
  }

  /** Distinct numbers below 100 render as distinct two-digit fields. */
  lemma TwoDigitFieldInjective(m: nat, n: nat)
    requires m < 100 && n < 100 && m != n
    ensures PadStart2(IntToString(m)) != PadStart2(IntToString(n))
  {
    TwoDigitField(m);
    TwoDigitField(n);
  }
}
