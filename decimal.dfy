/**
 * Decimal text for integers: Python's `str(n)` for an `int`, and `int(s)`
 * for a string, restricted to an optional sign followed by ASCII digits.
 */
module Decimal {
  import opened Wrappers

  predicate IsDigit(c: char) {
    '0' <= c <= '9'
  }

  predicate AllDigits(s: string) {
    forall i :: 0 <= i < |s| ==> IsDigit(s[i])
  }

  function DigitValue(c: char): (d: nat)
    requires IsDigit(c)
    ensures d < 10
  {
    c as int - '0' as int
  }

  function DigitChar(d: nat): (c: char)
    requires d < 10
    ensures IsDigit(c) && DigitValue(c) == d
  {
    ('0' as int + d) as char
  }

  /** The number a non-empty run of decimal digits denotes (leading zeros allowed, as `int("007")`). */
  function DigitsValue(s: string): nat
    requires AllDigits(s)
    decreases |s|
  {
    if |s| == 0 then 0 else DigitsValue(s[..|s| - 1]) * 10 + DigitValue(s[|s| - 1])
  }

  /** Canonical decimal digits of a natural number: no leading zero except for 0 itself. */
  function NatToString(n: nat): (s: string)
    ensures |s| > 0 && AllDigits(s)
    ensures s[0] == '0' ==> n == 0 && s == "0"
    decreases n
  {
    if n < 10 then [DigitChar(n)] else NatToString(n / 10) + [DigitChar(n % 10)]
  }

  /** Python's `str(n)` for an integer. */
  function IntToString(n: int): (s: string)
    ensures |s| > 0
    ensures (s[0] == '-') == (n < 0)
    ensures var d := if n < 0 then s[1..] else s;
      |d| > 0 && AllDigits(d) && (d[0] == '0' ==> n == 0 && d == "0")
  {
    if n < 0 then "-" + NatToString(-n) else NatToString(n)
  }

  /** An optional `+` or `-` followed by one or more ASCII digits. */
  predicate IsDecimalLiteral(s: string) {
    var start := if |s| > 0 && (s[0] == '+' || s[0] == '-') then 1 else 0;
    start < |s| && AllDigits(s[start..])
  }

  /** Python's `int(s)` on plain decimal text: `None` is the `ValueError` it raises. */
  function ParseInt(s: string): (r: Option<int>)
    ensures r.Some? <==> IsDecimalLiteral(s)
  {
    if |s| > 0 && (s[0] == '-' || s[0] == '+') then
      var digits := s[1..];
      if |digits| > 0 && AllDigits(digits) then
        var magnitude: int := DigitsValue(digits);
        Some(if s[0] == '-' then -magnitude else magnitude)
      else None
    else if |s| > 0 && AllDigits(s) then Some(DigitsValue(s))
    else None
  }

  lemma {:induction false} NatToStringValue(n: nat)
    ensures DigitsValue(NatToString(n)) == n
    decreases n
  {
    var s := NatToString(n);
    if n >= 10 {
      NatToStringValue(n / 10);
      assert s[..|s| - 1] == NatToString(n / 10);
    }
  }

  /** `int(str(n)) == n` for every integer. */
  lemma ParseIntToString(n: int)
    ensures ParseInt(IntToString(n)) == Some(n)
  {
    if n < 0 {
      NatToStringValue(-n);
      assert IntToString(n)[1..] == NatToString(-n);
    } else {
      NatToStringValue(n);
    }
  }

  /** A string holding any character that is neither a digit nor a leading sign does not parse. */
  lemma ParseIntRejectsNonDigit(s: string, i: nat)
    requires i < |s| && !IsDigit(s[i])
    requires i > 0 || (s[0] != '-' && s[0] != '+')
    ensures ParseInt(s) == None
  {
  }

  /** Signs, leading zeros and negative zero are accepted; empty text and a bare sign are not. */
  lemma ParseIntExamples()
    ensures ParseInt("+5") == Some(5)
    ensures ParseInt("007") == Some(7)
    ensures ParseInt("-0") == Some(0)
    ensures ParseInt("-12") == Some(-12)
    ensures ParseInt("") == None && ParseInt("+") == None && ParseInt("-") == None
    ensures ParseInt("1a") == None && ParseInt("--1") == None
  {
    assert "+5"[1..] == "5";
    assert "007"[..2] == "00" && "00"[..1] == "0";
    assert "-0"[1..] == "0";
    assert "-12"[1..] == "12" && "12"[..1] == "1";
    assert !IsDigit("1a"[1]);
    assert !IsDigit("--1"[1..][0]);
  }
}
