/**
 Decimal rendering of integers (JavaScript template-string interpolation of an
 integer) and the prefix parsing that `parseInt` performs on such text.
 */
module Decimal {
  import opened Common

  predicate IsDigit(c: char) {
    '0' <= c <= '9'
  }

  predicate AllDigits(s: string) {
    forall i :: 0 <= i < |s| ==> IsDigit(s[i])
  }

  function DigitChar(d: nat): (c: char)
    requires d < 10
    ensures IsDigit(c)
  {
    (('0' as int) + d) as char
  }

  function DigitValue(c: char): (d: nat)
    requires IsDigit(c)
    ensures d < 10 && DigitChar(d) == c
  {
    (c as int) - ('0' as int)
  }

  /** Decimal digits of `n`, most significant first, with no leading zero. */
  function NatToString(n: nat): (s: string)
    ensures |s| > 0 && AllDigits(s)
    ensures |s| > 1 ==> s[0] != '0'
    decreases n
  {
    if n < 10 then [DigitChar(n)] else NatToString(n / 10) + [DigitChar(n % 10)]
  }

  /** `${i}` for an integer `i`. */
  function IntToString(i: int): (s: string)
    ensures |s| > 0
    ensures i >= 0 ==> AllDigits(s)
    ensures i < 0 ==> s[0] == '-' && AllDigits(s[1..])
  {
    if i < 0 then "-" + NatToString(-i) else NatToString(i)
  }

  /** Value of a string of decimal digits. */
  function DigitsValue(s: string): nat
    requires AllDigits(s)
  {
    if |s| == 0 then 0 else DigitsValue(s[..|s| - 1]) * 10 + DigitValue(s[|s| - 1])
  }

  /** Longest prefix of `s` made of decimal digits. */
  function LeadingDigits(s: string): (d: string)
    ensures d <= s && AllDigits(d)
    ensures |d| < |s| ==> !IsDigit(s[|d|])
  {
    if |s| == 0 || !IsDigit(s[0]) then "" else [s[0]] + LeadingDigits(s[1..])
  }

  /** `parseInt(s)` on the forms the dashboard feeds it: an optional sign
      followed by digits; `None` is the NaN returned when no digit follows. */
  function ParseIntPrefix(s: string): (r: Option<int>)
  {
    var negative := |s| > 0 && s[0] == '-';
    var rest := if |s| > 0 && (s[0] == '-' || s[0] == '+') then s[1..] else s;
    var d := LeadingDigits(rest);
    if |d| == 0 then None
    else if negative then Some(-(DigitsValue(d) as int))
    else Some(DigitsValue(d))
  }

  lemma {:induction false} DigitsValueOfNatToString(n: nat)
    ensures DigitsValue(NatToString(n)) == n
    decreases n
  {
    var s := NatToString(n);
    if n >= 10 {
      DigitsValueOfNatToString(n / 10);
      assert s[..|s| - 1] == NatToString(n / 10);
    }
  }

  /** The digit prefix of `d + t` is `d` when `t` does not continue the digits. */
  lemma {:induction false} LeadingDigitsOfConcat(d: string, t: string)
    requires AllDigits(d)
    requires |t| == 0 || !IsDigit(t[0])
    ensures LeadingDigits(d + t) == d
    decreases |d|
  {
    if |d| == 0 {
      assert d + t == t;
    } else {
      assert (d + t)[1..] == d[1..] + t;
      LeadingDigitsOfConcat(d[1..], t);
    }
  }

  /** A non-negative integer's digits, followed by a non-digit, parse back. */
  lemma ParseIntOfNonNegative(i: int, t: string)
    requires i >= 0
    requires |t| == 0 || !IsDigit(t[0])
    ensures ParseIntPrefix(IntToString(i) + t) == Some(i)
  {
    var d := NatToString(i);
    assert (d + t)[0] == d[0];
    LeadingDigitsOfConcat(d, t);
    DigitsValueOfNatToString(i);
  }

  /** A negative integer's sign and digits, followed by a non-digit, parse back. */
  lemma ParseIntOfNegative(i: int, t: string)
    requires i < 0
    requires |t| == 0 || !IsDigit(t[0])
    ensures ParseIntPrefix(IntToString(i) + t) == Some(i)
  {
    var n: nat := -i;
    var d := NatToString(n);
    DigitsValueOfNatToString(n);
    assert IntToString(i) == "-" + d;
    var s := IntToString(i) + t;
    assert s[0] == '-' && s[1..] == d + t by {
      assert s == "-" + (d + t);
    }
    assert LeadingDigits(s[1..]) == d by {
      LeadingDigitsOfConcat(d, t);
    }
    ParseIntOfMinus(s);
  }

  /** A leading minus negates the value of the digits after it. */
  lemma ParseIntOfMinus(s: string)
    requires |s| > 0 && s[0] == '-' && |LeadingDigits(s[1..])| > 0
    ensures ParseIntPrefix(s) == Some(-(DigitsValue(LeadingDigits(s[1..])) as int))
  {
  }

  /** Parsing undoes rendering: `parseInt(`${i}` + t) == i` whenever `t`
      does not begin with a digit. */
  lemma ParseIntOfIntToString(i: int, t: string)
    requires |t| == 0 || !IsDigit(t[0])
    ensures ParseIntPrefix(IntToString(i) + t) == Some(i)
  {
    if i < 0 {
      ParseIntOfNegative(i, t);
    } else {
      ParseIntOfNonNegative(i, t);
    }
  }

  /** Distinct integers render to distinct text. */
  lemma IntToStringInjective(i: int, j: int)
    requires IntToString(i) == IntToString(j)
    ensures i == j
  {
    ParseIntOfIntToString(i, "");
    ParseIntOfIntToString(j, "");
    assert IntToString(i) + "" == IntToString(i);
    assert IntToString(j) + "" == IntToString(j);
  }
}
