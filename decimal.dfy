/** Decimal text of integers, as Python's `'%s' % n` renders any integer n and `'%0.6f' % n`
    renders an integer n of magnitude at most 2^53 (where its conversion to a double is exact),
    together with a reader that recovers the integer from that text. */
module Decimal {
  import opened Wrappers

  predicate IsDigit(c: char) { '0' <= c <= '9' }

  predicate AllDigits(s: string) { forall k :: 0 <= k < |s| ==> IsDigit(s[k]) }

  function DigitChar(d: nat): (c: char)
    requires d < 10
    ensures IsDigit(c) && c as int - '0' as int == d
  {
    (d + '0' as int) as char
  }

  function DigitValue(c: char): nat
    requires IsDigit(c)
  {
    c as int - '0' as int
  }

  /** The digits of n, most significant first, without leading zeros. */
  function NatToString(n: nat): (s: string)
    ensures |s| > 0 && AllDigits(s)
    ensures s[0] == '0' <==> n == 0
    ensures n == 0 ==> s == "0"
  {
    if n < 10 then [DigitChar(n)] else NatToString(n / 10) + [DigitChar(n % 10)]
  }

  /** The number a string of digits denotes. */
  function DigitsValue(s: string): nat
    requires AllDigits(s)
  {
    if s == [] then 0 else DigitsValue(s[..|s| - 1]) * 10 + DigitValue(s[|s| - 1])
  }

  /** `'%s' % i` for an integer i: a '-' for negative numbers, then the digits of |i|. */
  function IntToString(i: int): (s: string)
    ensures |s| > 0 && (s[0] == '-' <==> i < 0)
    ensures forall k :: (if i < 0 then 1 else 0) <= k < |s| ==> IsDigit(s[k])
    ensures |s| > 1 ==> s[if i < 0 then 1 else 0] != '0'
  {
    if i < 0 then "-" + NatToString(-i) else NatToString(i)
  }

  /** Reads an optional '-' followed by one or more digits. */
  function ParseInt(s: string): Option<int>
  {
    if |s| > 1 && s[0] == '-' && AllDigits(s[1..]) then Some(-(DigitsValue(s[1..]) as int))
    else if |s| > 0 && AllDigits(s) then Some(DigitsValue(s))
    else None
  }

  /** `'%0.6f' % i` for an integer i of magnitude at most 2^53: the integer, a point and six
      zeros, never an exponent. */
  function FixedSix(i: int): (s: string)
    ensures |s| >= 8 && s[|s| - 7..] == ".000000"
    ensures forall k :: 0 <= k < |s| - 7 ==> IsDigit(s[k]) || (k == 0 && s[k] == '-')
  {
    IntToString(i) + ".000000"
  }

  lemma {:induction false} NatRoundTrip(n: nat)
    ensures DigitsValue(NatToString(n)) == n
  {
    if n >= 10 {
      var s := NatToString(n);
      assert s[..|s| - 1] == NatToString(n / 10);
      NatRoundTrip(n / 10);
    }
  }

  /** Only digits and a leading minus sign appear in an integer's text, and reading it back gives the integer. */
  lemma IntRoundTrip(i: int)
    ensures var s := IntToString(i);
      |s| > 0 &&
      (forall k :: 0 <= k < |s| ==> IsDigit(s[k]) || (k == 0 && s[k] == '-' && i < 0)) &&
      ParseInt(s) == Some(i)
  {
    var s := IntToString(i);
    if i < 0 {
      var t := NatToString(-i);
      assert s == "-" + t;
      assert s[1..] == t;
      assert forall k :: 1 <= k < |s| ==> s[k] == t[k - 1];
      NatRoundTrip(-i);
      assert ParseInt(s) == Some(-(DigitsValue(t) as int));
    } else {
      assert s == NatToString(i);
      assert !IsDigit('-');
      NatRoundTrip(i);
      assert ParseInt(s) == Some(DigitsValue(s));
    }
  }

  /** A timing value carries exactly six fractional digits, all zero, after the only point in it,
      uses no exponent, and its integer part reads back as the integer rendered. */
  lemma FixedSixShape(i: int)
    ensures var s := FixedSix(i);
      |s| >= 8 && s[|s| - 7] == '.' &&
      (forall k :: |s| - 6 <= k < |s| ==> s[k] == '0') &&
      (forall k :: 0 <= k < |s| ==> IsDigit(s[k]) || s[k] == '-' || s[k] == '.') &&
      (forall k :: 0 <= k < |s| && s[k] == '.' ==> k == |s| - 7) &&
      ParseInt(s[..|s| - 7]) == Some(i)
  {
    var s := FixedSix(i);
    var t := IntToString(i);
    IntRoundTrip(i);
    assert s[..|s| - 7] == t;
    forall k | 0 <= k < |s|
      ensures IsDigit(s[k]) || s[k] == '-' || s[k] == '.'
      ensures s[k] == '.' ==> k == |s| - 7
    {
      if k < |t| { assert s[k] == t[k]; }
    }
  }
}
