/**
 * Decimal digit strings: rendering a number the way Python's `str()` and
 * SQL's `CAST(n AS VARCHAR)` do, and reading one back the way Redshift's
 * `CAST(s AS INTEGER)` does.
 */
module Decimal {
  import opened Wrappers

  /** Bounds of the warehouse's 32-bit INTEGER type. */
  const IntMin: int := -0x8000_0000
  const IntMax: int := 0x7FFF_FFFF

  predicate IsDigit(c: char) {
    '0' <= c <= '9'
  }

  predicate AllDigits(s: string) {
    forall i :: 0 <= i < |s| ==> IsDigit(s[i])
  }

  function DigitValue(c: char): (d: nat)
    requires IsDigit(c)
    ensures d < 10
  {
    c as int - '0' as int
  }

  function DigitChar(d: nat): (c: char)
    requires d < 10
    ensures IsDigit(c) && DigitValue(c) == d
  {
    ('0' as int + d) as char
  }

  /** The value of a string of decimal digits, most significant digit first. */
  function DigitsValue(s: string): nat
    requires AllDigits(s)
  {
    if s == [] then 0 else DigitsValue(s[..|s| - 1]) * 10 + DigitValue(s[|s| - 1])
  }

  /** Shortest decimal rendering of `n`: digits only, no leading zero. */
  function NatToString(n: nat): (s: string)
    ensures 1 <= |s| && AllDigits(s)
    ensures |s| == 1 <==> n < 10
    ensures |s| > 1 ==> s[0] != '0'
  {
    if n < 10 then [DigitChar(n)] else NatToString(n / 10) + [DigitChar(n % 10)]
  }

  /** Decimal rendering of an integer, with a leading '-' when it is negative. */
  function IntToString(i: int): (r: string)
    ensures |r| > 0 && (r[0] == '-' <==> i < 0)
    ensures i >= 0 ==> AllDigits(r) && DigitsValue(r) == i && (|r| > 1 ==> r[0] != '0')
    ensures i < 0 ==> && |r| > 1 && AllDigits(r[1..]) && DigitsValue(r[1..]) == -i
                      && (|r| > 2 ==> r[1] != '0')
  {
    if i < 0 then
      var d := NatToString(-i);
      NatToStringRoundTrip(-i);
      assert ("-" + d)[1..] == d;
      "-" + d
    else
      NatToStringRoundTrip(i);
      NatToString(i)
  }

  /**
   * `CAST(s AS INTEGER)`: an optional sign, then one or more digits, whose
   * value must fit the 32-bit INTEGER type; anything else is a cast error.
   */
  function ParseInt(s: string): (r: Option<int>)
    ensures r.Some? ==> IntMin <= r.value <= IntMax
  {
    var signed := |s| > 0 && (s[0] == '-' || s[0] == '+');
    var digits := if signed then s[1..] else s;
    if digits == [] || !AllDigits(digits) then None
    else
      var magnitude := DigitsValue(digits) as int;
      var v := if signed && s[0] == '-' then -magnitude else magnitude;
      if IntMin <= v <= IntMax then Some(v) else None
  }

  /**
   * What the cast accepts: an optional sign, then one or more digits; the
   * value read is the digits' value, negated after a '-'.
   */
  lemma ParseIntAccepts(s: string)
    ensures ParseInt(s).Some? ==> |s| > 0 && AllDigits(s[1..])
    ensures ParseInt(s).Some? && IsDigit(s[0]) ==> ParseInt(s).value == DigitsValue(s)
    ensures ParseInt(s).Some? && !IsDigit(s[0]) ==> |s| > 1 && (s[0] == '-' || s[0] == '+')
    ensures ParseInt(s).Some? && s[0] == '+' ==> ParseInt(s).value == DigitsValue(s[1..])
    ensures ParseInt(s).Some? && s[0] == '-' ==> ParseInt(s).value == -(DigitsValue(s[1..]) as int)
  {
    if ParseInt(s).Some? && IsDigit(s[0]) {
      assert AllDigits(s);
    }
  }

  /**
   * The converse: every optional sign followed by one or more digits is
   * accepted exactly when its value fits the INTEGER range, and reads as
   * that value.
   */
  lemma ParseIntOfSignedDigits(sign: string, digits: string)
    requires sign == "" || sign == "-" || sign == "+"
    requires digits != [] && AllDigits(digits)
    ensures var v := if sign == "-" then -(DigitsValue(digits) as int) else DigitsValue(digits) as int;
            ParseInt(sign + digits) == if IntMin <= v <= IntMax then Some(v) else None
  {
    var s := sign + digits;
    if sign == "" {
      assert s == digits && IsDigit(s[0]);
    } else {
      assert s[0] == sign[0] && s[1..] == digits;
    }
  }

  /** Reading back a rendered number gives the number. */
  lemma {:induction false} NatToStringRoundTrip(n: nat)
    ensures DigitsValue(NatToString(n)) == n
  {
    if n >= 10 {
      NatToStringRoundTrip(n / 10);
      var s := NatToString(n);
      assert s[..|s| - 1] == NatToString(n / 10);
    }
  }

  /** `CAST(CAST(i AS VARCHAR) AS INTEGER) == i` for every 32-bit integer. */
  lemma ParseIntRoundTrip(i: int)
    requires IntMin <= i <= IntMax
    ensures ParseInt(IntToString(i)) == Some(i)
  {
    if i < 0 {
      NegativeRoundTrip(-i);
    } else {
      NonNegativeRoundTrip(i);
    }
  }

  lemma NonNegativeRoundTrip(n: nat)
    requires n <= IntMax
    ensures ParseInt(NatToString(n)) == Some(n)
  {
    NatToStringRoundTrip(n);
    ParseIntOfSignedDigits("", NatToString(n));
    assert "" + NatToString(n) == NatToString(n);
  }

  lemma NegativeRoundTrip(n: nat)
    requires 0 < n <= -IntMin
    ensures ParseInt("-" + NatToString(n)) == Some(-(n as int))
  {
    NatToStringRoundTrip(n);
    NegatedDigits(NatToString(n));
  }

  lemma NegatedDigits(d: string)
    requires d != [] && AllDigits(d) && DigitsValue(d) <= -IntMin
    ensures ParseInt("-" + d) == Some(-(DigitsValue(d) as int))
  {
    ParseIntOfSignedDigits("-", d);
  }
}
