/** Go's fixed-width integers and the decimal conversions image.go relies on:
    `strconv.FormatUint(n, 10)` and `%d` when rendering, `strconv.Atoi` when
    reading snapshot ids back (a 64-bit platform, where Go's `int` is 64 bits). */
module Decimal {
  import opened Wrappers

  const UINT64_LIMIT: int := 0x1_0000_0000_0000_0000
  const INT64_MIN: int := -0x8000_0000_0000_0000
  const INT64_LIMIT: int := 0x8000_0000_0000_0000

  type uint64 = x: int | 0 <= x < UINT64_LIMIT
  type int64 = x: int | INT64_MIN <= x < INT64_LIMIT

  predicate IsDigit(c: char) {
    '0' <= c <= '9'
  }

  predicate AllDigits(s: string) {
    forall k :: 0 <= k < |s| ==> IsDigit(s[k])
  }

  function DigitChar(d: nat): (c: char)
    requires d < 10
    ensures IsDigit(c) && DigitValue(c) == d
  {
    (('0' as int) + d) as char
  }

  function DigitValue(c: char): (d: nat)
    requires IsDigit(c)
    ensures d < 10
  {
    (c as int) - ('0' as int)
  }

  /** The base-10 rendering of a natural number, as `strconv.FormatUint(n, 10)`
      and `%d` produce it: digits only, and no leading zero except for 0 itself. */
  function FormatNat(n: nat): (s: string)
    ensures |s| > 0 && AllDigits(s)
    ensures s[0] == '0' <==> n == 0
    ensures n == 0 ==> s == "0"
  {
    if n < 10 then [DigitChar(n)] else FormatNat(n / 10) + [DigitChar(n % 10)]
  }

  /** `%d` of a signed integer: a minus sign before the digits of its magnitude. */
  function FormatInt(n: int): (s: string)
    ensures |s| > 0
    ensures s[0] == '-' <==> n < 0
    ensures var d := if n < 0 then s[1..] else s;
            |d| > 0 && AllDigits(d) && (d[0] == '0' <==> n == 0)
  {
    if n < 0 then
      var d := FormatNat(-n);
      assert ("-" + d)[1..] == d;
      "-" + d
    else FormatNat(n)
  }

  /** The value of a string of decimal digits, most significant first. */
  function DigitsValue(s: string): nat
    requires AllDigits(s)
  {
    if s == [] then 0 else DigitsValue(s[..|s| - 1]) * 10 + DigitValue(s[|s| - 1])
  }

  /** A non-empty string of decimal digits read as a natural number. */
  function ParseNat(s: string): (r: Option<nat>)
    ensures r.Some? <==> |s| > 0 && AllDigits(s)
  {
    if |s| > 0 && AllDigits(s) then Some(DigitsValue(s)) else None
  }

  /** `strconv.Atoi` with a 64-bit `int`: an optional `+` or `-`, then at least one
      decimal digit and nothing else; a value outside the 64-bit range is an error. */
  function ParseInt(s: string): (r: Option<int64>)
    ensures r.Some? ==> |s| > 0 && (IsDigit(s[0]) || s[0] == '+' || s[0] == '-')
    ensures r.Some? ==> AllDigits(s[1..])
    ensures |s| > 0 && AllDigits(s) && DigitsValue(s) < INT64_LIMIT ==> r == Some(DigitsValue(s))
    ensures |s| > 0 && AllDigits(s) && DigitsValue(s) >= INT64_LIMIT ==> r == None
  {
    if |s| == 0 then None
    else
      var signed := s[0] == '-' || s[0] == '+';
      var digits := if signed then s[1..] else s;
      match ParseNat(digits)
      case None => None
      case Some(m) =>
        var v: int := if s[0] == '-' then 0 - (m as int) else m;
        if INT64_MIN <= v < INT64_LIMIT then Some(v) else None
  }

  /** Reading back what FormatNat wrote gives the number again. */
  lemma {:induction false} DigitsValueOfFormatNat(n: nat)
    ensures DigitsValue(FormatNat(n)) == n
  {
    if n >= 10 {
      var s := FormatNat(n);
      assert s[..|s| - 1] == FormatNat(n / 10);
      DigitsValueOfFormatNat(n / 10);
    }
  }

  lemma ParseNatOfFormatNat(n: nat)
    ensures ParseNat(FormatNat(n)) == Some(n)
  {
    DigitsValueOfFormatNat(n);
  }

  /** Every 64-bit integer that `%d` renders is read back by `strconv.Atoi`
      as the same integer. */
  lemma ParseIntOfFormatInt(n: int64)
    ensures ParseInt(FormatInt(n)) == Some(n)
  {
    var s := FormatInt(n);
    if n < 0 {
      assert s[1..] == FormatNat(-(n as int));
      ParseNatOfFormatNat(-(n as int));
    } else {
      ParseNatOfFormatNat(n);
      assert s[0] != '-' && s[0] != '+' by {
        assert IsDigit(s[0]);
      }
    }
  }

  /** Two numbers that render alike are equal: FormatNat loses nothing. */
  lemma FormatNatInjective(m: nat, n: nat)
    requires FormatNat(m) == FormatNat(n)
    ensures m == n
  {
    DigitsValueOfFormatNat(m);
    DigitsValueOfFormatNat(n);
  }
}
