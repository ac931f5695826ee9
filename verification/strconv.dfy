/** `strconv.FormatInt(i, 10)`: the decimal text of a 64-bit integer, with a
    partner parser so that the text is shown to determine the number. */
module Strconv {
  import opened Prelude

  /** An ASCII decimal digit. */
  predicate IsDigit(c: char)
  {
    '0' <= c <= '9'
  }

  /** The digit character for `d`. */
  function Digit(d: nat): (c: char)
    requires d < 10
    ensures IsDigit(c) && c as int - '0' as int == d
  {
    ('0' as int + d) as char
  }

  /** The decimal digits of `n`, most significant first, without leading
      zeros ("0" for zero). */
  function Decimal(n: nat): (s: string)
    ensures |s| >= 1
    ensures forall k :: 0 <= k < |s| ==> IsDigit(s[k])
    ensures s[0] == '0' ==> n == 0 && s == "0"
    decreases n
  {
    if n < 10 then [Digit(n)] else Decimal(n / 10) + [Digit(n % 10)]
  }

  /** `strconv.FormatInt(i, 10)`: a minus sign before the digits of a negative
      number. */
  function FormatInt(i: int64): (s: string)
    ensures |s| >= 1
    ensures s[0] == '-' <==> i < 0
  {
    if i < 0 then "-" + Decimal(-(i as int)) else Decimal(i as int)
  }

  /** The value of a string of decimal digits, read most significant first. */
  function ParseDecimal(s: string): int
    requires forall k :: 0 <= k < |s| ==> IsDigit(s[k])
  {
    if s == [] then 0
    else ParseDecimal(s[..|s| - 1]) * 10 + (s[|s| - 1] as int - '0' as int)
  }

  /** A decimal integer with an optional leading minus sign; anything else
      is rejected. */
  function ParseInt(s: string): Option<int>
  {
    if |s| > 0 && s[0] == '-' then
      if |s| > 1 && forall k :: 1 <= k < |s| ==> IsDigit(s[k]) then Some(-ParseDecimal(s[1..])) else None
    else if |s| > 0 && forall k :: 0 <= k < |s| ==> IsDigit(s[k]) then Some(ParseDecimal(s))
    else None
  }

  /** Reading back the digits of `n` gives `n`. */
  lemma {:induction false} DecimalRoundTrip(n: nat)
    ensures ParseDecimal(Decimal(n)) == n
    decreases n
  {
    var s := Decimal(n);
    if n >= 10 {
      DecimalRoundTrip(n / 10);
      assert s[..|s| - 1] == Decimal(n / 10);
    }
  }

  /** Parsing the formatted text of `i` gives `i` back. */
  lemma FormatIntRoundTrip(i: int64)
    ensures ParseInt(FormatInt(i)) == Some(i as int)
  {
    var s := FormatInt(i);
    if i < 0 {
      DecimalRoundTrip(-(i as int));
      assert s[1..] == Decimal(-(i as int));
    } else {
      DecimalRoundTrip(i as int);
    }
  }

  /** Distinct integers have distinct decimal texts. */
  lemma FormatIntInjective(i: int64, j: int64)
    ensures FormatInt(i) == FormatInt(j) <==> i == j
  {
    FormatIntRoundTrip(i);
    FormatIntRoundTrip(j);
  }
}
