/**
 * Number <-> text conversions and rounding, on exact integers and reals.
 *
 * `ParseDecimal` stands for `pd.to_numeric(..., errors="coerce")` and
 * `float(...)` applied to a text cell; `NatToString` for `str(n)` /
 * f-string formatting of a non-negative integer; `RoundHalfEven` for Python's
 * built-in `round`, which rounds ties to the even neighbour.
 */
module Numeric {
  import opened Wrappers

  predicate IsDigit(c: char) { '0' <= c <= '9' }

  predicate AllDigits(s: string) {
    forall i :: 0 <= i < |s| ==> IsDigit(s[i])
  }

  function DigitChar(d: nat): (c: char)
    requires d < 10
    ensures IsDigit(c)
  {
    ('0' as int + d) as char
  }

  /** The value of a string of decimal digits, most significant first. */
  function DigitsValue(s: string): nat
    requires AllDigits(s)
  {
    if s == [] then 0
    else DigitsValue(s[..|s| - 1]) * 10 + (s[|s| - 1] as int - '0' as int)
  }

  /** Python's `str(n)` for a non-negative integer. */
  function NatToString(n: nat): (s: string)
    ensures |s| >= 1 && AllDigits(s)
  {
    if n < 10 then [DigitChar(n)] else NatToString(n / 10) + [DigitChar(n % 10)]
  }

  /** Reading back the digits of `str(n)` gives `n`. */
  lemma {:induction false} DigitsValueOfNatToString(n: nat)
    ensures DigitsValue(NatToString(n)) == n
  {
    if n >= 10 {
      var s := NatToString(n);
      assert s[..|s| - 1] == NatToString(n / 10);
      DigitsValueOfNatToString(n / 10);
    }
  }

  /** Distinct numbers have distinct decimal forms. */
  lemma NatToStringInjective(m: nat, n: nat)
    requires NatToString(m) == NatToString(n)
    ensures m == n
  {
    DigitsValueOfNatToString(m);
    DigitsValueOfNatToString(n);
  }

  function Pow10(k: nat): (p: nat)
    ensures p >= 1
  {
    if k == 0 then 1 else 10 * Pow10(k - 1)
  }

  function IndexOfDot(s: string): (k: nat)
    ensures k <= |s|
    ensures k < |s| ==> s[k] == '.'
    ensures forall i :: 0 <= i < k ==> s[i] != '.'
  {
    if s == [] then 0
    else if s[0] == '.' then 0
    else 1 + IndexOfDot(s[1..])
  }

  /** Unsigned decimal text: digits, optionally a point and more digits, at least one digit in all. */
  function ParseUnsigned(s: string): (r: Option<real>)
    ensures r.Some? ==> r.value >= 0.0
  {
    var k := IndexOfDot(s);
    var whole := s[..k];
    var frac := if k < |s| then s[k + 1..] else "";
    if AllDigits(whole) && AllDigits(frac) && |whole| + |frac| > 0 then
      Some(DigitsValue(whole) as real + DigitsValue(frac) as real / Pow10(|frac|) as real)
    else None
  }

  /** A decimal number with an optional sign; anything else is not a number. */
  function ParseDecimal(s: string): (r: Option<real>)
    ensures s == [] ==> r == None
  {
    if |s| > 0 && (s[0] == '-' || s[0] == '+') then
      match ParseUnsigned(s[1..])
      case Some(v) => Some(if s[0] == '-' then -v else v)
      case None => None
    else ParseUnsigned(s)
  }

  /** The decimal form of an integer parses back to that integer, with or without a minus sign. */
  lemma ParseNatToString(n: nat)
    ensures ParseDecimal(NatToString(n)) == Some(n as real)
    ensures ParseDecimal("-" + NatToString(n)) == Some(-(n as real))
  {
    var s := NatToString(n);
    ParseUnsignedNatToString(n);
    assert IsDigit(s[0]);
    assert ("-" + s)[1..] == s;
  }

  lemma ParseUnsignedNatToString(n: nat)
    ensures ParseUnsigned(NatToString(n)) == Some(n as real)
  {
    var s := NatToString(n);
    assert IndexOfDot(s) == |s| by {
      forall i | 0 <= i < |s| ensures s[i] != '.' { assert IsDigit(s[i]); }
      IndexOfDotAbsent(s);
    }
    DigitsValueOfNatToString(n);
    assert s[..|s|] == s;
  }

  lemma {:induction false} IndexOfDotAbsent(s: string)
    requires forall i :: 0 <= i < |s| ==> s[i] != '.'
    ensures IndexOfDot(s) == |s|
  {
    if s != [] {
      IndexOfDotAbsent(s[1..]);
    }
  }

  /** Python's `round(x)`: the nearest integer, ties to the even one. */
  function RoundHalfEven(x: real): (r: int)
    ensures -0.5 <= r as real - x <= 0.5
    ensures x == x.Floor as real ==> r == x.Floor
  {
    var f := x.Floor;
    var d := x - f as real;
    if d < 0.5 then f
    else if d > 0.5 then f + 1
    else if f % 2 == 0 then f
    else f + 1
  }

  /** On an exact tie the result is the even neighbour. */
  lemma RoundHalfEvenTie(x: real)
    requires x - x.Floor as real == 0.5
    ensures RoundHalfEven(x) % 2 == 0
    ensures RoundHalfEven(x) == x.Floor || RoundHalfEven(x) == x.Floor + 1
  {
  }

  /** Python's `round(x, 1)`: the nearest multiple of one tenth, ties to even tenths. */
  function RoundTenths(x: real): (r: real)
    ensures -0.05 <= r - x <= 0.05
  {
    RoundHalfEven(x * 10.0) as real / 10.0
  }
}
