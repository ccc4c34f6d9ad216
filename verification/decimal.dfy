/** Base-10 text for integers and booleans, as the Go standard library
    renders and reads it: zero-padded fixed-width fields of the time
    layouts, `strconv.Itoa` / `strconv.Atoi`, and `strconv.FormatBool` /
    `strconv.ParseBool`. */
module Decimal {
  import opened Wrappers

  /** Go's `int`, taken here at its 64-bit width. */
  const MinInt64: int := -0x8000_0000_0000_0000
  const MaxInt64: int := 0x7FFF_FFFF_FFFF_FFFF
  type Int64 = x: int | MinInt64 <= x <= MaxInt64

  predicate IsDigit(c: char) {
    '0' <= c <= '9'
  }

  predicate AllDigits(s: string) {
    forall i | 0 <= i < |s| :: IsDigit(s[i])
  }

  function DigitChar(d: nat): (c: char)
    requires d < 10
    ensures IsDigit(c)
  {
    ('0' as int + d) as char
  }

  function DigitValue(c: char): (d: nat)
    requires IsDigit(c)
    ensures d < 10
    ensures DigitChar(d) == c
  {
    c as int - '0' as int
  }

  function Pow10(k: nat): (p: nat)
    ensures 1 <= p
  {
    if k == 0 then 1 else 10 * Pow10(k - 1)
  }

  /** The number a string of decimal digits denotes, most significant digit first. */
  function DigitsValue(s: string): (v: nat)
    requires AllDigits(s)
    ensures v < Pow10(|s|)
  {
    if s == [] then 0 else 10 * DigitsValue(s[..|s| - 1]) + DigitValue(s[|s| - 1])
  }

  /** The `width` least significant digits of `n`, zero-padded on the left:
      the two- and four-digit fast path of the time package's `appendInt`. */
  function FixedDigits(n: nat, width: nat): (s: string)
    requires n < Pow10(width)
    ensures |s| == width && AllDigits(s)
    ensures DigitsValue(s) == n
  {
    if width == 0 then []
    else
      var s := FixedDigits(n / 10, width - 1) + [DigitChar(n % 10)];
      assert s[..|s| - 1] == FixedDigits(n / 10, width - 1);
      s
  }

  /** Reading a digit string and writing it back at the same width gives
      the same string: fixed-width fields have exactly one spelling per value. */
  lemma {:induction false} FixedDigitsOfValue(s: string)
    requires AllDigits(s)
    ensures FixedDigits(DigitsValue(s), |s|) == s
  {
    if s != [] {
      var init, last := s[..|s| - 1], s[|s| - 1];
      assert s == init + [last];
      var v := DigitsValue(init);
      var n := 10 * v + DigitValue(last);
      assert n / 10 == v && n % 10 == DigitValue(last);
      FixedDigitsOfValue(init);
    }
  }

  /** The shortest decimal spelling of `n` (`"0"` for zero). */
  function Digits(n: nat): (s: string)
    ensures 1 <= |s| && AllDigits(s)
    ensures DigitsValue(s) == n
    ensures s[0] == '0' <==> n == 0
    ensures 0 < n ==> Pow10(|s| - 1) <= n
  {
    if n < 10 then [DigitChar(n)]
    else
      var s := Digits(n / 10) + [DigitChar(n % 10)];
      assert s[..|s| - 1] == Digits(n / 10);
      s
  }

  /** The time package's `appendInt` for a non-negative value: the decimal
      digits of `n`, zero-padded on the left to at least `width`. */
  function Pad(n: nat, width: nat): (s: string)
    ensures AllDigits(s) && DigitsValue(s) == n
    ensures width <= |s|
    ensures |s| == width <==> n < Pow10(width)
    ensures width < |s| ==> s[0] != '0'
  {
    if n < Pow10(width) then FixedDigits(n, width)
    else
      WiderThanField(n, width);
      Digits(n)
  }

  /** A value that does not fit in `width` digits needs more than `width`. */
  lemma WiderThanField(n: nat, width: nat)
    requires Pow10(width) <= n
    ensures width < |Digits(n)|
  {
    var s := Digits(n);
    if |s| <= width {
      Pow10Monotone(|s|, width);
    }
  }

  lemma {:induction false} Pow10Monotone(i: nat, j: nat)
    requires i <= j
    ensures Pow10(i) <= Pow10(j)
  {
    if i < j {
      Pow10Monotone(i, j - 1);
    }
  }

  /** `strconv.Itoa`: base 10, a leading `-` for negative values, no leading zeros. */
  function FormatInt(x: int): (s: string)
    ensures 1 <= |s|
    ensures s[0] == '-' <==> x < 0
    ensures x < 0 ==> 2 <= |s| && AllDigits(s[1..]) && s[1] != '0'
    ensures 0 <= x ==> AllDigits(s) && (s[0] == '0' <==> x == 0)
    ensures 0 <= x ==> DigitsValue(s) == x
    ensures x < 0 ==> DigitsValue(s[1..]) == -x
    ensures x == 0 ==> s == "0"
  {
    if x < 0 then
      var d := Digits(-x);
      assert ("-" + d)[1..] == d;
      "-" + d
    else Digits(x)
  }

  /** `strconv.Atoi`: an optional `+` or `-`, then one or more decimal
      digits, whose value must fit in a 64-bit `int`. */
  function ParseInt(s: string): (r: Option<Int64>)
    ensures r.Some? ==> 1 <= |s|
    ensures r.Some? && IsDigit(s[0]) ==> AllDigits(s) && r.value == DigitsValue(s)
    ensures r.Some? && s[0] == '-' ==> 2 <= |s| && AllDigits(s[1..]) && r.value == 0 - DigitsValue(s[1..])
    ensures r.Some? && s[0] == '+' ==> 2 <= |s| && AllDigits(s[1..]) && r.value == DigitsValue(s[1..])
    ensures r.Some? ==> IsDigit(s[0]) || s[0] == '-' || s[0] == '+'
    ensures 1 <= |s| && AllDigits(s) && DigitsValue(s) <= MaxInt64 ==> r == Some(DigitsValue(s))
    ensures 2 <= |s| && s[0] == '-' && AllDigits(s[1..]) && DigitsValue(s[1..]) <= -MinInt64
      ==> r == Some(0 - DigitsValue(s[1..]))
    ensures 2 <= |s| && s[0] == '+' && AllDigits(s[1..]) && DigitsValue(s[1..]) <= MaxInt64
      ==> r == Some(DigitsValue(s[1..]))
  {
    var signed := |s| > 0 && (s[0] == '-' || s[0] == '+');
    var body := if signed then s[1..] else s;
    if body == [] || !AllDigits(body) then None
    else
      var v: int := if signed && s[0] == '-' then 0 - DigitsValue(body) else DigitsValue(body);
      if MinInt64 <= v <= MaxInt64 then Some(v) else None
  }

  /** Every 64-bit integer survives `Itoa` followed by `Atoi`. */
  lemma ParseFormatInt(x: Int64)
    ensures ParseInt(FormatInt(x)) == Some(x)
  {
    var s := FormatInt(x);
    var n: int := x;
    if n < 0 {
      var d := Digits(-n);
      assert s[1..] == d;
      assert 0 - DigitsValue(s[1..]) == n;
    } else {
      var d := Digits(x);
      assert s == d;
      assert IsDigit(s[0]);
      assert DigitsValue(d) == x;
    }
  }

  /** `strconv.FormatBool`. */
  function FormatBool(b: bool): string {
    if b then "true" else "false"
  }

  /** `strconv.ParseBool`: the six spellings of true and of false it accepts. */
  function ParseBool(s: string): (r: Option<bool>)
    ensures r == Some(true) <==> s in {"1", "t", "T", "TRUE", "true", "True"}
    ensures r == Some(false) <==> s in {"0", "f", "F", "FALSE", "false", "False"}
  {
    if s in {"1", "t", "T", "TRUE", "true", "True"} then Some(true)
    else if s in {"0", "f", "F", "FALSE", "false", "False"} then Some(false)
    else None
  }

  lemma ParseFormatBool(b: bool)
    ensures ParseBool(FormatBool(b)) == Some(b)
  {
  }
}
