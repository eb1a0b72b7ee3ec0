/**
 * The parts of `java.lang.Long` the chart activity relies on: `Long.parseLong` on a decimal text,
 * its inverse `Long.toString` (the form in which the store writes timestamps), and the truncating
 * division `long / long`.
 */
module Longs {
  import opened Wrappers

  /** The range of a Java `long`. */
  const LONG_MIN: int := -0x8000_0000_0000_0000
  const LONG_MAX: int := 0x7FFF_FFFF_FFFF_FFFF

  predicate InLongRange(n: int) {
    LONG_MIN <= n <= LONG_MAX
  }

  predicate IsDigit(c: char) {
    '0' <= c <= '9'
  }

  predicate AllDigits(s: string) {
    forall i :: 0 <= i < |s| ==> IsDigit(s[i])
  }

  /** The value of a string of decimal digits, most significant first. */
  function DigitsValue(s: string): nat
    requires AllDigits(s)
  {
    if s == [] then 0 else DigitsValue(s[..|s| - 1]) * 10 + (s[|s| - 1] as int - '0' as int)
  }

  /**
   * `Long.parseLong(s)`: an optional `+` or `-`, then at least one decimal digit, and a value that
   * fits in a `long`; anything else is a `NumberFormatException`, modelled as `None`.
   */
  function ParseLong(s: string): (r: Option<int>)
    ensures r.Some? ==> InLongRange(r.value)
    ensures r.Some? ==> |s| > 0 && (IsDigit(s[0]) || s[0] == '+' || s[0] == '-')
    ensures r.Some? ==> forall i :: 0 < i < |s| ==> IsDigit(s[i])
    ensures s == "" || s == "+" || s == "-" ==> r.None?
    ensures r.Some? && s[0] == '-' ==> r.value <= 0
    ensures r.Some? && s[0] != '-' ==> r.value >= 0
  {
    if |s| == 0 then None
    else
      var digits := if s[0] == '-' || s[0] == '+' then s[1..] else s;
      if |digits| == 0 || !AllDigits(digits) then None
      else
        var v: int := if s[0] == '-' then -(DigitsValue(digits) as int) else DigitsValue(digits);
        if InLongRange(v) then Some(v) else None
  }

  /** The decimal digits of `n`, most significant first, without leading zeros. */
  function NatToString(n: nat): (s: string)
    ensures |s| >= 1 && AllDigits(s)
  {
    if n < 10 then ['0' + n as char]
    else NatToString(n / 10) + ['0' + (n % 10) as char]
  }

  /** `Long.toString(n)`: a minus sign for negatives, then the digits of the magnitude. */
  function LongToString(n: int): (s: string)
    ensures |s| >= 1
    ensures forall i :: 0 <= i < |s| ==> IsDigit(s[i]) || (i == 0 && s[i] == '-')
  {
    if n < 0 then "-" + NatToString(-n) else NatToString(n)
  }

  /** Reading back the digits of `n` gives `n`. */
  lemma {:induction false} DigitsOfNat(n: nat)
    ensures DigitsValue(NatToString(n)) == n
  {
    if n >= 10 {
      DigitsOfNat(n / 10);
      var s := NatToString(n);
      assert s[..|s| - 1] == NatToString(n / 10);
    }
  }

  /**
   * `Long.parseLong` inverts `Long.toString` on exactly the values that fit in a `long`: a decimal
   * text of a value outside that range is rejected.
   */
  lemma ParseLongToString(n: int)
    ensures ParseLong(LongToString(n)) == if InLongRange(n) then Some(n) else None
  {
    var s := LongToString(n);
    if n < 0 {
      DigitsOfNat(-n);
      assert s[1..] == NatToString(-n);
    } else {
      DigitsOfNat(n);
    }
  }

  /** A decimal text of a `long` holds neither a comma nor a newline. */
  lemma LongToStringPlain(n: int)
    ensures ',' !in LongToString(n) && '\n' !in LongToString(n)
  {
  }

  /**
   * Java's `n / d` for `d > 0`: the quotient rounded toward zero, so the remainder has the sign of
   * `n` (Dafny's own `/` rounds toward negative infinity for negative `n`).
   */
  function TruncDiv(n: int, d: int): (q: int)
    requires d > 0
    ensures n >= 0 ==> 0 <= n - q * d < d
    ensures n < 0 ==> -d < n - q * d <= 0
  {
    if n >= 0 then n / d else -((-n) / d)
  }

  /** Truncating a `long` by a positive divisor stays in the `long` range. */
  lemma TruncDivInRange(n: int, d: int)
    requires d > 0 && InLongRange(n)
    ensures InLongRange(TruncDiv(n, d))
  {
  }
}
