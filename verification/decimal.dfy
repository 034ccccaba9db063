/**
 * Decimal text of 32-bit signed integers: `lexical::to_string` and
 * `lexical::parse::<i32>` as the codec uses them for user identifiers.
 */
module Decimal {
  import opened Wrappers

  const MinI32: int := -0x8000_0000
  const MaxI32: int := 0x7FFF_FFFF

  /** Rust's `i32`, the type of the platform's user identifiers. */
  type I32 = x: int | MinI32 <= x <= MaxI32

  predicate IsDigit(c: char) { '0' <= c <= '9' }

  predicate AllDigits(s: string) { forall i :: 0 <= i < |s| ==> IsDigit(s[i]) }

  function DigitChar(d: nat): (c: char)
    requires d < 10
    ensures IsDigit(c)
  {
    ('0' as int + d) as char
  }

  /** Shortest decimal digits of a natural number. */
  function NatDigits(n: nat): (s: string)
    ensures |s| >= 1 && AllDigits(s)
    decreases n
  {
    if n < 10 then [DigitChar(n)] else NatDigits(n / 10) + [DigitChar(n % 10)]
  }

  /** The value of a string of decimal digits (leading zeros allowed). */
  function DigitsValue(s: string): nat
    requires AllDigits(s)
    decreases |s|
  {
    if |s| == 0 then 0
    else DigitsValue(s[..|s| - 1]) * 10 + (s[|s| - 1] as int - '0' as int)
  }

  lemma {:induction false} DigitsRoundTrip(n: nat)
    ensures DigitsValue(NatDigits(n)) == n
    decreases n
  {
    if n >= 10 {
      var s := NatDigits(n);
      DigitsRoundTrip(n / 10);
      assert s[..|s| - 1] == NatDigits(n / 10);
    }
  }

  /** `lexical::to_string(n)`: a minus sign for negative numbers, then the digits. */
  function ToDecimal(n: int): (s: string)
    ensures |s| >= 1
    ensures forall i :: 0 <= i < |s| ==> IsDigit(s[i]) || s[i] == '-'
  {
    if n < 0 then "-" + NatDigits(-n) else NatDigits(n)
  }

  /**
   * `lexical::parse::<i32>(s)`: an optional sign, at least one digit, and a
   * value in range; anything else is an error (None).
   */
  function ParseI32(s: string): Option<I32>
  {
    var negative := |s| > 0 && s[0] == '-';
    var digits := if |s| > 0 && (s[0] == '-' || s[0] == '+') then s[1..] else s;
    if |digits| == 0 || !AllDigits(digits) then None
    else
      var v: int := if negative then -(DigitsValue(digits) as int) else DigitsValue(digits);
      if MinI32 <= v <= MaxI32 then Some(v) else None
  }

  /** Every `i32` written by `to_string` parses back to itself. */
  lemma DecimalRoundTrip(n: I32)
    ensures ParseI32(ToDecimal(n)) == Some(n)
  {
    if n < 0 {
      var m: nat := -(n as int);
      DigitsRoundTrip(m);
      assert ToDecimal(n)[1..] == NatDigits(m);
    } else {
      DigitsRoundTrip(n);
    }
  }

  /**
   * A token with a character other than a digit after its optional sign is
   * rejected; a first character counts as a sign only if it is '-' or '+'.
   */
  lemma ParseRejectsNonDigit(s: string, i: nat)
    requires i < |s| && !IsDigit(s[i])
    requires i == 0 ==> s[0] != '-' && s[0] != '+'
    ensures ParseI32(s) == None
  {
    if i > 0 {
      var digits := if s[0] == '-' || s[0] == '+' then s[1..] else s;
      if s[0] == '-' || s[0] == '+' {
        assert digits[i - 1] == s[i];
      } else {
        assert digits[i] == s[i];
      }
    }
  }

}
