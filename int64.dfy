/**
 * Decimal text of Rust's `i64`: `Display` (what `format!("{}", n)` writes) and
 * `FromStr` (what `str::parse::<i64>` accepts).
 */
module Int64Text {
  import opened Wrappers
  import opened Strings

  const MinI64: int := -0x8000_0000_0000_0000
  const MaxI64: int := 0x7FFF_FFFF_FFFF_FFFF

  predicate IsI64(n: int) {
    MinI64 <= n <= MaxI64
  }

  predicate IsDigit(c: char) {
    '0' <= c <= '9'
  }

  predicate AllDigits(s: string) {
    forall i :: 0 <= i < |s| ==> IsDigit(s[i])
  }

  function DigitChar(d: nat): (c: char)
    requires d < 10
    ensures IsDigit(c)
  {
    ((('0' as int) + d) as char)
  }

  function DigitValue(c: char): (d: nat)
    requires IsDigit(c)
    ensures d < 10
  {
    (c as int) - ('0' as int)
  }

  /** The shortest decimal digits of n (no leading zeros). */
  function NatText(n: nat): (s: string)
    ensures |s| > 0 && AllDigits(s)
  {
    if n < 10 then [DigitChar(n)] else NatText(n / 10) + [DigitChar(n % 10)]
  }

  /** The value of a string of decimal digits, read most significant first. */
  function DigitsValue(s: string): nat
    requires AllDigits(s)
  {
    if s == [] then 0 else 10 * DigitsValue(s[..|s| - 1]) + DigitValue(s[|s| - 1])
  }

  /** `Display` for `i64`: a minus sign for negative values, then the digits of the magnitude. */
  function FormatI64(n: int): (s: string)
    ensures |s| > 0 && NoWhitespace(s) && ',' !in s && '=' !in s
  {
    var s := if n < 0 then ['-'] + NatText(0 - n) else NatText(n);
    assert forall i :: 0 <= i < |s| ==> s[i] == '-' || IsDigit(s[i]);
    s
  }

  /**
   * `FromStr` for `i64`: an optional `+` or `-`, then at least one ASCII
   * digit and nothing else; a value outside the `i64` range is an error.
   */
  function ParseI64(s: string): (r: Option<int>)
    ensures r.Some? ==> IsI64(r.value)
  {
    if s == [] then None
    else
      var digits := if s[0] == '-' || s[0] == '+' then s[1..] else s;
      if digits == [] || !AllDigits(digits) then None
      else
        var v: int := if s[0] == '-' then 0 - DigitsValue(digits) as int else DigitsValue(digits);
        if IsI64(v) then Some(v) else None
  }

  lemma {:induction false} DigitsValueOfNatText(n: nat)
    ensures DigitsValue(NatText(n)) == n
  {
    var s := NatText(n);
    if n >= 10 {
      DigitsValueOfNatText(n / 10);
      assert s[..|s| - 1] == NatText(n / 10);
    }
  }

  /** Every `i64` written by `Display` reads back as itself. */
  lemma ParseFormat(n: int)
    requires IsI64(n)
    ensures ParseI64(FormatI64(n)) == Some(n)
  {
    var s := FormatI64(n);
    if n < 0 {
      DigitsValueOfNatText(-n);
      assert s[1..] == NatText(-n);
    } else {
      DigitsValueOfNatText(n);
    }
  }
}
