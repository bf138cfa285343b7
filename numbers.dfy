/** Decimal integers as text: how an `i32` operand is read (`parse_number`,
    which uses Rust's `str::parse::<i32>`) and how `print` writes a value. */
module Numbers {
  import opened Base

  predicate IsDigit(c: char) { '0' <= c <= '9' }

  function DigitValue(c: char): (d: nat)
    requires IsDigit(c)
    ensures d < 10
  {
    c as int - '0' as int
  }

  function DigitChar(d: nat): (c: char)
    requires d < 10
    ensures IsDigit(c) && DigitValue(c) == d
  {
    (d + '0' as int) as char
  }

  predicate AllDigits(s: string)
  {
    forall i :: 0 <= i < |s| ==> IsDigit(s[i])
  }

  /** The natural number a string of decimal digits denotes (leading zeros allowed). */
  function DigitsValue(s: string): nat
    requires AllDigits(s)
  {
    if |s| == 0 then 0 else DigitsValue(s[..|s| - 1]) * 10 + DigitValue(s[|s| - 1])
  }

  /** Rust's `i32::from_str`: an optional `+` or `-`, then at least one ASCII
      digit, and the value must lie in the 32-bit range. Anything else,
      including the empty string and a lone sign, is rejected. */
  function ParseI32(s: string): (r: Option<int32>)
    ensures r.Some? ==> |s| > 0 && (IsDigit(s[0]) || s[0] == '+' || s[0] == '-')
    ensures r.Some? ==> forall i :: 0 < i < |s| ==> IsDigit(s[i])
  {
    if |s| == 0 then None
    else
      var negative := s[0] == '-';
      var digits := if s[0] == '+' || s[0] == '-' then s[1..] else s;
      if |digits| == 0 || !AllDigits(digits) then None
      else
        var v: int := if negative then -(DigitsValue(digits) as int) else DigitsValue(digits);
        if I32_MIN <= v <= I32_MAX then Some(v) else None
  }

  /** Decimal digits of a natural number, without leading zeros. */
  function Digits(n: nat): (s: string)
    ensures |s| > 0 && AllDigits(s)
  {
    if n < 10 then [DigitChar(n)] else Digits(n / 10) + [DigitChar(n % 10)]
  }

  /** The text `println!("{}", v)` writes for `v` (without the newline). */
  function Show(v: int32): (s: string)
    ensures |s| > 0
  {
    if v < 0 then "-" + Digits(-(v as int)) else Digits(v)
  }

  lemma {:induction false} DigitsValueOfDigits(n: nat)
    ensures DigitsValue(Digits(n)) == n
  {
    var s := Digits(n);
    if n >= 10 {
      DigitsValueOfDigits(n / 10);
      assert s[..|s| - 1] == Digits(n / 10);
    }
  }

  /** What `print` writes is read back by `parse_number` as the same value. */
  lemma ParseShow(v: int32)
    ensures ParseI32(Show(v)) == Some(v)
  {
    DigitsValueOfDigits(if v < 0 then -(v as int) else v);
    if v < 0 {
      assert Show(v)[1..] == Digits(-(v as int));
    }
  }
}
