/** Decimal text of unsigned numbers: Rust's `to_string` and `parse::<u64>()`. */
module Decimal {
  import opened Wrappers

  const U64_LIMIT := 0x1_0000_0000_0000_0000

  predicate IsDigit(c: char) {
    '0' <= c <= '9'
  }

  predicate AllDigits(s: string) {
    forall c <- s :: IsDigit(c)
  }

  function DigitChar(d: nat): char
    requires d < 10
  {
    ('0' as int + d) as char
  }

  function ToDecimal(n: nat): string {
    if n < 10 then [DigitChar(n)] else ToDecimal(n / 10) + [DigitChar(n % 10)]
  }

  function DigitsValue(s: string): nat
    requires AllDigits(s)
  {
    if s == "" then 0
    else
      assert IsDigit(s[|s| - 1]);
      10 * DigitsValue(s[..|s| - 1]) + (s[|s| - 1] as int - '0' as int)
  }

  /** `parse::<u64>()`: one optional `+`, at least one digit, no overflow. */
  function ParseU64(s: string): Option<nat> {
    var digits := if s != "" && s[0] == '+' then s[1..] else s;
    if digits == "" || !AllDigits(digits) || DigitsValue(digits) >= U64_LIMIT then None else Some(DigitsValue(digits))
  }

  lemma {:induction false} ToDecimalValue(n: nat)
    ensures ToDecimal(n) != "" && AllDigits(ToDecimal(n)) && DigitsValue(ToDecimal(n)) == n
  {
    if n >= 10 {
      ToDecimalValue(n / 10);
    } else {
      assert ToDecimal(n)[..0] == "";
    }
  }

  lemma ParseInvertsPrint(n: nat)
    requires n < U64_LIMIT
    ensures ParseU64(ToDecimal(n)) == Some(n)
  {
    ToDecimalValue(n);
    assert ToDecimal(n)[0] in ToDecimal(n);
  }
}
