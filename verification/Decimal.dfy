/** Decimal numerals: how node ids and list indices are written as strings. */
module Decimal {

  predicate IsDigit(c: char) {
    '0' <= c <= '9'
  }

  /** `str.isdigit` on ASCII strings: non-empty, digits only. */
  predicate IsDigits(s: string) {
    s != "" && forall i | 0 <= i < |s| :: IsDigit(s[i])
  }

  function DigitValue(c: char): nat
    requires IsDigit(c)
  {
    c as int - '0' as int
  }

  function DigitChar(d: nat): (c: char)
    requires d < 10
    ensures IsDigit(c) && DigitValue(c) == d
  {
    (d + '0' as int) as char
  }

  /** `int(s)` for a digit string. */
  function ParseNat(s: string): nat
    requires IsDigits(s)
  {
    var init, last := s[..|s| - 1], DigitValue(s[|s| - 1]);
    if init == "" then last else 10 * ParseNat(init) + last
  }

  /** `str(n)`. */
  function ToDecimal(n: nat): string {
    if n < 10 then [DigitChar(n)] else ToDecimal(n / 10) + [DigitChar(n % 10)]
  }

  /** A digit string without superfluous leading zeros. */
  predicate Canonical(s: string) {
    IsDigits(s) && ToDecimal(ParseNat(s)) == s
  }

  /** Printing then parsing gives the number back, so printing is injective. */
  lemma {:induction false} ParsePrinted(n: nat)
    ensures IsDigits(ToDecimal(n)) && ParseNat(ToDecimal(n)) == n
  {
    if n >= 10 {
      ParsePrinted(n / 10);
      var s := ToDecimal(n);
      assert s[..|s| - 1] == ToDecimal(n / 10);
    }
  }
}
