/** Decimal numerals, as implicit tags are written. */
module Decimal {
  function Digit(d: nat): char
    requires d < 10
  {
    "0123456789"[d]
  }

  function Numeral(n: nat): string {
    if n < 10 then [Digit(n)] else Numeral(n / 10) + [Digit(n % 10)]
  }

  lemma {:induction false} NumeralInjective(a: nat, b: nat)
    requires Numeral(a) == Numeral(b)
    ensures a == b
    decreases a
  {
    assert Numeral(a)[|Numeral(a)| - 1] == Digit(a % 10);
    assert Numeral(b)[|Numeral(b)| - 1] == Digit(b % 10);
    assert a % 10 == b % 10;
    if a >= 10 && b >= 10 {
      assert Numeral(a / 10) == Numeral(a)[..|Numeral(a)| - 1] == Numeral(b / 10);
      NumeralInjective(a / 10, b / 10);
    } else {
      NumeralNonEmpty(a / 10);
      NumeralNonEmpty(b / 10);
    }
  }

  lemma {:induction false} NumeralNonEmpty(n: nat)
    ensures |Numeral(n)| > 0
  {
  }
}
