/** Decimal numerals. */
module Text {
  import opened Core

  predicate IsDigit(c: char) {
    '0' <= c <= '9'
  }

  function Digit(d: nat): char
    requires d < 10
  {
    '0' + (d as char)
  }

  function Decimal(n: nat): (s: string)
    ensures s != [] && forall k :: 0 <= k < |s| ==> IsDigit(s[k])
  {
    if n < 10 then [Digit(n)] else Decimal(n / 10) + [Digit(n % 10)]
  }

  function DigitValue(c: char): nat
    requires IsDigit(c)
  {
    c as int - '0' as int
  }

  /** The number a run of digits stands for. */
  function Numeral(s: string): nat
    requires forall k :: 0 <= k < |s| ==> IsDigit(s[k])
  {
    if s == [] then 0 else 10 * Numeral(s[..|s| - 1]) + DigitValue(s[|s| - 1])
  }

  lemma {:induction false} NumeralDecimal(n: nat)
    ensures Numeral(Decimal(n)) == n
  {
    if n >= 10 {
      var s := Decimal(n);
      assert s[..|s| - 1] == Decimal(n / 10) && s[|s| - 1] == Digit(n % 10);
      NumeralDecimal(n / 10);
    } else {
      assert Decimal(n)[..0] == [];
    }
  }

  lemma DecimalInjective(a: nat, b: nat)
    requires Decimal(a) == Decimal(b)
    ensures a == b
  {
    NumeralDecimal(a);
    NumeralDecimal(b);
  }
}
