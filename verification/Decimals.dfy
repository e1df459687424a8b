/** Numbers in decimal digits. */
module Decimals {
  function Digit(d: nat): char
    requires d < 10
  {
    "0123456789"[d]
  }

  function Decimal(n: nat): string {
    if n < 10 then [Digit(n)] else Decimal(n / 10) + [Digit(n % 10)]
  }

  lemma DigitsDiffer(a: nat, b: nat)
    requires a < 10 && b < 10 && Digit(a) == Digit(b)
    ensures a == b
  {
  }

  lemma {:induction false} DecimalsDiffer(a: nat, b: nat)
    requires Decimal(a) == Decimal(b)
    ensures a == b
    decreases a
  {
    DecimalParts(a);
    DecimalParts(b);
    DigitsDiffer(a % 10, b % 10);
    if a >= 10 && b >= 10 {
      DecimalsDiffer(a / 10, b / 10);
    }
  }

  lemma DecimalParts(n: nat)
    ensures var s := Decimal(n);
            && s != [] && s[|s| - 1] == Digit(n % 10)
            && (n < 10 <==> |s| == 1) && (n >= 10 ==> s[..|s| - 1] == Decimal(n / 10))
  {
    hide Digit;
  }
}
