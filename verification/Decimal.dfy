/** Unsigned decimal numerals, as printed by `%d` and read back by `%u`. */
module Decimal {
  import opened Text

  function DigitChar(d: nat): (c: char)
    requires d < 10
    ensures IsDigit(c) && DigitValue(c) == d
  {
    ('0' as int + d) as char
  }

  /** The numeral without leading zeros. */
  function Dec(n: nat): (s: string)
    ensures s != []
    ensures AllDigits(s)
  {
    if n < 10 then [DigitChar(n)] else Dec(n / 10) + [DigitChar(n % 10)]
  }

  predicate AllDigits(s: string) {
    forall i :: 0 <= i < |s| ==> IsDigit(s[i])
  }

  /** The number a digit string denotes. */
  function Value(s: string): nat
    requires AllDigits(s)
  {
    if s == [] then 0 else Value(s[..|s| - 1]) * 10 + DigitValue(s[|s| - 1])
  }

  lemma {:induction false} ValueOfDec(n: nat)
    ensures Value(Dec(n)) == n
  {
    if n < 10 {
      assert Dec(n)[..0] == "";
    } else {
      ValueOfDec(n / 10);
      assert Dec(n)[..|Dec(n)| - 1] == Dec(n / 10);
    }
  }

  lemma DecInjective(a: nat, b: nat)
    requires Dec(a) == Dec(b)
    ensures a == b
  {
    ValueOfDec(a);
    ValueOfDec(b);
  }
}
