/** Decimal numerals: strconv.Itoa and back. */
module Numerals {
  function DigitChar(d: nat): char
    requires d < 10
  {
    ('0' as int + d) as char
  }

  function Itoa(n: nat): string {
    if n < 10 then [DigitChar(n)] else Itoa(n / 10) + [DigitChar(n % 10)]
  }

  lemma {:induction false} ItoaInjective(m: nat, n: nat)
    requires Itoa(m) == Itoa(n)
    ensures m == n
  {
    assert Itoa(m)[|Itoa(m)| - 1] == DigitChar(m % 10) && Itoa(n)[|Itoa(n)| - 1] == DigitChar(n % 10);
    assert |Itoa(m / 10)| >= 1 && |Itoa(n / 10)| >= 1;
    if m >= 10 && n >= 10 {
      assert Itoa(m)[..|Itoa(m)| - 1] == Itoa(m / 10) && Itoa(n)[..|Itoa(n)| - 1] == Itoa(n / 10);
      ItoaInjective(m / 10, n / 10);
    }
  }

  predicate AllDigits(s: string) {
    forall i | 0 <= i < |s| :: '0' <= s[i] <= '9'
  }

  function DigitsValue(s: string): nat
    requires AllDigits(s)
  {
    if s == "" then 0
    else DigitsValue(s[..|s| - 1]) * 10 + (s[|s| - 1] as int - '0' as int)
  }

  /** Reading a written number gives it back. */
  lemma {:induction false} ItoaUndone(n: nat)
    ensures AllDigits(Itoa(n)) && Itoa(n) != "" && DigitsValue(Itoa(n)) == n
  {
    if n >= 10 {
      ItoaUndone(n / 10);
      assert Itoa(n)[..|Itoa(n)| - 1] == Itoa(n / 10);
    } else {
      assert DigitsValue(Itoa(n)[..0]) == 0;
    }
  }
}
