/** Decimal numerals without leading zeros. */
module Decimal {
  import opened Basics

  function Digits(n: nat): string {
    if n < 10 then [('0' as int + n) as char] else Digits(n / 10) + [('0' as int + n % 10) as char]
  }

  predicate AllDigits(s: string) { forall c | c in s :: AsciiDigit(c) }

  /** The number a text of digits stands for. */
  function Number(s: string): nat
    requires AllDigits(s)
  {
    if s == "" then 0
    else
      assert s[|s| - 1] in s && forall c | c in s[..|s| - 1] :: c in s;
      10 * Number(s[..|s| - 1]) + (s[|s| - 1] as int - '0' as int)
  }

  predicate Canonical(s: string) { s != "" && AllDigits(s) && (s[0] == '0' ==> |s| == 1) }

  lemma {:induction false} DigitsAreDigits(n: nat)
    ensures |Digits(n)| > 0 && AllDigits(Digits(n))
  {
    if n >= 10 {
      DigitsAreDigits(n / 10);
    }
  }

  lemma {:induction false} DigitsInjective(n: nat, m: nat)
    requires Digits(n) == Digits(m)
    ensures n == m
  {
    DigitsAreDigits(n / 10);
    DigitsAreDigits(m / 10);
    if n >= 10 && m >= 10 {
      var last := |Digits(n)| - 1;
      assert Digits(n)[..last] == Digits(n / 10) && Digits(m)[..last] == Digits(m / 10);
      assert Digits(n)[last] == Digits(m)[last];
      DigitsInjective(n / 10, m / 10);
    }
  }

  /** Numerals without leading zeros are exactly what `Digits` writes. */
  lemma {:induction false} DigitsOfNumber(s: string)
    requires Canonical(s)
    ensures Digits(Number(s)) == s && (s[0] != '0' ==> Number(s) > 0)
  {
    var front, last := s[..|s| - 1], s[|s| - 1];
    assert last in s && forall c | c in front :: c in s;
    if |s| > 1 {
      assert front[0] == s[0];
      DigitsOfNumber(front);
      assert Number(s) / 10 == Number(front) && Number(s) % 10 == last as int - '0' as int;
      assert front + [last] == s;
    } else {
      assert Number(front) == 0;
      assert s == [last];
    }
  }
}
