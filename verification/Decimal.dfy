/** Decimal digits: fixed-width fields of timestamps and the numbers in parameter names. */
module Decimal {
  import opened Common

  predicate IsDigit(c: char) { '0' <= c <= '9' }

  predicate AllDigits(s: string) { forall i :: 0 <= i < |s| ==> IsDigit(s[i]) }

  function DigitValue(c: char): (n: int)
    requires IsDigit(c)
    ensures 0 <= n <= 9
  {
    c as int - '0' as int
  }

  function Digit(n: int): (c: char)
    requires 0 <= n <= 9
    ensures IsDigit(c) && DigitValue(c) == n
  {
    '0' + n as char
  }

  function Pow10(w: nat): (p: nat)
    ensures p >= 1
  {
    if w == 0 then 1 else 10 * Pow10(w - 1)
  }

  /** The last `w` decimal digits of `n`, zero padded. */
  function Digits(n: nat, w: nat): (s: string)
    ensures |s| == w && AllDigits(s)
  {
    if w == 0 then "" else Digits(n / 10, w - 1) + [Digit(n % 10)]
  }

  function Number(s: string): nat
    requires AllDigits(s)
  {
    if s == "" then 0 else 10 * Number(s[..|s| - 1]) + DigitValue(s[|s| - 1])
  }

  /** Printing at a width that holds the number and reading back are inverse. */
  lemma {:induction false} NumberOfDigits(n: nat, w: nat)
    requires n < Pow10(w)
    ensures Number(Digits(n, w)) == n
  {
    if w > 0 {
      NumberOfDigits(n / 10, w - 1);
      assert Digits(n, w)[..w - 1] == Digits(n / 10, w - 1);
    }
  }

  lemma {:induction false} DigitsOfNumber(s: string)
    requires AllDigits(s)
    ensures Number(s) < Pow10(|s|)
    ensures Digits(Number(s), |s|) == s
  {
    if s != "" {
      var head := s[..|s| - 1];
      DigitsOfNumber(head);
      assert Number(s) / 10 == Number(head) && Number(s) % 10 == DigitValue(s[|s| - 1]);
      assert s == head + [s[|s| - 1]];
    }
  }

  lemma {:induction false} PowersAdd(a: nat, b: nat)
    ensures Pow10(a) * Pow10(b) == Pow10(a + b)
  {
    if a > 0 { PowersAdd(a - 1, b); }
  }

  lemma {:induction false} Scale(a: int, p: int, b: int, d: int)
    ensures 10 * (a * p + b) + d == a * (10 * p) + (10 * b + d)
  {}

  lemma {:induction false} NumberConcat(a: string, b: string)
    requires AllDigits(a) && AllDigits(b)
    ensures AllDigits(a + b)
    ensures Number(a + b) == Number(a) * Pow10(|b|) + Number(b)
  {
    if b == "" {
      assert a + b == a;
    } else {
      NumberConcat(a, b[..|b| - 1]);
      assert (a + b)[..|a + b| - 1] == a + b[..|b| - 1];
      Scale(Number(a), Pow10(|b| - 1), Number(b[..|b| - 1]), DigitValue(b[|b| - 1]));
    }
  }

  /** Equal-width digit fields compare as text exactly like the numbers they hold. */
  lemma {:induction false} DigitsOrder(n: nat, m: nat, w: nat)
    requires n < Pow10(w) && m < Pow10(w)
    ensures TextLess(Digits(n, w), Digits(m, w)) <==> n < m
    ensures Digits(n, w) == Digits(m, w) <==> n == m
  {
    if w > 0 {
      DigitsOrder(n / 10, m / 10, w - 1);
      TextLessConcat(Digits(n / 10, w - 1), Digits(m / 10, w - 1), [Digit(n % 10)], [Digit(m % 10)]);
      assert TextLess([Digit(n % 10)], [Digit(m % 10)]) <==> n % 10 < m % 10;
      NumberOfDigits(n, w);
      NumberOfDigits(m, w);
    }
  }

  /** Shortest decimal form of a number. */
  function Natural(n: nat): (s: string)
    ensures |s| > 0 && AllDigits(s)
  {
    if n < 10 then [Digit(n)] else Natural(n / 10) + [Digit(n % 10)]
  }

  lemma {:induction false} NumberOfNatural(n: nat)
    ensures Number(Natural(n)) == n
  {
    if n >= 10 {
      NumberOfNatural(n / 10);
      assert Natural(n)[..|Natural(n)| - 1] == Natural(n / 10);
    } else {
      assert Natural(n)[..0] == "";
    }
  }

  /** The shortest form has no leading zero, and up to two digits below one hundred. */
  lemma {:induction false} NaturalShape(n: nat)
    ensures n > 0 ==> Natural(n)[0] != '0'
    ensures n < 10 ==> |Natural(n)| == 1
    ensures 10 <= n < 100 ==> |Natural(n)| == 2
  {
    if n >= 10 {
      NaturalShape(n / 10);
    }
  }
}
