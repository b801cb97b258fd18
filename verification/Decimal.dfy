/** Decimal notation of integers, as JavaScript's `String(n)` writes it. */
module Decimal {

  function DigitChar(d: nat): (c: char)
    requires d < 10
    ensures '0' <= c <= '9'
  {
    '0' + d as char
  }

  function Digits(n: nat): (s: string)
    ensures |s| >= 1
    ensures forall c | c in s :: '0' <= c <= '9'
  {
    if n < 10 then [DigitChar(n)] else Digits(n / 10) + [DigitChar(n % 10)]
  }

  function Dec(n: int): string {
    if n < 0 then "-" + Digits(-n) else Digits(n)
  }

  /** The number that a text of digits stands for. */
  function Value(s: string): nat
    requires AllDigits(s)
  {
    if s == "" then 0 else 10 * Value(s[..|s| - 1]) + (s[|s| - 1] - '0') as nat
  }

  predicate AllDigits(s: string) {
    forall i | 0 <= i < |s| :: '0' <= s[i] <= '9'
  }

  /** The notation reads back as the number. */
  lemma {:induction false} DigitsReadBack(n: nat)
    ensures AllDigits(Digits(n)) && Value(Digits(n)) == n
  {
    if n >= 10 {
      DigitsReadBack(n / 10);
      assert Digits(n)[..|Digits(n)| - 1] == Digits(n / 10);
    } else {
      assert Digits(n)[..0] == "";
    }
  }

  lemma {:induction false} DigitsInjective(m: nat, n: nat)
    requires Digits(m) == Digits(n)
    ensures m == n
  {
    var s, t := Digits(m), Digits(n);
    assert s[|s| - 1] == DigitChar(m % 10) && t[|t| - 1] == DigitChar(n % 10);
    assert (m >= 10) == (|s| >= 2) == (|t| >= 2) == (n >= 10);
    if m >= 10 {
      assert Digits(m / 10) == s[..|s| - 1] == t[..|t| - 1] == Digits(n / 10);
      DigitsInjective(m / 10, n / 10);
    }
  }

  /** The notation is a sign at most, then digits. */
  lemma DecChars(n: int)
    ensures |Dec(n)| >= 1
    ensures forall i | 0 <= i < |Dec(n)| :: '0' <= Dec(n)[i] <= '9' || (i == 0 && Dec(n)[i] == '-' && n < 0)
    ensures Dec(n)[0] == '-' <==> n < 0
  {
    var s := Digits(if n < 0 then -n else n);
    assert s[0] in s;
    forall i | 0 <= i < |Dec(n)|
      ensures '0' <= Dec(n)[i] <= '9' || (i == 0 && Dec(n)[i] == '-' && n < 0)
    {
      assert i > 0 && n < 0 ==> Dec(n)[i] == s[i - 1] && s[i - 1] in s;
      assert n >= 0 ==> Dec(n)[i] == s[i] && s[i] in s;
    }
  }

  lemma DecInjective(m: int, n: int)
    requires Dec(m) == Dec(n)
    ensures m == n
  {
    DecChars(m);
    DecChars(n);
    if m < 0 {
      assert Digits(-m) == Dec(m)[1..] == Dec(n)[1..] == Digits(-n);
      DigitsInjective(-m, -n);
    } else {
      DigitsInjective(m, n);
    }
  }
}
