/** Decimal text of natural numbers, as both runtimes print it. */
module Decimal {

  predicate IsDigit(c: char) {
    '0' <= c <= '9'
  }

  predicate AllDigits(s: string) {
    forall i :: 0 <= i < |s| ==> IsDigit(s[i])
  }

  function Digit(d: nat): (c: char)
    requires d < 10
    ensures IsDigit(c) && (c == '0' <==> d == 0)
  {
    (48 + d) as char
  }

  function DigitValue(c: char): nat
    requires IsDigit(c)
  {
    c as int - 48
  }

  function ToText(n: nat): (s: string)
    ensures s != [] && AllDigits(s)
  {
    if n < 10 then [Digit(n)] else ToText(n / 10) + [Digit(n % 10)]
  }

  function FromText(s: string): nat
    requires AllDigits(s)
  {
    if s == [] then 0 else FromText(s[..|s| - 1]) * 10 + DigitValue(s[|s| - 1])
  }

  /** Reading back what was printed gives the number, and a number has no leading zero. */
  lemma {:induction false} RoundTrip(n: nat)
    ensures FromText(ToText(n)) == n
    ensures ToText(n)[0] == '0' ==> n == 0
  {
    if n >= 10 {
      RoundTrip(n / 10);
      assert ToText(n)[..|ToText(n)| - 1] == ToText(n / 10);
    }
  }

  lemma Injective(m: nat, n: nat)
    requires ToText(m) == ToText(n)
    ensures m == n
  {
    RoundTrip(m);
    RoundTrip(n);
  }
}
