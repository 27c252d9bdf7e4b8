/**
 * Decimal rendering of natural numbers, as a template literal `${n}` prints a
 * non-negative integer below 10^21 (JavaScript switches to exponent notation
 * from there on), and the inverse reading used to state round trips.
 */
module Decimal {
  import opened Options

  predicate IsDigit(c: char) {
    '0' <= c <= '9'
  }

  predicate AllDigits(s: string) {
    forall i :: 0 <= i < |s| ==> IsDigit(s[i])
  }

  function DigitChar(d: nat): (c: char)
    requires d < 10
    ensures IsDigit(c)
  {
    "0123456789"[d]
  }

  function DigitValue(c: char): (d: nat)
    requires IsDigit(c)
    ensures d < 10
  {
    c as int - '0' as int
  }

  /** The digits of `n`, most significant first, with no sign and no leading zero. */
  function Show(n: nat): (r: string)
    ensures AllDigits(r)
    ensures 1 <= |r|
    ensures |r| == 1 <==> n < 10
    ensures r[0] == '0' <==> n == 0
    decreases n
  {
    if n < 10 then [DigitChar(n)] else Show(n / 10) + [DigitChar(n % 10)]
  }

  /** The number a string of digits denotes (the empty string denotes 0). */
  function Value(s: string): nat
    requires AllDigits(s)
  {
    if |s| == 0 then 0 else Value(s[..|s| - 1]) * 10 + DigitValue(s[|s| - 1])
  }

  /** Reads a non-empty string of decimal digits; anything else is rejected. */
  function ParseNat(s: string): (r: Option<nat>)
    ensures r.Some? <==> 1 <= |s| && AllDigits(s)
  {
    if 1 <= |s| && AllDigits(s) then Some(Value(s)) else None
  }

  /** Reading back what `Show` prints yields the number printed. */
  lemma {:induction false} ShowValue(n: nat)
    ensures Value(Show(n)) == n
    decreases n
  {
    if n >= 10 {
      var s := Show(n);
      assert s[..|s| - 1] == Show(n / 10);
      ShowValue(n / 10);
    }
  }

  lemma ParseShow(n: nat)
    ensures ParseNat(Show(n)) == Some(n)
  {
    ShowValue(n);
  }

  /** Distinct numbers print differently. */
  lemma ShowInjective(a: nat, b: nat)
    requires Show(a) == Show(b)
    ensures a == b
  {
    ShowValue(a);
    ShowValue(b);
  }
}
