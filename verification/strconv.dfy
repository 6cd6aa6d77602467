/**
 * Base-10 rendering of integers, as done by `strconv.FormatUint(n, 10)`,
 * `strconv.FormatInt(n, 10)` and the `%d` verb of `fmt.Sprintf`, together
 * with the reading back of a digit string, which is its inverse.
 */
module Strconv {

  predicate IsDigit(c: char) { '0' <= c <= '9' }

  predicate AllDigits(s: string) { forall i :: 0 <= i < |s| ==> IsDigit(s[i]) }

  function DigitChar(d: nat): (c: char)
    requires d < 10
    ensures IsDigit(c)
  {
    ('0' as int + d) as char
  }

  function DigitValue(c: char): (d: nat)
    requires IsDigit(c)
    ensures d < 10 && DigitChar(d) == c
  {
    c as int - '0' as int
  }

  /** Renders `n` in base 10: only digits, never empty, no leading zero. */
  function FormatUint(n: nat): (s: string)
    ensures |s| >= 1 && AllDigits(s)
    ensures s[0] == '0' <==> n == 0
    decreases n
  {
    if n < 10 then [DigitChar(n)] else FormatUint(n / 10) + [DigitChar(n % 10)]
  }

  /** The number a string of digits denotes (most significant digit first). */
  function DecimalValue(s: string): nat
    requires AllDigits(s)
    decreases |s|
  {
    if s == [] then 0 else DecimalValue(s[..|s| - 1]) * 10 + DigitValue(s[|s| - 1])
  }

  lemma {:induction false} FormatUintRoundTrip(n: nat)
    ensures DecimalValue(FormatUint(n)) == n
    decreases n
  {
    var s := FormatUint(n);
    if n < 10 {
      assert s[..|s| - 1] == [];
    } else {
      assert s[..|s| - 1] == FormatUint(n / 10);
      FormatUintRoundTrip(n / 10);
    }
  }

  lemma FormatUintInjective(a: nat, b: nat)
    ensures FormatUint(a) == FormatUint(b) ==> a == b
  {
    FormatUintRoundTrip(a);
    FormatUintRoundTrip(b);
  }

  /** Renders a signed integer: a leading '-' for negative values, then the digits of its magnitude. */
  function FormatInt(n: int): (s: string)
    ensures |s| >= 1
    ensures s[0] == '-' <==> n < 0
    ensures forall i :: 0 < i < |s| ==> IsDigit(s[i])
    ensures forall i :: 0 <= i < |s| ==> s[i] == '-' || IsDigit(s[i])
  {
    if n < 0 then "-" + FormatUint(-n) else FormatUint(n)
  }

  /**
   * The digits after the optional '-' denote the magnitude of `n`, and they
   * have no leading zero unless `n` is 0.
   */
  lemma {:induction false} FormatIntRoundTrip(n: int)
    ensures n >= 0 ==> AllDigits(FormatInt(n)) && DecimalValue(FormatInt(n)) == n
    ensures n >= 0 ==> (FormatInt(n)[0] == '0' <==> n == 0)
    ensures n < 0 ==> |FormatInt(n)| >= 2 && FormatInt(n)[1] != '0'
    ensures n < 0 ==> AllDigits(FormatInt(n)[1..]) && DecimalValue(FormatInt(n)[1..]) == -n
  {
    if n < 0 {
      assert FormatInt(n)[1..] == FormatUint(-n);
      FormatUintRoundTrip(-n);
    } else {
      FormatUintRoundTrip(n);
    }
  }

  lemma FormatIntInjective(a: int, b: int)
    ensures FormatInt(a) == FormatInt(b) ==> a == b
  {
    if FormatInt(a) == FormatInt(b) {
      if a < 0 {
        assert FormatUint(-a) == FormatInt(a)[1..] == FormatInt(b)[1..] == FormatUint(-b);
        FormatUintInjective(-a, -b);
      } else {
        FormatUintInjective(a, b);
      }
    }
  }
}
