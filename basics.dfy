/** Small value types shared by the whole model: optional values, results with an
    error message, the numeric clamp the engine uses everywhere, and decimal
    rendering of numbers for the generated names and error messages. */
module Basics {

  datatype Option<+T> = None | Some(value: T)

  /** A store operation either succeeds with a value or raises an error whose
      message is kept as text. */
  datatype Result<+T> = Success(value: T) | Failure(error: string)

  /** `Math.max(lo, Math.min(hi, x))`, and SQL's `MAX(lo, MIN(hi, x))`. */
  function Clamp(x: real, lo: real, hi: real): (r: real)
    requires lo <= hi
    ensures lo <= r <= hi
    ensures lo <= x <= hi ==> r == x
    ensures x < lo ==> r == lo
    ensures hi < x ==> r == hi
  {
    if x < lo then lo else if hi < x then hi else x
  }

  lemma ClampMonotone(x: real, y: real, lo: real, hi: real)
    requires lo <= hi && x <= y
    ensures Clamp(x, lo, hi) <= Clamp(y, lo, hi)
  {
  }

  function Digit(d: nat): (c: char)
    requires d < 10
    ensures '0' <= c <= '9'
  {
    ('0' as int + d) as char
  }

  /** `n / 10` and `n % 10`, by repeated subtraction so that the digits of a
      number are computed without integer division (see `TensUnits`). */
  function Tens(n: nat): nat
    decreases n
  {
    if n < 10 then 0 else 1 + Tens(n - 10)
  }

  function Units(n: nat): nat
    decreases n
  {
    if n < 10 then n else Units(n - 10)
  }

  /** `Tens` and `Units` are the quotient and remainder of division by ten. */
  lemma {:induction false} TensUnits(n: nat)
    ensures n == 10 * Tens(n) + Units(n) && Units(n) < 10
    ensures Tens(n) == n / 10 && Units(n) == n % 10
    decreases n
  {
    if n >= 10 {
      TensUnits(n - 10);
    }
  }

  /** Decimal text of a natural number, as JavaScript's template strings print
      it: the digits of `n / 10`, then the digit `n % 10`. */
  function NatToString(n: nat): (s: string)
    ensures |s| == 1 <==> n < 10
    ensures forall k :: 0 <= k < |s| ==> '0' <= s[k] <= '9'
    decreases n
  {
    if n < 10 then [Digit(n)]
    else
      TensUnits(n);
      NatToString(Tens(n)) + [Digit(Units(n))]
  }

  /** Two numbers with the same decimal text are equal. */
  lemma {:induction false} NatToStringInjective(a: nat, b: nat)
    requires NatToString(a) == NatToString(b)
    ensures a == b
    decreases a
  {
    var sa, sb := NatToString(a), NatToString(b);
    if a >= 10 && b >= 10 {
      TensUnits(a);
      TensUnits(b);
      assert sa[..|sa| - 1] == NatToString(Tens(a)) && sb[..|sb| - 1] == NatToString(Tens(b));
      NatToStringInjective(Tens(a), Tens(b));
      DigitInjective(Units(a), Units(b));
    } else if a < 10 && b < 10 {
      DigitInjective(a, b);
    } else if a < 10 {
      NatToStringLong(b);
    } else {
      NatToStringLong(a);
    }
  }

  lemma DigitInjective(a: nat, b: nat)
    requires a < 10 && b < 10 && Digit(a) == Digit(b)
    ensures a == b
  {
  }

  /** A number of two or more digits has no leading zero. */
  lemma {:induction false} NatToStringLong(n: nat)
    requires n >= 10
    ensures |NatToString(n)| >= 2 && NatToString(n)[0] != '0'
    decreases n
  {
    TensUnits(n);
    if Tens(n) >= 10 {
      NatToStringLong(Tens(n));
    } else {
      assert Tens(n) >= 1;
    }
  }
}
