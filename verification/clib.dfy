/**
 * The pieces of the C library the three programs rely on, stated in Dafny's terms:
 * the <ctype.h> classes of the "C" locale, the `(int)` cast of a double, C's truncated
 * `%`, and the floating-point library (<math.h> and sscanf's "%lf" conversion), which
 * is not modelled and is passed around as a record of functions instead.
 */
module CLib {

  /** isspace: blank, and the control characters \t \n \v \f \r. */
  predicate IsSpace(c: char) {
    c == ' ' || ('\t' <= c <= '\r')
  }

  /** isdigit */
  predicate IsDigit(c: char) {
    '0' <= c <= '9'
  }

  /** isalpha in the "C" locale */
  predicate IsAlpha(c: char) {
    ('a' <= c <= 'z') || ('A' <= c <= 'Z')
  }

  /** tolower in the "C" locale: only A..Z change. */
  function ToLower(c: char): (l: char)
    ensures IsAlpha(c) <==> IsAlpha(l)
    ensures !('A' <= c <= 'Z') ==> l == c
    ensures 'a' <= l <= 'z' || l == c
  {
    if 'A' <= c <= 'Z' then (c as int + 32) as char else c
  }

  /** The value of a decimal digit. */
  function DigitValue(c: char): (d: nat)
    requires IsDigit(c)
    ensures d <= 9
  {
    c as int - '0' as int
  }

  function Abs(x: int): nat {
    if x < 0 then -x else x
  }

  function AbsReal(x: real): (r: real)
    ensures r >= 0.0 && (r == x || r == -x)
  {
    if x < 0.0 then -x else x
  }

  /**
   * The C conversion `(int)x` of a double: rounds toward zero. (Values outside the
   * range of `int`, where C leaves the result undefined, are not modelled.)
   */
  function TruncToInt(x: real): (n: int)
    ensures 0.0 <= x ==> n as real <= x < n as real + 1.0
    ensures x < 0.0 ==> n as real - 1.0 < x <= n as real
  {
    if x >= 0.0 then x.Floor else -((-x).Floor)
  }

  /** C99 integer division: the quotient truncated toward zero. */
  function CQuot(a: int, b: int): (q: int)
    requires b != 0
    ensures Abs(q) == Abs(a) / Abs(b)
    ensures q != 0 ==> (q > 0 <==> (a > 0) == (b > 0))
    ensures a >= 0 && b > 0 ==> q == a / b
  {
    var x, y := Abs(a), Abs(b);
    DivOfNat(x, y);
    var m := x / y;
    if (a < 0) != (b < 0) then -m else m
  }

  /** Dividing naturals gives a natural, and zero divided by anything is zero. */
  lemma DivOfNat(x: nat, y: nat)
    requires y > 0
    ensures x / y >= 0 && (x == 0 ==> x / y == 0)
  {
  }

  /**
   * C99 `a % b`: the remainder that goes with the truncated quotient, so it takes the
   * sign of the dividend (Dafny's own `%` is Euclidean and never negative).
   */
  function CRem(a: int, b: int): (r: int)
    requires b != 0
    ensures a == CQuot(a, b) * b + r
    ensures Abs(r) < Abs(b)
    ensures a >= 0 ==> r >= 0
    ensures a <= 0 ==> r <= 0
  {
    QuotRem(a, b);
    if a < 0 then -(Abs(a) % Abs(b)) else if a == 0 then 0 else Abs(a) % Abs(b)
  }

  /** The truncated quotient times the divisor falls short of the dividend by the remainder of the magnitudes. */
  lemma QuotRem(a: int, b: int)
    requires b != 0
    ensures CQuot(a, b) * b == (if a < 0 then -(Abs(a) - Abs(a) % Abs(b)) else Abs(a) - Abs(a) % Abs(b))
  {
    var q, m := Abs(a) / Abs(b), Abs(a) % Abs(b);
    assert q * Abs(b) == Abs(a) - m;
    if b < 0 {
      assert CQuot(a, b) * b == CQuot(a, b) * -1 * Abs(b);
    } else {
      assert CQuot(a, b) * b == CQuot(a, b) * Abs(b);
    }
  }

  /** The three facts in CRem's contract pin the remainder down: no other value has them. */
  lemma CRemUnique(a: int, b: int, q: int, r: int)
    requires b != 0
    requires a == q * b + r && Abs(r) < Abs(b)
    requires a >= 0 ==> r >= 0
    requires a <= 0 ==> r <= 0
    ensures r == CRem(a, b) && q == CQuot(a, b)
  {
    var q0, r0 := CQuot(a, b), CRem(a, b);
    assert (q - q0) * b == r0 - r;
    if q != q0 {
      assert Abs((q - q0) * b) >= Abs(b) by {
        AbsMulAtLeast(q - q0, b);
      }
      assert false;
    }
  }

  lemma AbsMulAtLeast(k: int, b: int)
    requires k != 0
    ensures Abs(k * b) >= Abs(b)
  {
    if k > 0 {
      if b >= 0 { assert k * b >= b; } else { assert k * b <= b; }
    } else {
      if b >= 0 { assert k * b <= -b; } else { assert k * b >= -b; }
    }
  }

  /** Where both operands are non-negative, C's `%` agrees with Dafny's. */
  lemma CRemOfNonNegative(a: int, b: int)
    requires a >= 0 && b > 0
    ensures CRem(a, b) == a % b
  {
  }

  /** A negative dividend gives a non-positive remainder: C's `-7 % 2` is -1, not 1. */
  lemma CRemNegativeDividend()
    ensures CRem(-7, 2) == -1 && (-7) % 2 == 1
  {
  }

  /**
   * The floating-point library, which the model does not compute: sscanf's "%lf"
   * conversion of the text starting at a number, and the <math.h> functions.
   */
  datatype Libm = Libm(
    scanReal: string -> real,
    sqrt: real -> real,
    log: real -> real,
    log10: real -> real,
    exp: real -> real,
    sin: real -> real,
    cos: real -> real,
    tan: real -> real,
    pow: (real, real) -> real)
}
