/**
 * The calculator's arithmetic helpers (Calculator.c): `apply_operator`,
 * `apply_function`, `factorial` and `degrees_to_radians`. A helper that fails raises
 * the caller's error flag and returns 0; the flag is reported beside the value.
 */
module CalcArith {
  import opened CLib
  import opened CalcLexer

  /** A value together with whether the error flag was raised while computing it. */
  datatype Flagged = Flagged(value: real, error: bool)

  /** The value of M_PI the program defines when <math.h> does not. */
  const Pi: real := 3.14159265358979323846

  /** `degrees_to_radians` */
  function DegreesToRadians(deg: real): (r: real)
    ensures r * 180.0 == deg * Pi
  {
    deg * Pi / 180.0
  }

  /** `apply_operator`: `a op b`, where `b` is the right-hand operand. */
  function ApplyOperator(op: char, a: real, b: real, lib: Libm): (r: Flagged)
    ensures r.error ==> r.value == 0.0
    ensures r.error <==>
      !IsOperatorChar(op) || (op == '/' && b == 0.0) || (op == '%' && TruncToInt(b) == 0)
    ensures op == '%' && !r.error ==>
      AbsReal(r.value) < AbsReal(TruncToInt(b) as real) &&
      (TruncToInt(a) >= 0 ==> r.value >= 0.0) && (TruncToInt(a) <= 0 ==> r.value <= 0.0)
  {
    match op
    case '+' => Flagged(a + b, false)
    case '-' => Flagged(a - b, false)
    case '*' => Flagged(a * b, false)
    case '/' => if b == 0.0 then Flagged(0.0, true) else Flagged(a / b, false)
    case '%' =>
      if TruncToInt(b) == 0 then Flagged(0.0, true)
      else Flagged(CRem(TruncToInt(a), TruncToInt(b)) as real, false)
    case '^' => Flagged(lib.pow(a, b), false)
    case _ => Flagged(0.0, true)
  }

  /** Addition and subtraction undo each other, as do multiplication and division by a non-zero value. */
  lemma OperatorInverses(a: real, b: real, lib: Libm)
    ensures ApplyOperator('-', ApplyOperator('+', a, b, lib).value, b, lib) == Flagged(a, false)
    ensures b != 0.0 ==>
      ApplyOperator('/', ApplyOperator('*', a, b, lib).value, b, lib) == Flagged(a, false)
    ensures b != 0.0 ==>
      ApplyOperator('*', ApplyOperator('/', a, b, lib).value, b, lib) == Flagged(a, false)
  {
  }

  /**
   * `%` works on the operands cast to int and truncates: the remainder and the
   * truncated quotient rebuild the dividend's integer part.
   */
  lemma RemainderRebuilds(a: real, b: real, lib: Libm)
    requires TruncToInt(b) != 0
    ensures var r := ApplyOperator('%', a, b, lib);
      !r.error && r.value.Floor as real == r.value &&
      TruncToInt(a) == CQuot(TruncToInt(a), TruncToInt(b)) * TruncToInt(b) + r.value.Floor
  {
  }

  /** `%` in C is not Dafny's `%`: -7.5 % 2 is -1 (the cast gives -7), where the Euclidean remainder is 1. */
  lemma RemainderOfNegative(lib: Libm)
    ensures ApplyOperator('%', -7.5, 2.0, lib) == Flagged(-1.0, false)
  {
    assert TruncToInt(-7.5) == -7;
    CRemNegativeDividend();
  }

  /** The function names `apply_function` recognises. */
  predicate KnownFunction(name: string) {
    name in {"sqrt", "abs", "ln", "log", "exp", "fact", "sin", "cos", "tan"}
  }

  /** `factorial`: the product 2 * 3 * ... * n, so 1 for 0 and 1, and 0 for a negative n. */
  function Fact(n: int): (r: real)
    ensures n < 0 ==> r == 0.0
    ensures n >= 0 ==> r >= 1.0
    decreases if n < 0 then 0 else n
  {
    if n < 0 then 0.0
    else if n <= 1 then 1.0
    else Fact(n - 1) * (n as real)
  }

  /** Each factorial is the one before it times m, and no later one is smaller. */
  lemma {:induction false} FactGrows(m: nat, n: nat)
    requires 1 <= m <= n
    ensures Fact(n) >= Fact(m)
    ensures Fact(m) == Fact(m - 1) * (m as real)
    decreases n - m
  {
    if m < n {
      FactGrows(m, n - 1);
      assert Fact(n) == Fact(n - 1) * (n as real);
    }
  }

  /** `factorial` as the program computes it: a loop that multiplies `res` by 2..n. */
  method Factorial(n: int) returns (res: real)
    ensures res == Fact(n)
  {
    if n < 0 {
      return 0.0;
    }
    res := 1.0;
    var i := 2;
    while i <= n
      invariant 2 <= i <= if n < 2 then 2 else n + 1
      invariant res == Fact(i - 1)
    {
      res := res * (i as real);
      i := i + 1;
    }
  }

  /**
   * `apply_function`: the function's value, or the error for a name it does not know
   * and for an argument outside the function's domain. The trigonometric functions
   * take degrees.
   */
  function ApplyFunction(name: string, a: real, lib: Libm): (r: Flagged)
    ensures r.error ==> r.value == 0.0
    ensures r.error <==>
      !KnownFunction(name) ||
      (name == "sqrt" && a < 0.0) ||
      ((name == "ln" || name == "log") && a <= 0.0) ||
      (name == "fact" && (a < 0.0 || a.Floor as real != a))
    ensures name == "abs" ==> r.value >= 0.0 && (r.value == a || r.value == -a)
    ensures name == "fact" && !r.error ==> r.value >= 1.0 && r.value == Fact(a.Floor)
  {
    if name == "sqrt" then (if a < 0.0 then Flagged(0.0, true) else Flagged(lib.sqrt(a), false))
    else if name == "abs" then Flagged(AbsReal(a), false)
    else if name == "ln" then (if a <= 0.0 then Flagged(0.0, true) else Flagged(lib.log(a), false))
    else if name == "log" then (if a <= 0.0 then Flagged(0.0, true) else Flagged(lib.log10(a), false))
    else if name == "exp" then Flagged(lib.exp(a), false)
    else if name == "fact" then
      (if a < 0.0 || a.Floor as real != a then Flagged(0.0, true) else Flagged(Fact(TruncToInt(a)), false))
    else if name == "sin" then Flagged(lib.sin(DegreesToRadians(a)), false)
    else if name == "cos" then Flagged(lib.cos(DegreesToRadians(a)), false)
    else if name == "tan" then Flagged(lib.tan(DegreesToRadians(a)), false)
    else Flagged(0.0, true)
  }

  /** The names are matched exactly: `Sqrt`, say, is unknown. */
  lemma NamesAreCaseSensitive(a: real, lib: Libm)
    ensures ApplyFunction("Sqrt", a, lib) == Flagged(0.0, true)
  {
  }

  /** `fact` of the integers 0..5: 1, 1, 2, 6, 24, 120. */
  lemma SmallFactorials(lib: Libm)
    ensures ApplyFunction("fact", 0.0, lib) == Flagged(1.0, false)
    ensures ApplyFunction("fact", 1.0, lib) == Flagged(1.0, false)
    ensures ApplyFunction("fact", 5.0, lib) == Flagged(120.0, false)
    ensures ApplyFunction("fact", 2.5, lib).error
  {
    assert TruncToInt(5.0) == 5;
    assert Fact(5) == Fact(4) * 5.0;
    assert Fact(4) == Fact(3) * 4.0;
    assert Fact(3) == Fact(2) * 3.0;
    assert (2.5).Floor == 2;
  }
}
