/**
 * The postfix evaluator (`eval_postfix`, Calculator.c) and the stack-height
 * discipline it enforces. The error flag is sticky: an operator or function that fails
 * raises it and evaluation goes on, while a stack underflow, or a final stack that
 * does not hold exactly one value, stops with 0.
 */
module CalcEval {
  import opened CLib
  import opened CalcLexer
  import opened CalcArith

  /**
   * The evaluation of the remaining postfix input `ts` from value stack `stack` (top
   * last), with `error` the flag so far. Parentheses, which a converted expression
   * never holds, are passed over as the program's loop does.
   */
  function Exec(ts: seq<Token>, stack: seq<real>, error: bool, lib: Libm): (r: Flagged)
    ensures error ==> r.error
    decreases |ts|
  {
    if |ts| == 0 then
      if |stack| != 1 then Flagged(0.0, true) else Flagged(stack[0], error)
    else
      match ts[0]
      case Number(v) => Exec(ts[1..], stack + [v], error, lib)
      case Operator(op) =>
        if |stack| < 2 then Flagged(0.0, true)
        else
          var f := ApplyOperator(op, stack[|stack| - 2], stack[|stack| - 1], lib);
          Exec(ts[1..], stack[..|stack| - 2] + [f.value], error || f.error, lib)
      case Function(name) =>
        if |stack| < 1 then Flagged(0.0, true)
        else
          var f := ApplyFunction(name, stack[|stack| - 1], lib);
          Exec(ts[1..], stack[..|stack| - 1] + [f.value], error || f.error, lib)
      case _ => Exec(ts[1..], stack, error, lib)
  }

  /** `eval_postfix` on the whole converted expression, with the caller's flag `error`. */
  function EvalPostfix(ts: seq<Token>, error: bool, lib: Libm): Flagged {
    Exec(ts, [], error, lib)
  }

  /** `eval_postfix`: the loop over the tokens with a value stack and the shared flag. */
  method EvaluatePostfix(tokens: seq<Token>, error0: bool, lib: Libm) returns (value: real, error: bool)
    ensures Flagged(value, error) == EvalPostfix(tokens, error0, lib)
  {
    var stack: seq<real> := [];
    error := error0;
    for i := 0 to |tokens|
      invariant Exec(tokens[i..], stack, error, lib) == EvalPostfix(tokens, error0, lib)
    {
      assert tokens[i..][1..] == tokens[i + 1..];
      var t := tokens[i];
      match t {
        case Number(v) =>
          stack := stack + [v];
        case Operator(op) =>
          if |stack| < 2 {
            return 0.0, true;
          }
          var b := stack[|stack| - 1];
          var a := stack[|stack| - 2];
          stack := stack[..|stack| - 2];
          var f := ApplyOperator(op, a, b, lib);
          error := error || f.error;
          stack := stack + [f.value];
        case Function(name) =>
          if |stack| < 1 {
            return 0.0, true;
          }
          var a := stack[|stack| - 1];
          stack := stack[..|stack| - 1];
          var f := ApplyFunction(name, a, lib);
          error := error || f.error;
          stack := stack + [f.value];
        case LParen =>
        case RParen =>
      }
    }
    if |stack| != 1 {
      return 0.0, true;
    }
    return stack[0], error;
  }

  // ---------------------------------------------------------------------------
  // The stack-height discipline.

  /** How a token changes the height of the value stack. */
  function Effect(t: Token): int {
    match t
    case Number(_) => 1
    case Operator(_) => -1
    case _ => 0
  }

  /** How many values a token pops before it pushes its result. */
  function Needs(t: Token): nat {
    match t
    case Operator(_) => 2
    case Function(_) => 1
    case _ => 0
  }

  /** From height `h`, every token finds the values it needs, and exactly one value is left. */
  predicate WellShaped(ts: seq<Token>, h: int)
    decreases |ts|
  {
    if |ts| == 0 then h == 1
    else h >= Needs(ts[0]) && WellShaped(ts[1..], h + Effect(ts[0]))
  }

  /** The total height change of a token sequence. */
  function NetEffect(ts: seq<Token>): int
    decreases |ts|
  {
    if |ts| == 0 then 0 else Effect(ts[0]) + NetEffect(ts[1..])
  }

  /** A badly shaped input always ends in the error with value 0, whatever the numbers. */
  lemma {:induction false} IllShapedFails(ts: seq<Token>, stack: seq<real>, error: bool, lib: Libm)
    requires !WellShaped(ts, |stack|)
    ensures Exec(ts, stack, error, lib) == Flagged(0.0, true)
    decreases |ts|
  {
    if |ts| > 0 && |stack| >= Needs(ts[0]) {
      var rest := ts[1..];
      match ts[0]
      case Number(v) => IllShapedFails(rest, stack + [v], error, lib);
      case Operator(op) =>
        var f := ApplyOperator(op, stack[|stack| - 2], stack[|stack| - 1], lib);
        IllShapedFails(rest, stack[..|stack| - 2] + [f.value], error || f.error, lib);
      case Function(name) =>
        var f := ApplyFunction(name, stack[|stack| - 1], lib);
        IllShapedFails(rest, stack[..|stack| - 1] + [f.value], error || f.error, lib);
      case LParen => IllShapedFails(rest, stack, error, lib);
      case RParen => IllShapedFails(rest, stack, error, lib);
    }
  }

  /** Success leaves exactly one value: the stack grew by one less than it started with. */
  lemma {:induction false} WellShapedHeight(ts: seq<Token>, h: int)
    requires WellShaped(ts, h)
    ensures h + NetEffect(ts) == 1
    decreases |ts|
  {
    if |ts| > 0 {
      WellShapedHeight(ts[1..], h + Effect(ts[0]));
    }
  }

  /** The operators and functions that never raise the flag, whatever their operands. */
  predicate Total(t: Token) {
    match t
    case Operator(op) => op == '+' || op == '-' || op == '*' || op == '^'
    case Function(name) => name in {"abs", "exp", "sin", "cos", "tan"}
    case _ => true
  }

  /**
   * A well-shaped input of total operators and functions evaluates without raising the
   * flag: the flag afterwards is the flag before.
   */
  lemma {:induction false} TotalKeepsFlag(ts: seq<Token>, stack: seq<real>, error: bool, lib: Libm)
    requires WellShaped(ts, |stack|)
    requires forall k :: 0 <= k < |ts| ==> Total(ts[k])
    ensures Exec(ts, stack, error, lib).error == error
    decreases |ts|
  {
    if |ts| > 0 {
      var rest := ts[1..];
      assert forall k :: 0 <= k < |rest| ==> Total(rest[k]) by {
        forall k | 0 <= k < |rest| ensures Total(rest[k]) {
          assert rest[k] == ts[k + 1];
        }
      }
      assert Total(ts[0]);
      match ts[0]
      case Number(v) => TotalKeepsFlag(rest, stack + [v], error, lib);
      case Operator(op) =>
        var f := ApplyOperator(op, stack[|stack| - 2], stack[|stack| - 1], lib);
        TotalKeepsFlag(rest, stack[..|stack| - 2] + [f.value], error, lib);
      case Function(name) =>
        var f := ApplyFunction(name, stack[|stack| - 1], lib);
        TotalKeepsFlag(rest, stack[..|stack| - 1] + [f.value], error, lib);
      case LParen => TotalKeepsFlag(rest, stack, error, lib);
      case RParen => TotalKeepsFlag(rest, stack, error, lib);
    }
  }

  /** The value popped first is the right operand: "a b -" is a - b and "a b /" is a / b. */
  lemma OperandOrder(a: real, b: real, lib: Libm)
    ensures EvalPostfix([Number(a), Number(b), Operator('-')], false, lib) == Flagged(a - b, false)
    ensures b != 0.0 ==> EvalPostfix([Number(a), Number(b), Operator('/')], false, lib) == Flagged(a / b, false)
  {
    var minus := [Number(a), Number(b), Operator('-')];
    var divide := [Number(a), Number(b), Operator('/')];
    var ab := [a] + [b];
    assert ab[..0] == [] && ab[0] == a && ab[1] == b;
    assert minus[1..] == [Number(b), Operator('-')] && minus[1..][1..] == [Operator('-')];
    assert divide[1..] == [Number(b), Operator('/')] && divide[1..][1..] == [Operator('/')];
    assert [] + [a] == [a];
    assert Exec(minus, [], false, lib) == Exec(minus[1..], [a], false, lib);
    assert Exec(minus[1..], [a], false, lib) == Exec(minus[1..][1..], ab, false, lib);
    assert ApplyOperator('-', a, b, lib) == Flagged(a - b, false);
    assert Exec(minus[1..][1..], ab, false, lib) == Exec([], [] + [a - b], false, lib);
    if b != 0.0 {
      assert Exec(divide, [], false, lib) == Exec(divide[1..], [a], false, lib);
      assert Exec(divide[1..], [a], false, lib) == Exec(divide[1..][1..], ab, false, lib);
      assert ApplyOperator('/', a, b, lib) == Flagged(a / b, false);
      assert Exec(divide[1..][1..], ab, false, lib) == Exec([], [] + [a / b], false, lib);
    }
  }

  /** A flag raised midway stays raised, and the loop still runs to the end: 1/0 + 2 is an error with value 2. */
  lemma DivisionByZeroIsSticky(lib: Libm)
    ensures EvalPostfix([Number(1.0), Number(0.0), Operator('/'), Number(2.0), Operator('+')], false, lib) ==
      Flagged(2.0, true)
  {
    var ts := [Number(1.0), Number(0.0), Operator('/'), Number(2.0), Operator('+')];
    assert ts[1..][1..][1..][1..][1..] == [];
  }
}
