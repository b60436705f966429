/**
 * What the calculator's pipeline means: an expression tree, its fully parenthesized
 * token form, its postfix form and its value computed on the tree. The conversion
 * turns the token form into the postfix form, and the evaluator gives the tree's value,
 * so `evaluate_expression` (Calculator.c) computes the value of the expression written.
 */
module CalcExpr {
  import opened Wrappers
  import opened CLib
  import opened CalcLexer
  import opened CalcPostfix
  import opened CalcArith
  import opened CalcEval
  import opened Calculator

  /** An expression: a number, a binary operator on two operands, or a named function of one. */
  datatype Expr =
    | Num(v: real)
    | Bin(op: char, left: Expr, right: Expr)
    | Call(name: string, arg: Expr)

  /** The tokens of the expression written with every operation in its own parentheses. */
  function Infix(e: Expr): seq<Token> {
    match e
    case Num(v) => [Number(v)]
    case Bin(op, l, r) => [LParen] + (Infix(l) + ([Operator(op)] + (Infix(r) + [RParen])))
    case Call(f, a) => [Function(f)] + ([LParen] + (Infix(a) + [RParen]))
  }

  /** The postfix form: the operands first, then the operation. */
  function Post(e: Expr): seq<Token> {
    match e
    case Num(v) => [Number(v)]
    case Bin(op, l, r) => Post(l) + Post(r) + [Operator(op)]
    case Call(f, a) => Post(a) + [Function(f)]
  }

  /**
   * The value of the tree: each operation applied to the values of its operands, with
   * the error raised when any operation on the way fails.
   */
  function Val(e: Expr, lib: Libm): Flagged {
    match e
    case Num(v) => Flagged(v, false)
    case Bin(op, l, r) =>
      var a, b := Val(l, lib), Val(r, lib);
      var f := ApplyOperator(op, a.value, b.value, lib);
      Flagged(f.value, a.error || b.error || f.error)
    case Call(name, x) =>
      var a := Val(x, lib);
      var f := ApplyFunction(name, a.value, lib);
      Flagged(f.value, a.error || f.error)
  }

  // ---------------------------------------------------------------------------
  // The conversion.

  /** An operator stack whose top is not a FUNCTION, which a `)` would move to the output. */
  predicate Open(stack: seq<Token>) {
    |stack| == 0 || !Top(stack).Function?
  }

  /** A step that succeeds hands the rest of the input on from the new state. */
  lemma RunCons(t: Token, rest: seq<Token>, y: Yard, z: Yard)
    requires Step(y, t) == Some(z)
    ensures Run([t] + rest, y) == Run(rest, z)
  {
    assert ([t] + rest)[0] == t && ([t] + rest)[1..] == rest;
  }

  /**
   * The conversion reads a parenthesized expression as one unit: it appends the
   * expression's postfix form to the output and leaves the operator stack as it found it.
   */
  lemma {:induction false} ShuntInfix(e: Expr, rest: seq<Token>, y: Yard)
    requires Open(y.stack)
    ensures Run(Infix(e) + rest, y) == Run(rest, Yard(y.out + Post(e), y.stack))
    decreases e, 2
  {
    match e
    case Num(v) =>
      RunCons(Number(v), rest, y, Yard(y.out + Post(e), y.stack));
    case Bin(op, l, r) =>
      ShuntBin(op, l, r, rest, y);
    case Call(f, a) =>
      ShuntCall(f, a, rest, y);
  }

  lemma {:induction false} ShuntBin(op: char, l: Expr, r: Expr, rest: seq<Token>, y: Yard)
    requires Open(y.stack)
    ensures Run(Infix(Bin(op, l, r)) + rest, y) == Run(rest, Yard(y.out + Post(Bin(op, l, r)), y.stack))
    decreases Bin(op, l, r), 1
  {
    var tail := [RParen] + rest;
    var y3 := Yard(y.out + Post(l), y.stack + [LParen] + [Operator(op)]);
    var y4 := Yard(y3.out + Post(r), y3.stack);
    var out := y4.out + [Operator(op)];
    calc {
      Run(Infix(Bin(op, l, r)) + rest, y);
      { ShuntLeft(op, l, r, rest, y); }
      Run(Infix(r) + tail, y3);
      { ShuntInfix(r, tail, y3); }
      Run(tail, y4);
      { CloseOperator(y4.out, y.stack, op); RunCons(RParen, rest, y4, Yard(out, y.stack)); }
      Run(rest, Yard(out, y.stack));
    }
    assert out == y.out + Post(Bin(op, l, r));
  }

  /** The first half of ShuntBin: the `(`, the left operand and the operator. */
  lemma {:induction false} ShuntLeft(op: char, l: Expr, r: Expr, rest: seq<Token>, y: Yard)
    requires Open(y.stack)
    ensures Run(Infix(Bin(op, l, r)) + rest, y) ==
      Run(Infix(r) + ([RParen] + rest), Yard(y.out + Post(l), y.stack + [LParen] + [Operator(op)]))
    decreases Bin(op, l, r), 0
  {
    var mid := [Operator(op)] + (Infix(r) + ([RParen] + rest));
    var y1 := Yard(y.out, y.stack + [LParen]);
    var y2 := Yard(y.out + Post(l), y1.stack);
    calc {
      Run(Infix(Bin(op, l, r)) + rest, y);
      { assert Infix(Bin(op, l, r)) + rest == [LParen] + (Infix(l) + mid); }
      Run([LParen] + (Infix(l) + mid), y);
      { RunCons(LParen, Infix(l) + mid, y, y1); }
      Run(Infix(l) + mid, y1);
      { ShuntInfix(l, mid, y1); }
      Run(mid, y2);
      { OperatorOnParen(y2.out, y.stack, op);
        RunCons(Operator(op), Infix(r) + ([RParen] + rest), y2, Yard(y2.out, y1.stack + [Operator(op)])); }
      Run(Infix(r) + ([RParen] + rest), Yard(y2.out, y1.stack + [Operator(op)]));
    }
  }

  /** An operator read right after a `(` goes onto the stack. */
  lemma OperatorOnParen(out: seq<Token>, stack: seq<Token>, op: char)
    ensures Step(Yard(out, stack + [LParen]), Operator(op)) == Some(Yard(out, stack + [LParen] + [Operator(op)]))
  {
    assert PopOperators(Yard(out, stack + [LParen]), op) == Yard(out, stack + [LParen]);
  }

  /** The `)` after "( operand op operand" moves the operator to the output and drops the `(`. */
  lemma CloseOperator(out: seq<Token>, stack: seq<Token>, op: char)
    requires Open(stack)
    ensures Step(Yard(out, stack + [LParen] + [Operator(op)]), RParen) == Some(Yard(out + [Operator(op)], stack))
  {
    var y := Yard(out, stack + [LParen] + [Operator(op)]);
    assert Pop(y.stack) == stack + [LParen] && Top(y.stack) == Operator(op);
    assert PopToParen(y) == PopToParen(Yard(out + [Operator(op)], stack + [LParen]));
    assert Pop(stack + [LParen]) == stack;
  }

  /** The `)` after "f ( operand" drops the `(` and moves the FUNCTION to the output. */
  lemma CloseCall(out: seq<Token>, stack: seq<Token>, f: string)
    ensures Step(Yard(out, stack + [Function(f)] + [LParen]), RParen) == Some(Yard(out + [Function(f)], stack))
  {
    var called := stack + [Function(f)];
    assert Pop(called + [LParen]) == called && Top(called) == Function(f) && Pop(called) == stack;
  }

  lemma {:induction false} ShuntCall(f: string, a: Expr, rest: seq<Token>, y: Yard)
    requires Open(y.stack)
    ensures Run(Infix(Call(f, a)) + rest, y) == Run(rest, Yard(y.out + Post(Call(f, a)), y.stack))
    decreases Call(f, a), 0
  {
    var tail := [RParen] + rest;
    var called := y.stack + [Function(f)];
    var y1 := Yard(y.out, called);
    var y2 := Yard(y.out, called + [LParen]);
    var y3 := Yard(y.out + Post(a), y2.stack);
    var out := y3.out + [Function(f)];
    calc {
      Run(Infix(Call(f, a)) + rest, y);
      { assert Infix(Call(f, a)) + rest == [Function(f)] + ([LParen] + (Infix(a) + tail)); }
      Run([Function(f)] + ([LParen] + (Infix(a) + tail)), y);
      { RunCons(Function(f), [LParen] + (Infix(a) + tail), y, y1); }
      Run([LParen] + (Infix(a) + tail), y1);
      { RunCons(LParen, Infix(a) + tail, y1, y2); }
      Run(Infix(a) + tail, y2);
      { ShuntInfix(a, tail, y2); }
      Run(tail, y3);
      { CloseCall(y3.out, y.stack, f); RunCons(RParen, rest, y3, Yard(out, y.stack)); }
      Run(rest, Yard(out, y.stack));
    }
    assert out == y.out + Post(Call(f, a));
  }

  /** The conversion of a fully parenthesized expression is its postfix form. */
  lemma ShuntOfInfix(e: Expr)
    ensures Shunt(Infix(e)) == Some(Post(e))
  {
    ShuntInfix(e, [], Yard([], []));
    assert Infix(e) + [] == Infix(e);
    assert [] + Post(e) == Post(e);
  }

  /** The outermost operation may go without parentheses: "l op r" converts to its postfix form too. */
  lemma ShuntOfBareBin(op: char, l: Expr, r: Expr)
    ensures Shunt(Infix(l) + ([Operator(op)] + Infix(r))) == Some(Post(Bin(op, l, r)))
  {
    var y1 := Yard(Post(l), []);
    ShuntInfix(l, [Operator(op)] + Infix(r), Yard([], []));
    assert [] + Post(l) == Post(l);
    var y2 := Yard(Post(l), [Operator(op)]);
    assert PopOperators(y1, op) == y1 && [] + [Operator(op)] == [Operator(op)];
    assert Step(y1, Operator(op)) == Some(y2);
    RunCons(Operator(op), Infix(r), y1, y2);
    ShuntInfix(r, [], y2);
    assert Infix(r) + [] == Infix(r);
    var out := Post(l) + Post(r);
    assert Drain(Yard(out, [Operator(op)])) == Drain(Yard(out + [Operator(op)], []));
  }

  // ---------------------------------------------------------------------------
  // The evaluation.

  /** The evaluator runs a postfix form as one unit: it pushes the tree's value and raises its error. */
  lemma {:induction false} ExecPost(e: Expr, rest: seq<Token>, stack: seq<real>, error: bool, lib: Libm)
    ensures Exec(Post(e) + rest, stack, error, lib) ==
      Exec(rest, stack + [Val(e, lib).value], error || Val(e, lib).error, lib)
    decreases e, 1
  {
    match e
    case Num(v) =>
      assert (Post(e) + rest)[0] == Number(v) && (Post(e) + rest)[1..] == rest;
    case Bin(op, l, r) =>
      ExecBin(op, l, r, rest, stack, error, lib);
    case Call(name, x) =>
      ExecCall(name, x, rest, stack, error, lib);
  }

  lemma {:induction false} ExecBin(op: char, l: Expr, r: Expr, rest: seq<Token>, stack: seq<real>, error: bool,
                                   lib: Libm)
    ensures Exec(Post(Bin(op, l, r)) + rest, stack, error, lib) ==
      Exec(rest, stack + [Val(Bin(op, l, r), lib).value], error || Val(Bin(op, l, r), lib).error, lib)
    decreases Bin(op, l, r), 0
  {
    var a, b := Val(l, lib), Val(r, lib);
    var tail := [Operator(op)] + rest;
    assert Post(Bin(op, l, r)) + rest == Post(l) + (Post(r) + tail);
    ExecPost(l, Post(r) + tail, stack, error, lib);
    var s1 := stack + [a.value];
    ExecPost(r, tail, s1, error || a.error, lib);
    var s2 := s1 + [b.value];
    assert s2[|s2| - 2] == a.value && s2[|s2| - 1] == b.value && s2[..|s2| - 2] == stack;
    assert tail[0] == Operator(op) && tail[1..] == rest;
  }

  lemma {:induction false} ExecCall(name: string, x: Expr, rest: seq<Token>, stack: seq<real>, error: bool,
                                    lib: Libm)
    ensures Exec(Post(Call(name, x)) + rest, stack, error, lib) ==
      Exec(rest, stack + [Val(Call(name, x), lib).value], error || Val(Call(name, x), lib).error, lib)
    decreases Call(name, x), 0
  {
    var a := Val(x, lib);
    var tail := [Function(name)] + rest;
    assert Post(Call(name, x)) + rest == Post(x) + tail;
    ExecPost(x, tail, stack, error, lib);
    var s1 := stack + [a.value];
    assert s1[|s1| - 1] == a.value && s1[..|s1| - 1] == stack;
    assert tail[0] == Function(name) && tail[1..] == rest;
  }

  /** Evaluating the postfix form gives the tree's value, with the caller's flag kept. */
  lemma EvalOfPost(e: Expr, error: bool, lib: Libm)
    ensures EvalPostfix(Post(e), error, lib) == Flagged(Val(e, lib).value, error || Val(e, lib).error)
  {
    ExecPost(e, [], [], error, lib);
    assert Post(e) + [] == Post(e);
    assert [] + [Val(e, lib).value] == [Val(e, lib).value];
  }

  /**
   * The whole pipeline keeps the meaning of what was written: text that reads as a
   * fully parenthesized expression evaluates to that expression's value.
   */
  lemma InfixKeepsMeaning(expr: string, last: real, error: bool, lib: Libm, e: Expr)
    requires Tokens(expr, last, lib.scanReal) == Some(Infix(e))
    ensures Evaluate(expr, last, error, lib) == Flagged(Val(e, lib).value, error || Val(e, lib).error)
  {
    ShuntOfInfix(e);
    EvalOfPost(e, error, lib);
  }

  /** The same for text whose outermost operation has no parentheses around it. */
  lemma BareBinKeepsMeaning(expr: string, last: real, error: bool, lib: Libm, op: char, l: Expr, r: Expr)
    requires Tokens(expr, last, lib.scanReal) == Some(Infix(l) + ([Operator(op)] + Infix(r)))
    ensures var v := Val(Bin(op, l, r), lib);
      Evaluate(expr, last, error, lib) == Flagged(v.value, error || v.error)
  {
    ShuntOfBareBin(op, l, r);
    EvalOfPost(Bin(op, l, r), error, lib);
  }
}
