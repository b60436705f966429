/**
 * `evaluate_expression` (Calculator.c): text to tokens, tokens to postfix, postfix to
 * a value. A failing stage raises the error flag and yields 0; the flag is never
 * lowered, so the caller sees an error once any stage has raised it.
 */
module Calculator {
  import opened Wrappers
  import opened CLib
  import opened CalcLexer
  import opened CalcPostfix
  import opened CalcPostfixProps
  import opened CalcArith
  import opened CalcEval

  /** The value of `expr` with `Ans` standing for `last`, and the flag as the caller passed it in as `error`. */
  function Evaluate(expr: string, last: real, error: bool, lib: Libm): Flagged {
    match Tokens(expr, last, lib.scanReal)
    case None => Flagged(0.0, true)
    case Some(ts) =>
      match Shunt(ts)
      case None => Flagged(0.0, true)
      case Some(postfix) => EvalPostfix(postfix, error, lib)
  }

  /** `evaluate_expression`: the three stages run in turn, each failure ending the run. */
  method EvaluateExpression(expr: string, last: real, error0: bool, lib: Libm) returns (value: real, error: bool)
    requires '\0' !in expr
    ensures Flagged(value, error) == Evaluate(expr, last, error0, lib)
  {
    var tokens := Tokenize(expr, last, lib.scanReal);
    if tokens.None? {
      return 0.0, true;
    }
    var postfix := ToPostfix(tokens.value);
    if postfix.None? {
      return 0.0, true;
    }
    value, error := EvaluatePostfix(postfix.value, error0, lib);
  }

  /** The flag is sticky across the whole pipeline: raised before, raised after. */
  lemma FlagIsSticky(expr: string, last: real, lib: Libm)
    ensures Evaluate(expr, last, true, lib).error
  {
  }

  /**
   * Each stage's own failure is an error with value 0: a stray character, unbalanced
   * parentheses, or a postfix form whose stack heights do not work out.
   */
  lemma {:induction false} StageFailures(expr: string, last: real, error: bool, lib: Libm)
    ensures (exists k :: 0 <= k < |expr| && Stray(expr, k)) ==>
      Evaluate(expr, last, error, lib) == Flagged(0.0, true)
    ensures (match Tokens(expr, last, lib.scanReal)
             case Some(ts) => !Balanced(ts, 0)
             case None => false) ==>
      Evaluate(expr, last, error, lib) == Flagged(0.0, true)
    ensures (match Tokens(expr, last, lib.scanReal)
             case Some(ts) => (match Shunt(ts) case Some(p) => !WellShaped(p, 0) case None => false)
             case None => false) ==>
      Evaluate(expr, last, error, lib) == Flagged(0.0, true)
  {
    TokensFailIffStray(expr, last, lib.scanReal);
    match Tokens(expr, last, lib.scanReal)
    case None =>
    case Some(ts) =>
      ShuntFailsIffUnbalanced(ts);
      match Shunt(ts)
      case None =>
      case Some(p) =>
        if !WellShaped(p, 0) {
          IllShapedFails(p, [], error, lib);
        }
  }

  /**
   * A result without the error comes from balanced parentheses and a postfix form with
   * one more number than operators.
   */
  lemma {:induction false} SuccessShape(expr: string, last: real, error: bool, lib: Libm)
    requires !Evaluate(expr, last, error, lib).error
    ensures Tokens(expr, last, lib.scanReal).Some?
    ensures Balanced(Tokens(expr, last, lib.scanReal).value, 0)
    ensures Shunt(Tokens(expr, last, lib.scanReal).value).Some?
    ensures var p := Shunt(Tokens(expr, last, lib.scanReal).value).value;
      WellShaped(p, 0) && NetEffect(p) == 1
  {
    var ts := Tokens(expr, last, lib.scanReal).value;
    ShuntFailsIffUnbalanced(ts);
    var p := Shunt(ts).value;
    if !WellShaped(p, 0) {
      IllShapedFails(p, [], error, lib);
    }
    WellShapedHeight(p, 0);
  }

  /** There is no unary minus: "-3" is an operator with one value under it, so an error. */
  lemma {:induction false} NegativeLiteralFails(last: real, lib: Libm)
    ensures Evaluate("-3", last, false, lib) == Flagged(0.0, true)
  {
    MinusThreeTokens(last, lib.scanReal);
    var three := Number(lib.scanReal("3"));
    var ts := [Operator('-'), three];
    var y1 := Yard([], [Operator('-')]);
    var y2 := Yard([three], [Operator('-')]);
    assert Step(Yard([], []), Operator('-')) == Some(y1) by {
      assert PopOperators(Yard([], []), '-') == Yard([], []);
      assert [] + [Operator('-')] == [Operator('-')];
    }
    assert Step(y1, three) == Some(y2) by {
      assert y1.out + [three] == [three];
    }
    assert Drain(y2) == Some([three, Operator('-')]) by {
      assert Pop(y2.stack) == [] && Top(y2.stack) == Operator('-');
      assert y2.out + [Operator('-')] == [three, Operator('-')];
      assert Drain(y2) == Drain(Yard([three, Operator('-')], []));
    }
    assert ts[1..] == [three] && ts[1..][1..] == [];
    assert Run(ts[1..], y1) == Run([], y2);
    assert Shunt(ts) == Run(ts[1..], y1);
    var p := [three, Operator('-')];
    assert p[1..] == [Operator('-')];
    assert !WellShaped(p, 0);
    IllShapedFails(p, [], false, lib);
  }
}
