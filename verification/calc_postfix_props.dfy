/**
 * What the infix-to-postfix conversion promises: parentheses are matched and dropped,
 * nothing else is lost or invented, and the numbers keep their input order.
 */
module CalcPostfixProps {
  import opened Wrappers
  import opened CalcLexer
  import opened CalcPostfix

  lemma {:induction false} StripAppend(a: seq<Token>, b: seq<Token>)
    ensures Strip(a + b) == Strip(a) + Strip(b)
    decreases |b|
  {
    if |b| == 0 {
      assert a + b == a;
    } else {
      assert Pop(a + b) == a + Pop(b);
      StripAppend(a, Pop(b));
    }
  }

  lemma {:induction false} NumbersAppend(a: seq<Token>, b: seq<Token>)
    ensures Numbers(a + b) == Numbers(a) + Numbers(b)
    decreases |b|
  {
    if |b| == 0 {
      assert a + b == a;
    } else {
      assert Pop(a + b) == a + Pop(b);
      NumbersAppend(a, Pop(b));
    }
  }

  lemma {:induction false} LCountAppend(a: seq<Token>, b: seq<Token>)
    ensures LCount(a + b) == LCount(a) + LCount(b)
    decreases |b|
  {
    if |b| == 0 {
      assert a + b == a;
    } else {
      assert Pop(a + b) == a + Pop(b);
      LCountAppend(a, Pop(b));
    }
  }

  lemma {:induction false} ParenCountAppend(a: seq<Token>, b: seq<Token>)
    ensures ParenCount(a + b) == ParenCount(a) + ParenCount(b)
    decreases |b|
  {
    if |b| == 0 {
      assert a + b == a;
    } else {
      assert Pop(a + b) == a + Pop(b);
      ParenCountAppend(a, Pop(b));
    }
  }

  lemma {:induction false} MisfitCountAppend(a: seq<Token>, b: seq<Token>)
    ensures MisfitCount(a + b) == MisfitCount(a) + MisfitCount(b)
    decreases |b|
  {
    if |b| == 0 {
      assert a + b == a;
    } else {
      assert Pop(a + b) == a + Pop(b);
      MisfitCountAppend(a, Pop(b));
    }
  }

  /** Every count and filter above distributes over concatenation. */
  lemma SplitAppend(a: seq<Token>, b: seq<Token>)
    ensures Strip(a + b) == Strip(a) + Strip(b)
    ensures Numbers(a + b) == Numbers(a) + Numbers(b)
    ensures LCount(a + b) == LCount(a) + LCount(b)
    ensures ParenCount(a + b) == ParenCount(a) + ParenCount(b)
    ensures MisfitCount(a + b) == MisfitCount(a) + MisfitCount(b)
  {
    StripAppend(a, b);
    NumbersAppend(a, b);
    LCountAppend(a, b);
    ParenCountAppend(a, b);
    MisfitCountAppend(a, b);
  }

  lemma {:induction false} SplitCons(t: Token, ts: seq<Token>)
    ensures Strip([t] + ts) == (if IsParen(t) then [] else [t]) + Strip(ts)
    ensures Numbers([t] + ts) == (if t.Number? then [t] else []) + Numbers(ts)
    ensures ParenCount([t] + ts) == (if IsParen(t) then 1 else 0) + ParenCount(ts)
  {
    SplitAppend([t], ts);
    assert Pop([t]) == [];
  }

  lemma {:induction false} StripLength(ts: seq<Token>)
    ensures |Strip(ts)| + ParenCount(ts) == |ts|
    decreases |ts|
  {
    if |ts| > 0 {
      StripLength(Pop(ts));
    }
  }

  /** Moving one stack top that is not `(` to the output keeps everything that matters. */
  lemma {:induction false} MoveTop(y: Yard)
    requires Good(y) && |y.stack| > 0 && !Top(y.stack).LParen?
    ensures var z := Yard(y.out + [Top(y.stack)], Pop(y.stack));
      Good(z) && Content(z) == Content(y) && LCount(z.stack) == LCount(y.stack) &&
      Numbers(z.out) == Numbers(y.out)
  {
    assert Pop(y.out + [Top(y.stack)]) == y.out;
  }

  lemma {:induction false} PopOperatorsKeeps(y: Yard, op: char)
    requires Good(y)
    ensures var z := PopOperators(y, op);
      Good(z) && Content(z) == Content(y) && LCount(z.stack) == LCount(y.stack) &&
      Numbers(z.out) == Numbers(y.out)
    decreases |y.stack|
  {
    if |y.stack| > 0 && PopsBefore(Top(y.stack), op) {
      MoveTop(y);
      PopOperatorsKeeps(Yard(y.out + [Top(y.stack)], Pop(y.stack)), op);
    }
  }

  lemma {:induction false} PopToParenKeeps(y: Yard)
    requires Good(y)
    ensures var z := PopToParen(y);
      Good(z) && Content(z) == Content(y) && LCount(z.stack) == LCount(y.stack) &&
      Numbers(z.out) == Numbers(y.out) && (|z.stack| == 0 || Top(z.stack).LParen?)
    decreases |y.stack|
  {
    if |y.stack| > 0 && !Top(y.stack).LParen? {
      MoveTop(y);
      PopToParenKeeps(Yard(y.out + [Top(y.stack)], Pop(y.stack)));
    }
  }

  lemma {:induction false} DrainProps(y: Yard)
    requires Good(y)
    ensures Drain(y).None? <==> LCount(y.stack) > 0
    ensures Drain(y).Some? ==>
      (ParenCount(Drain(y).value) == 0 &&
       multiset(Drain(y).value) == Content(y) && Numbers(Drain(y).value) == Numbers(y.out))
    decreases |y.stack|
  {
    if |y.stack| > 0 {
      assert y.stack == Pop(y.stack) + [Top(y.stack)];
      SplitAppend(Pop(y.stack), [Top(y.stack)]);
      if !Top(y.stack).LParen? {
        MoveTop(y);
        DrainProps(Yard(y.out + [Top(y.stack)], Pop(y.stack)));
      }
    }
  }

  lemma {:induction false} PushKeeps(y: Yard, t: Token)
    requires Good(y) && (t.Operator? || t.Function? || t.LParen?)
    ensures var z := Yard(y.out, y.stack + [t]);
      Good(z) && Content(z) == Content(y) + multiset(Strip([t])) &&
      LCount(z.stack) == LCount(y.stack) + (if t.LParen? then 1 else 0)
  {
    SplitAppend(y.stack, [t]);
    SplitCons(t, []);
  }

  lemma {:induction false} StepPush(y: Yard, t: Token)
    requires Good(y) && (t.Operator? || t.Function? || t.LParen?)
    ensures StepInvariant(y, t, Yard(y.out, y.stack + [t]))
  {
    PushKeeps(y, t);
    assert Numbers([t]) == [] by {
      assert Pop([t]) == [];
    }
    assert Numbers(y.out) + Numbers([t]) == Numbers(y.out);
    assert Depth(t, LCount(y.stack)) == LCount(y.stack) + (if t.LParen? then 1 else 0);
  }

  /** Popping the `(` on top of the stack drops nothing the output will hold. */
  lemma {:induction false} DropLParen(y: Yard)
    requires Good(y) && |y.stack| > 0 && Top(y.stack).LParen?
    ensures var z := Yard(y.out, Pop(y.stack));
      Good(z) && Content(z) == Content(y) && LCount(z.stack) == LCount(y.stack) - 1
  {
  }

  lemma {:induction false} StepNumber(y: Yard, t: Token)
    requires Good(y) && t.Number?
    ensures StepInvariant(y, t, Yard(y.out + [t], y.stack))
  {
    SplitCons(t, []);
    SplitAppend(y.out, [t]);
  }

  /** A `)` step: it fails exactly when no `(` is open, and otherwise keeps the state's shape. */
  lemma {:induction false} CloseProps(y: Yard)
    requires Good(y)
    ensures Close(y).None? <==> LCount(y.stack) == 0
    ensures Close(y).Some? ==> var z := Close(y).value;
      Good(z) && LCount(z.stack) == LCount(y.stack) - 1 &&
      Content(z) == Content(y) && Numbers(z.out) == Numbers(y.out)
  {
    var z := PopToParen(y);
    PopToParenKeeps(y);
    if |z.stack| > 0 {
      DropLParen(z);
      var w := Yard(z.out, Pop(z.stack));
      if |w.stack| > 0 && Top(w.stack).Function? {
        MoveTop(w);
      }
    }
  }

  lemma {:induction false} NoParensOf(ts: seq<Token>)
    requires ParenCount(ts) == 0
    ensures NoParens(ts)
    decreases |ts|
  {
    if |ts| > 0 {
      NoParensOf(Pop(ts));
      assert ts == Pop(ts) + [Top(ts)];
    }
  }

  /** One conversion step keeps the state's shape and moves the token into it. */
  lemma {:induction false} StepProps(y: Yard, t: Token)
    requires Good(y)
    ensures Step(y, t).None? <==> t.RParen? && LCount(y.stack) == 0
    ensures Step(y, t).Some? ==> StepInvariant(y, t, Step(y, t).value)
  {
    match t
    case Number(_) => {
      StepNumber(y, t);
    }
    case Function(_) => {
      StepPush(y, t);
    }
    case LParen => {
      StepPush(y, t);
    }
    case Operator(op) => {
      StepOperator(y, op);
    }
    case RParen => {
      StepRParen(y);
    }
  }

  lemma {:induction false} StepOperator(y: Yard, op: char)
    requires Good(y)
    ensures Step(y, Operator(op)).Some?
    ensures StepInvariant(y, Operator(op), Step(y, Operator(op)).value)
  {
    PopOperatorsKeeps(y, op);
    StepPush(PopOperators(y, op), Operator(op));
  }

  lemma {:induction false} StepRParen(y: Yard)
    requires Good(y)
    ensures Step(y, RParen).None? <==> LCount(y.stack) == 0
    ensures Step(y, RParen).Some? ==> StepInvariant(y, RParen, Step(y, RParen).value)
  {
    CloseProps(y);
    SplitCons(RParen, []);
  }

  lemma {:induction false} BalancedCons(t: Token, rest: seq<Token>, d: nat)
    ensures Balanced([t] + rest, d) <==> Depth(t, d) >= 0 && Balanced(rest, Depth(t, d))
  {
    assert ([t] + rest)[0] == t && ([t] + rest)[1..] == rest;
  }

  /**
   * The conversion from any reachable state fails exactly when the remaining input
   * does not close the `(` still open on the stack properly.
   */
  lemma {:induction false} RunFails(ts: seq<Token>, y: Yard)
    requires Good(y)
    ensures Run(ts, y).None? <==> !Balanced(ts, LCount(y.stack))
    decreases |ts|
  {
    if |ts| == 0 {
      DrainProps(y);
    } else {
      var t, rest := ts[0], ts[1..];
      assert ts == [t] + rest;
      BalancedCons(t, rest, LCount(y.stack));
      StepProps(y, t);
      if Step(y, t).Some? {
        RunFails(rest, Step(y, t).value);
      }
    }
  }

  /**
   * On success, the conversion from any reachable state outputs the state's content
   * plus the remaining input's non-parenthesis tokens, with the numbers appended in
   * input order.
   */
  lemma {:induction false} RunOutput(ts: seq<Token>, y: Yard, out: seq<Token>)
    requires Good(y) && Run(ts, y) == Some(out)
    ensures ParenCount(out) == 0
    ensures multiset(out) == Content(y) + multiset(Strip(ts))
    ensures Numbers(out) == Numbers(y.out) + Numbers(ts)
    decreases |ts|
  {
    if |ts| == 0 {
      DrainProps(y);
    } else {
      var t, rest := ts[0], ts[1..];
      assert ts == [t] + rest;
      StepProps(y, t);
      var z := Step(y, t).value;
      RunOutput(rest, z, out);
      ContentStep(Content(y), Content(z), t, rest, out);
      NumbersStep(Numbers(y.out), Numbers(z.out), t, rest, out);
    }
  }

  /** The bookkeeping of one step of RunOutput's induction, for the content. */
  lemma {:induction false} ContentStep(cy: multiset<Token>, cz: multiset<Token>, t: Token, rest: seq<Token>, out: seq<Token>)
    requires cz == cy + multiset(Strip([t]))
    requires multiset(out) == cz + multiset(Strip(rest))
    ensures multiset(out) == cy + multiset(Strip([t] + rest))
  {
    StripAppend([t], rest);
  }

  /** The bookkeeping of one step of RunOutput's induction, for the numbers. */
  lemma {:induction false} NumbersStep(ny: seq<Token>, nz: seq<Token>, t: Token, rest: seq<Token>, out: seq<Token>)
    requires nz == ny + Numbers([t])
    requires Numbers(out) == nz + Numbers(rest)
    ensures Numbers(out) == ny + Numbers([t] + rest)
  {
    NumbersAppend([t], rest);
  }

  /** `to_postfix` returns -1 exactly when the parentheses are unbalanced. */
  lemma {:induction false} ShuntFailsIffUnbalanced(ts: seq<Token>)
    ensures Shunt(ts).None? <==> !Balanced(ts, 0)
  {
    RunFails(ts, Yard([], []));
  }

  /**
   * On success the postfix output holds no parenthesis, is a rearrangement of exactly
   * the input's other tokens (so it is as long as the input less its parentheses),
   * and lists the NUMBER tokens in their input order.
   */
  lemma {:induction false} ShuntOutput(ts: seq<Token>, out: seq<Token>)
    requires Shunt(ts) == Some(out)
    ensures NoParens(out)
    ensures multiset(out) == multiset(Strip(ts))
    ensures |out| == |ts| - ParenCount(ts)
    ensures Numbers(out) == Numbers(ts)
  {
    RunOutput(ts, Yard([], []), out);
    NoParensOf(out);
    StripLength(ts);
    assert |multiset(out)| == |out|;
    assert |multiset(Strip(ts))| == |Strip(ts)|;
  }

  /** A stack's tokens in the order they come off it: top first. */
  function Reverse(s: seq<Token>): seq<Token>
    decreases |s|
  {
    if |s| == 0 then [] else [s[|s| - 1]] + Reverse(s[..|s| - 1])
  }

  /**
   * An incoming operator pops exactly the run of stack tops that pop before it: what is
   * left is a bottom part of the stack whose top (if any) stays, and the popped tokens
   * reach the output top first.
   */
  lemma {:induction false} PopOperatorsPops(y: Yard, op: char)
    ensures var z := PopOperators(y, op);
      |z.stack| <= |y.stack| && z.stack == y.stack[..|z.stack|] &&
      z.out == y.out + Reverse(y.stack[|z.stack|..]) &&
      (|z.stack| > 0 ==> !PopsBefore(Top(z.stack), op)) &&
      (forall k :: |z.stack| <= k < |y.stack| ==> PopsBefore(y.stack[k], op))
    decreases |y.stack|
  {
    var z := PopOperators(y, op);
    if |y.stack| > 0 && PopsBefore(Top(y.stack), op) {
      var t := Top(y.stack);
      var rest := Pop(y.stack);
      PopOperatorsPops(Yard(y.out + [t], rest), op);
      var m := |z.stack|;
      assert z.stack == y.stack[..m];
      var moved := y.stack[m..];
      assert moved[|moved| - 1] == t && moved[..|moved| - 1] == rest[m..];
      assert (y.out + [t]) + Reverse(rest[m..]) == y.out + Reverse(moved);
      forall k | m <= k < |y.stack|
        ensures PopsBefore(y.stack[k], op)
      {
        if k < |rest| {
          assert y.stack[k] == rest[k];
        }
      }
    } else {
      assert y.stack[|y.stack|..] == [];
      assert y.stack[..|y.stack|] == y.stack;
    }
  }

  /** A `)` pops the run of stack tops above the nearest `(`, top first, and no further. */
  lemma {:induction false} PopToParenPops(y: Yard)
    ensures var z := PopToParen(y);
      |z.stack| <= |y.stack| && z.stack == y.stack[..|z.stack|] &&
      z.out == y.out + Reverse(y.stack[|z.stack|..]) &&
      (|z.stack| > 0 ==> Top(z.stack).LParen?) &&
      (forall k :: |z.stack| <= k < |y.stack| ==> !y.stack[k].LParen?)
    decreases |y.stack|
  {
    var z := PopToParen(y);
    if |y.stack| > 0 && !Top(y.stack).LParen? {
      var t := Top(y.stack);
      var rest := Pop(y.stack);
      PopToParenPops(Yard(y.out + [t], rest));
      var m := |z.stack|;
      assert z.stack == y.stack[..m];
      var moved := y.stack[m..];
      assert moved[|moved| - 1] == t && moved[..|moved| - 1] == rest[m..];
      assert (y.out + [t]) + Reverse(rest[m..]) == y.out + Reverse(moved);
      forall k | m <= k < |y.stack|
        ensures !y.stack[k].LParen?
      {
        if k < |rest| {
          assert y.stack[k] == rest[k];
        }
      }
    } else {
      assert y.stack[|y.stack|..] == [];
      assert y.stack[..|y.stack|] == y.stack;
    }
  }

  /**
   * A `)` fails exactly when the stack holds no `(`. Otherwise, with `p` the position of
   * the topmost `(`: the tokens above it reach the output top first, the `(` is dropped,
   * and a FUNCTION right under it is emitted after them.
   */
  lemma CloseResult(y: Yard)
    ensures Close(y).None? <==> forall k :: 0 <= k < |y.stack| ==> !y.stack[k].LParen?
    ensures Close(y).Some? ==>
      var p := |PopToParen(y).stack| - 1;
      0 <= p < |y.stack| && y.stack[p].LParen? &&
      (forall k :: p < k < |y.stack| ==> !y.stack[k].LParen?) &&
      Close(y).value ==
        if p > 0 && y.stack[p - 1].Function? then
          Yard(y.out + Reverse(y.stack[p + 1..]) + [y.stack[p - 1]], y.stack[..p - 1])
        else Yard(y.out + Reverse(y.stack[p + 1..]), y.stack[..p])
  {
    PopToParenPops(y);
    var z := PopToParen(y);
    if |z.stack| > 0 {
      var p := |z.stack| - 1;
      assert y.stack[p] == Top(z.stack);
      var s := Pop(z.stack);
      assert s == y.stack[..p];
      if p > 0 {
        assert Top(s) == y.stack[p - 1] && Pop(s) == y.stack[..p - 1];
      }
    }
  }

  // Worked conversions.

  /** Running from a state: one step, then the rest. */
  lemma RunStep(ts: seq<Token>, y: Yard, z: Yard)
    requires |ts| > 0 && Step(y, ts[0]) == Some(z)
    ensures Run(ts, y) == Run(ts[1..], z)
  {
  }

  /** Binary `^` is right-associative: a^b^c becomes a b c ^ ^, the second power taken first. */
  lemma PowerGroupsRight(a: real, b: real, c: real)
    ensures Shunt([Number(a), Operator('^'), Number(b), Operator('^'), Number(c)]) ==
      Some([Number(a), Number(b), Number(c), Operator('^'), Operator('^')])
  {
    var p := Operator('^');
    OperandOperatorOperand([Number(a), p, Number(b), p, Number(c)]);
    KeepThenDrain(Number(a), Number(b), Number(c), p, p);
  }

  /** Binary `-` is left-associative: a-b-c becomes a b - c -, the first difference taken first. */
  lemma MinusGroupsLeft(a: real, b: real, c: real)
    ensures Shunt([Number(a), Operator('-'), Number(b), Operator('-'), Number(c)]) ==
      Some([Number(a), Number(b), Operator('-'), Number(c), Operator('-')])
  {
    var m := Operator('-');
    OperandOperatorOperand([Number(a), m, Number(b), m, Number(c)]);
    PopThenDrain(Number(a), Number(b), Number(c), m, m);
  }

  /** `*` binds tighter than `+`: a+b*c becomes a b c * +. */
  lemma ProductBeforeSum(a: real, b: real, c: real)
    ensures Shunt([Number(a), Operator('+'), Number(b), Operator('*'), Number(c)]) ==
      Some([Number(a), Number(b), Number(c), Operator('*'), Operator('+')])
  {
    OperandOperatorOperand([Number(a), Operator('+'), Number(b), Operator('*'), Number(c)]);
    KeepThenDrain(Number(a), Number(b), Number(c), Operator('+'), Operator('*'));
  }

  /** The first three tokens n1 o n2 of a binary expression: both numbers out, the operator stacked. */
  lemma OperandOperatorOperand(ts: seq<Token>)
    requires |ts| == 5 && ts[0].Number? && ts[1].Operator? && ts[2].Number?
    ensures Shunt(ts) == Run(ts[3..], Yard([ts[0], ts[2]], [ts[1]]))
  {
    var na, o, nb := ts[0], ts[1], ts[2];
    var y1, y2, y3 := Yard([na], []), Yard([na], [o]), Yard([na, nb], [o]);
    assert Step(Yard([], []), na) == Some(y1) by {
      assert [] + [na] == [na];
    }
    assert Step(y1, o) == Some(y2) by {
      assert PopOperators(y1, o.op) == y1;
      assert [] + [o] == [o];
    }
    assert Step(y2, nb) == Some(y3) by {
      assert [na] + [nb] == [na, nb];
    }
    RunStep(ts, Yard([], []), y1);
    RunStep(ts[1..], y1, y2);
    RunStep(ts[2..], y2, y3);
    assert ts[1..][1..] == ts[2..] && ts[2..][1..] == ts[3..];
  }

  /** A second operator that does not pop the first is stacked above it; both then come out, second first. */
  lemma KeepThenDrain(na: Token, nb: Token, nc: Token, o1: Token, o2: Token)
    requires nc.Number? && o1.Operator? && o2.Operator? && !PopsBefore(o1, o2.op)
    ensures Run([o2, nc], Yard([na, nb], [o1])) == Some([na, nb, nc, o2, o1])
  {
    var y3, y4, y5 := Yard([na, nb], [o1]), Yard([na, nb], [o1, o2]), Yard([na, nb, nc], [o1, o2]);
    assert Step(y3, o2) == Some(y4) by {
      assert Top([o1]) == o1;
      assert PopOperators(y3, o2.op) == y3;
      assert [o1] + [o2] == [o1, o2];
    }
    assert Step(y4, nc) == Some(y5) by {
      assert [na, nb] + [nc] == [na, nb, nc];
    }
    assert Drain(y5) == Some([na, nb, nc, o2, o1]) by {
      assert Top([o1, o2]) == o2 && Pop([o1, o2]) == [o1];
      assert [na, nb, nc] + [o2] == [na, nb, nc, o2];
      assert Drain(y5) == Drain(Yard([na, nb, nc, o2], [o1]));
      assert Top([o1]) == o1 && Pop([o1]) == [];
      assert [na, nb, nc, o2] + [o1] == [na, nb, nc, o2, o1];
      assert Drain(Yard([na, nb, nc, o2], [o1])) == Drain(Yard([na, nb, nc, o2, o1], []));
    }
    RunStep([o2, nc], y3, y4);
    assert [o2, nc][1..] == [nc];
    RunStep([nc], y4, y5);
    assert [nc][1..] == [];
  }

  /** A second operator that pops the first sends it out before the last number. */
  lemma PopThenDrain(na: Token, nb: Token, nc: Token, o1: Token, o2: Token)
    requires nc.Number? && o1.Operator? && o2.Operator? && PopsBefore(o1, o2.op)
    ensures Run([o2, nc], Yard([na, nb], [o1])) == Some([na, nb, o1, nc, o2])
  {
    var y3, y4, y5 := Yard([na, nb], [o1]), Yard([na, nb, o1], [o2]), Yard([na, nb, o1, nc], [o2]);
    assert Step(y3, o2) == Some(y4) by {
      assert Top([o1]) == o1 && Pop([o1]) == [];
      assert [na, nb] + [o1] == [na, nb, o1];
      assert PopOperators(y3, o2.op) == PopOperators(Yard([na, nb, o1], []), o2.op);
      assert [] + [o2] == [o2];
    }
    assert Step(y4, nc) == Some(y5) by {
      assert [na, nb, o1] + [nc] == [na, nb, o1, nc];
    }
    assert Drain(y5) == Some([na, nb, o1, nc, o2]) by {
      assert Top([o2]) == o2 && Pop([o2]) == [];
      assert [na, nb, o1, nc] + [o2] == [na, nb, o1, nc, o2];
    }
    RunStep([o2, nc], y3, y4);
    assert [o2, nc][1..] == [nc];
    RunStep([nc], y4, y5);
    assert [nc][1..] == [];
  }
}
