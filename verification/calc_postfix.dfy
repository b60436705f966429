/**
 * The infix-to-postfix conversion (`to_postfix`, Calculator.c): Dijkstra's
 * shunting-yard algorithm with an operator stack, together with the precedence and
 * associativity helpers it consults.
 */
module CalcPostfix {
  import opened Wrappers
  import opened CalcLexer

  /** `precedence`: 1 for + -, 2 for * / %, 3 for ^, and 0 for any other character. */
  function Precedence(op: char): (p: nat)
    ensures p <= 3
    ensures p == 0 <==> !IsOperatorChar(op)
    ensures p == 1 <==> op == '+' || op == '-'
    ensures p == 2 <==> op == '*' || op == '/' || op == '%'
    ensures p == 3 <==> op == '^'
  {
    match op
    case '+' => 1
    case '-' => 1
    case '*' => 2
    case '/' => 2
    case '%' => 2
    case '^' => 3
    case _ => 0
  }

  /** `is_right_associative`: only ^. */
  predicate IsRightAssociative(op: char): (r: bool)
    ensures r <==> IsOperatorChar(op) && Precedence(op) == 3
  {
    op == '^'
  }

  /**
   * Whether the stack top is emitted before the incoming operator `op` is pushed: a
   * FUNCTION always is; an OPERATOR is when it binds tighter, or equally tightly and
   * `op` is left-associative. A parenthesis never is.
   */
  predicate PopsBefore(top: Token, op: char): (r: bool)
    ensures r ==> top.Function? || top.Operator?
    ensures top.Function? ==> r
    ensures top.Operator? && top.op == op ==> (r <==> op != '^')
    ensures top.Operator? && top.op == '^' && op != '^' ==> r
    ensures top.Operator? && (top.op == '+' || top.op == '-') && (op == '*' || op == '/' || op == '%' || op == '^') ==> !r
    ensures top.Operator? && (top.op == '*' || top.op == '/' || top.op == '%') && (op == '+' || op == '-') ==> r
    ensures top.Operator? && (top.op == '+' || top.op == '-') && (op == '+' || op == '-') ==> r
    ensures top.Operator? && (top.op == '*' || top.op == '/' || top.op == '%') && (op == '*' || op == '/' || op == '%') ==> r
    ensures top.Operator? && (top.op == '*' || top.op == '/' || top.op == '%') && op == '^' ==> !r
  {
    top.Function? ||
    (top.Operator? &&
      (Precedence(top.op) > Precedence(op) ||
       (Precedence(top.op) == Precedence(op) && !IsRightAssociative(op))))
  }

  /** The converter's state: the output so far and the operator stack (top last). */
  datatype Yard = Yard(out: seq<Token>, stack: seq<Token>)

  function Top(s: seq<Token>): Token
    requires |s| > 0
  {
    s[|s| - 1]
  }

  function Pop(s: seq<Token>): seq<Token>
    requires |s| > 0
  {
    s[..|s| - 1]
  }

  /** Move stack tops to the output while they pop before `op`. */
  function PopOperators(y: Yard, op: char): (r: Yard)
    decreases |y.stack|
  {
    if |y.stack| > 0 && PopsBefore(Top(y.stack), op) then
      PopOperators(Yard(y.out + [Top(y.stack)], Pop(y.stack)), op)
    else y
  }

  /** Move stack tops to the output down to the nearest `(` (or the bottom). */
  function PopToParen(y: Yard): (r: Yard)
    decreases |y.stack|
  {
    if |y.stack| > 0 && !Top(y.stack).LParen? then
      PopToParen(Yard(y.out + [Top(y.stack)], Pop(y.stack)))
    else y
  }

  /** One input token; None is the mismatched `)` that finds no `(`. */
  function Step(y: Yard, t: Token): Option<Yard> {
    match t
    case Number(_) => Some(Yard(y.out + [t], y.stack))
    case Function(_) => Some(Yard(y.out, y.stack + [t]))
    case Operator(op) =>
      var z := PopOperators(y, op);
      Some(Yard(z.out, z.stack + [t]))
    case LParen => Some(Yard(y.out, y.stack + [t]))
    case RParen => Close(y)
  }

  /**
   * A `)`: move stack tops to the output down to the `(`, drop it, then move a
   * FUNCTION found under it to the output too. None when there is no `(`.
   */
  function Close(y: Yard): Option<Yard> {
    var z := PopToParen(y);
    if |z.stack| == 0 then None
    else
      var s := Pop(z.stack);
      if |s| > 0 && Top(s).Function? then Some(Yard(z.out + [Top(s)], Pop(s)))
      else Some(Yard(z.out, s))
  }

  /** End of input: empty the stack onto the output; a `(` left on it is an error. */
  function Drain(y: Yard): Option<seq<Token>>
    decreases |y.stack|
  {
    if |y.stack| == 0 then Some(y.out)
    else if Top(y.stack).LParen? then None
    else Drain(Yard(y.out + [Top(y.stack)], Pop(y.stack)))
  }

  /** The conversion of the remaining input `ts` from state `y`. */
  function Run(ts: seq<Token>, y: Yard): Option<seq<Token>>
    decreases |ts|
  {
    if |ts| == 0 then Drain(y)
    else
      match Step(y, ts[0])
      case None => None
      case Some(z) => Run(ts[1..], z)
  }

  /** The postfix form of a token sequence, or None for mismatched parentheses. */
  function Shunt(ts: seq<Token>): Option<seq<Token>> {
    Run(ts, Yard([], []))
  }

  /** `to_postfix`: None stands for the -1 return. */
  method ToPostfix(input: seq<Token>) returns (r: Option<seq<Token>>)
    ensures r == Shunt(input)
  {
    var out: seq<Token> := [];
    var stack: seq<Token> := [];
    for i := 0 to |input|
      invariant Shunt(input) == Run(input[i..], Yard(out, stack))
    {
      assert input[i..][1..] == input[i + 1..];
      var t := input[i];
      match t {
        case Number(_) =>
          out := out + [t];
        case Function(_) =>
          stack := stack + [t];
        case Operator(op) =>
          ghost var y0 := Yard(out, stack);
          while |stack| > 0 && PopsBefore(stack[|stack| - 1], op)
            invariant PopOperators(Yard(out, stack), op) == PopOperators(y0, op)
            decreases |stack|
          {
            out := out + [stack[|stack| - 1]];
            stack := stack[..|stack| - 1];
          }
          stack := stack + [t];
        case LParen =>
          stack := stack + [t];
        case RParen =>
          ghost var y0 := Yard(out, stack);
          while |stack| > 0 && !stack[|stack| - 1].LParen?
            invariant PopToParen(Yard(out, stack)) == PopToParen(y0)
            decreases |stack|
          {
            out := out + [stack[|stack| - 1]];
            stack := stack[..|stack| - 1];
          }
          if |stack| == 0 {
            return None;
          }
          stack := stack[..|stack| - 1];
          if |stack| > 0 && stack[|stack| - 1].Function? {
            out := out + [stack[|stack| - 1]];
            stack := stack[..|stack| - 1];
          }
      }
    }
    while |stack| > 0
      invariant Drain(Yard(out, stack)) == Shunt(input)
      decreases |stack|
    {
      if stack[|stack| - 1].LParen? {
        return None;
      }
      out := out + [stack[|stack| - 1]];
      stack := stack[..|stack| - 1];
    }
    return Some(out);
  }

  // ---------------------------------------------------------------------------
  // Specification vocabulary: what the conversion keeps, and the paren-matching rule.

  /** The paren-matching rule: never close more than is open, and close all at the end. */
  predicate Balanced(ts: seq<Token>, depth: nat)
    decreases |ts|
  {
    if |ts| == 0 then depth == 0
    else match ts[0]
      case LParen => Balanced(ts[1..], depth + 1)
      case RParen => depth > 0 && Balanced(ts[1..], depth - 1)
      case _ => Balanced(ts[1..], depth)
  }

  predicate IsParen(t: Token) {
    t.LParen? || t.RParen?
  }

  /** The tokens other than parentheses, in order. */
  function Strip(ts: seq<Token>): (r: seq<Token>)
    ensures |r| <= |ts|
  {
    if |ts| == 0 then [] else Strip(Pop(ts)) + (if IsParen(Top(ts)) then [] else [Top(ts)])
  }

  /** The NUMBER tokens, in order. */
  function Numbers(ts: seq<Token>): seq<Token> {
    if |ts| == 0 then [] else Numbers(Pop(ts)) + (if Top(ts).Number? then [Top(ts)] else [])
  }

  function ParenCount(ts: seq<Token>): nat {
    if |ts| == 0 then 0 else ParenCount(Pop(ts)) + (if IsParen(Top(ts)) then 1 else 0)
  }

  function LCount(ts: seq<Token>): nat {
    if |ts| == 0 then 0 else LCount(Pop(ts)) + (if Top(ts).LParen? then 1 else 0)
  }

  predicate NoParens(ts: seq<Token>) {
    forall t :: t in ts ==> !IsParen(t)
  }

  /** The tokens the operator stack never holds: numbers and `)`. */
  predicate Misfit(t: Token) {
    t.Number? || t.RParen?
  }

  function MisfitCount(ts: seq<Token>): nat {
    if |ts| == 0 then 0 else MisfitCount(Pop(ts)) + (if Misfit(Top(ts)) then 1 else 0)
  }

  /** A reachable state: its stack holds only operators, functions and `(`; its output no parenthesis. */
  predicate Good(y: Yard) {
    MisfitCount(y.stack) == 0 && ParenCount(y.out) == 0
  }

  /** The tokens the state still holds for the output: its output and its stack without `(`. */
  function Content(y: Yard): multiset<Token> {
    multiset(y.out) + multiset(Strip(y.stack))
  }

  /** How a token changes the number of open parentheses. */
  function Depth(t: Token, d: nat): int {
    match t
    case LParen => d + 1
    case RParen => d - 1
    case _ => d
  }

  /** The facts one conversion step establishes about the state it produces. */
  predicate StepInvariant(y: Yard, t: Token, z: Yard) {
    Good(z) && LCount(z.stack) == Depth(t, LCount(y.stack)) &&
    Content(z) == Content(y) + multiset(Strip([t])) &&
    Numbers(z.out) == Numbers(y.out) + Numbers([t])
  }
}
