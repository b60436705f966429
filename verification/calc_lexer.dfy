/**
 * The calculator's tokenizer (`tokenize`, Calculator.c): the token variant and the
 * left-to-right scan that turns expression text into tokens, with `Ans` replaced by
 * the previous result.
 */
module CalcLexer {
  import opened Wrappers
  import opened CLib

  /** A token carries exactly the payload of its kind. */
  datatype Token =
    | Number(value: real)
    | Operator(op: char)
    | Function(name: string)
    | LParen
    | RParen

  /** The six characters that make an OPERATOR token. */
  predicate IsOperatorChar(c: char) {
    c == '+' || c == '-' || c == '*' || c == '/' || c == '%' || c == '^'
  }

  /** Characters a number literal's run swallows once it has started: digits and dots. */
  predicate InNumber(c: char) {
    IsDigit(c) || c == '.'
  }

  /** A number literal starts at a digit, or at a dot followed by a digit. */
  predicate StartsNumber(s: string, i: nat)
    requires i < |s|
  {
    IsDigit(s[i]) || (s[i] == '.' && i + 1 < |s| && IsDigit(s[i + 1]))
  }

  /** The end of the run of digits and dots that starts at `i`: the run is maximal. */
  function NumberEnd(s: string, i: nat): (j: nat)
    requires i <= |s|
    ensures i <= j <= |s|
    ensures forall k :: i <= k < j ==> InNumber(s[k])
    ensures j == |s| || !InNumber(s[j])
    decreases |s| - i
  {
    if i < |s| && InNumber(s[i]) then NumberEnd(s, i + 1) else i
  }

  /** The end of the run of letters that starts at `i`: the run is maximal. */
  function WordEnd(s: string, i: nat): (j: nat)
    requires i <= |s|
    ensures i <= j <= |s|
    ensures forall k :: i <= k < j ==> IsAlpha(s[k])
    ensures j == |s| || !IsAlpha(s[j])
    decreases |s| - i
  {
    if i < |s| && IsAlpha(s[i]) then WordEnd(s, i + 1) else i
  }

  /** A letter run becomes the previous result when it is exactly `Ans`, else a FUNCTION. */
  function WordToken(w: string, last: real): (t: Token)
    ensures t.Number? <==> w == "Ans"
    ensures t.Number? ==> t.value == last
    ensures !t.Number? ==> t == Function(w)
  {
    if w == "Ans" then Number(last) else Function(w)
  }

  /** Prefix `pre` to a successful scan; a failed scan stays failed. */
  function Prepend(pre: seq<Token>, r: Option<seq<Token>>): Option<seq<Token>> {
    match r
    case None => None
    case Some(ts) => Some(pre + ts)
  }

  lemma PrependPrepend(a: seq<Token>, b: seq<Token>, r: Option<seq<Token>>)
    ensures Prepend(a, Prepend(b, r)) == Prepend(a + b, r)
    ensures Prepend([], r) == r
  {
    if r.Some? {
      assert a + (b + r.value) == (a + b) + r.value;
      assert [] + r.value == r.value;
    }
  }

  /**
   * The tokens of `s` from position `i` on, or None when the scan meets a character
   * that starts no token. A number's value is what `sscanf` with "%lf" reads from the
   * text that starts at the number (`scanReal`), which may read more or less than the
   * run of digits and dots that the scan then skips.
   */
  function Lex(s: string, i: nat, last: real, scanReal: string -> real): Option<seq<Token>>
    requires i <= |s|
    decreases |s| - i
  {
    if i == |s| then Some([])
    else if IsSpace(s[i]) then Lex(s, i + 1, last, scanReal)
    else if StartsNumber(s, i) then
      Prepend([Number(scanReal(s[i..]))], Lex(s, NumberEnd(s, i), last, scanReal))
    else if IsAlpha(s[i]) then
      var j := WordEnd(s, i);
      Prepend([WordToken(s[i..j], last)], Lex(s, j, last, scanReal))
    else if s[i] == '(' then Prepend([LParen], Lex(s, i + 1, last, scanReal))
    else if s[i] == ')' then Prepend([RParen], Lex(s, i + 1, last, scanReal))
    else if IsOperatorChar(s[i]) then Prepend([Operator(s[i])], Lex(s, i + 1, last, scanReal))
    else None
  }

  /** The whole expression's tokens. */
  function Tokens(s: string, last: real, scanReal: string -> real): Option<seq<Token>> {
    Lex(s, 0, last, scanReal)
  }

  /**
   * `tokenize`: walks the text once, appending tokens; None stands for the -1 return.
   * The text is a C string, so it holds no NUL.
   */
  method Tokenize(expr: string, last: real, scanReal: string -> real) returns (r: Option<seq<Token>>)
    requires '\0' !in expr
    ensures r == Tokens(expr, last, scanReal)
  {
    var tokens: seq<Token> := [];
    var p := 0;
    PrependPrepend([], [], Tokens(expr, last, scanReal));
    while p < |expr|
      invariant 0 <= p <= |expr|
      invariant Tokens(expr, last, scanReal) == Prepend(tokens, Lex(expr, p, last, scanReal))
      decreases |expr| - p
    {
      var c := expr[p];
      if IsSpace(c) {
        p := p + 1;
        continue;
      }
      if IsDigit(c) || (c == '.' && p + 1 < |expr| && IsDigit(expr[p + 1])) {
        var value := scanReal(expr[p..]);
        var start := p;
        while p < |expr| && (IsDigit(expr[p]) || expr[p] == '.')
          invariant start <= p <= |expr|
          invariant NumberEnd(expr, p) == NumberEnd(expr, start)
          decreases |expr| - p
        {
          p := p + 1;
        }
        PrependPrepend(tokens, [Number(value)], Lex(expr, p, last, scanReal));
        tokens := tokens + [Number(value)];
      } else if IsAlpha(c) {
        var start := p;
        while p < |expr| && IsAlpha(expr[p])
          invariant start <= p <= |expr|
          invariant WordEnd(expr, p) == WordEnd(expr, start)
          decreases |expr| - p
        {
          p := p + 1;
        }
        var t := WordToken(expr[start..p], last);
        PrependPrepend(tokens, [t], Lex(expr, p, last, scanReal));
        tokens := tokens + [t];
      } else if c == '(' {
        PrependPrepend(tokens, [LParen], Lex(expr, p + 1, last, scanReal));
        tokens := tokens + [LParen];
        p := p + 1;
      } else if c == ')' {
        PrependPrepend(tokens, [RParen], Lex(expr, p + 1, last, scanReal));
        tokens := tokens + [RParen];
        p := p + 1;
      } else if IsOperatorChar(c) {
        PrependPrepend(tokens, [Operator(c)], Lex(expr, p + 1, last, scanReal));
        tokens := tokens + [Operator(c)];
        p := p + 1;
      } else {
        return None;
      }
    }
    assert tokens + [] == tokens;
    return Some(tokens);
  }

  /**
   * A character the scan cannot start a token with: anything outside the classes it
   * knows, and a dot that neither continues a number (after a digit or a dot) nor
   * starts one (before a digit).
   */
  predicate Stray(s: string, k: nat)
    requires k < |s|
  {
    var c := s[k];
    if c == '.' then
      !(k + 1 < |s| && IsDigit(s[k + 1])) && !(k > 0 && InNumber(s[k - 1]))
    else
      !(IsSpace(c) || IsDigit(c) || IsAlpha(c) || c == '(' || c == ')' || IsOperatorChar(c))
  }

  /** Position `i` is not in the middle of a run of digits and dots. */
  predicate Boundary(s: string, i: nat)
    requires i <= |s|
  {
    0 < i < |s| ==> !(InNumber(s[i - 1]) && InNumber(s[i]))
  }

  /** The scan fails exactly when the text holds a stray character. */
  lemma {:induction false} LexFailsIffStray(s: string, i: nat, last: real, scanReal: string -> real)
    requires i <= |s| && Boundary(s, i)
    ensures Lex(s, i, last, scanReal).None? <==> exists k :: i <= k < |s| && Stray(s, k)
    decreases |s| - i
  {
    if i == |s| {
    } else if IsSpace(s[i]) {
      assert Lex(s, i, last, scanReal) == Lex(s, i + 1, last, scanReal);
      LexFailsIffStray(s, i + 1, last, scanReal);
      assert !Stray(s, i);
      StrayShift(s, i, i + 1);
    } else if StartsNumber(s, i) {
      var j := NumberEnd(s, i);
      assert Lex(s, i, last, scanReal).None? <==> Lex(s, j, last, scanReal).None?;
      LexFailsIffStray(s, j, last, scanReal);
      NumberNotStray(s, i);
      StrayShift(s, i, j);
    } else if IsAlpha(s[i]) {
      var j := WordEnd(s, i);
      assert Lex(s, i, last, scanReal).None? <==> Lex(s, j, last, scanReal).None?;
      LexFailsIffStray(s, j, last, scanReal);
      StrayShift(s, i, j);
    } else if s[i] == '(' || s[i] == ')' || IsOperatorChar(s[i]) {
      assert Lex(s, i, last, scanReal).None? <==> Lex(s, i + 1, last, scanReal).None?;
      LexFailsIffStray(s, i + 1, last, scanReal);
      assert !Stray(s, i);
      StrayShift(s, i, i + 1);
    } else {
      assert Stray(s, i);
    }
  }

  /** A number's characters are never stray, not even a `.` (it has a digit beside it). */
  lemma NumberNotStray(s: string, i: nat)
    requires i < |s| && StartsNumber(s, i)
    ensures forall k :: i <= k < NumberEnd(s, i) ==> !Stray(s, k)
  {
    var j := NumberEnd(s, i);
    forall k | i <= k < j ensures !Stray(s, k) {
      if s[k] == '.' && k == i {
        assert i + 1 < |s| && IsDigit(s[i + 1]);
      } else if s[k] == '.' {
        assert InNumber(s[k - 1]);
      }
    }
  }

  /** No stray character in [i, j): looking for one from i or from j is the same. */
  lemma StrayShift(s: string, i: nat, j: nat)
    requires i <= j <= |s|
    requires forall k :: i <= k < j ==> !Stray(s, k)
    ensures (exists k :: i <= k < |s| && Stray(s, k)) <==> (exists k :: j <= k < |s| && Stray(s, k))
  {
  }

  /** `tokenize` returns -1 exactly when the text holds a stray character. */
  lemma TokensFailIffStray(s: string, last: real, scanReal: string -> real)
    ensures Tokens(s, last, scanReal).None? <==> exists k :: 0 <= k < |s| && Stray(s, k)
  {
    LexFailsIffStray(s, 0, last, scanReal);
  }

  /** The structural character of a text position: operators and parentheses. */
  function Mark(c: char): string {
    if IsOperatorChar(c) || c == '(' || c == ')' then [c] else []
  }

  function MarksFrom(s: string, i: nat): string
    requires i <= |s|
    decreases |s| - i
  {
    if i == |s| then [] else Mark(s[i]) + MarksFrom(s, i + 1)
  }

  /** The structural character of a token. */
  function TokenMark(t: Token): string {
    match t
    case Operator(c) => [c]
    case LParen => "("
    case RParen => ")"
    case _ => []
  }

  function TokenMarks(ts: seq<Token>): string {
    if ts == [] then [] else TokenMark(ts[0]) + TokenMarks(ts[1..])
  }

  lemma {:induction false} MarksSkip(s: string, i: nat, j: nat)
    requires i <= j <= |s|
    requires forall k :: i <= k < j ==> Mark(s[k]) == []
    ensures MarksFrom(s, i) == MarksFrom(s, j)
    decreases j - i
  {
    if i < j {
      MarksSkip(s, i + 1, j);
    }
  }

  lemma TokenMarksCons(t: Token, ts: seq<Token>)
    ensures TokenMarks([t] + ts) == TokenMark(t) + TokenMarks(ts)
  {
    assert ([t] + ts)[1..] == ts;
  }

  /**
   * Every operator and parenthesis of the text gives exactly one token that carries
   * it, in text order, and nothing else gives such a token: whitespace, numbers and
   * letter runs contribute none.
   */
  lemma {:induction false} LexKeepsMarks(s: string, i: nat, last: real, scanReal: string -> real, ts: seq<Token>)
    requires i <= |s|
    requires Lex(s, i, last, scanReal) == Some(ts)
    ensures TokenMarks(ts) == MarksFrom(s, i)
    decreases |s| - i
  {
    if i == |s| {
    } else if IsSpace(s[i]) {
      LexKeepsMarks(s, i + 1, last, scanReal, ts);
    } else if StartsNumber(s, i) {
      var j := NumberEnd(s, i);
      var rest := Lex(s, j, last, scanReal).value;
      LexKeepsMarks(s, j, last, scanReal, rest);
      MarksSkip(s, i, j);
      TokenMarksCons(Number(scanReal(s[i..])), rest);
    } else if IsAlpha(s[i]) {
      var j := WordEnd(s, i);
      var rest := Lex(s, j, last, scanReal).value;
      LexKeepsMarks(s, j, last, scanReal, rest);
      MarksSkip(s, i, j);
      TokenMarksCons(WordToken(s[i..j], last), rest);
    } else {
      var t := if s[i] == '(' then LParen else if s[i] == ')' then RParen else Operator(s[i]);
      var rest := Lex(s, i + 1, last, scanReal).value;
      LexKeepsMarks(s, i + 1, last, scanReal, rest);
      TokenMarksCons(t, rest);
    }
  }

  /** A FUNCTION token's name is a non-empty run of letters other than `Ans`. */
  predicate WellNamed(t: Token) {
    t.Function? ==> |t.name| > 0 && t.name != "Ans" && forall k :: 0 <= k < |t.name| ==> IsAlpha(t.name[k])
  }

  lemma {:induction false} LexFunctionNames(s: string, i: nat, last: real, scanReal: string -> real, ts: seq<Token>)
    requires i <= |s|
    requires Lex(s, i, last, scanReal) == Some(ts)
    ensures forall t :: t in ts ==> WellNamed(t)
    decreases |s| - i
  {
    if i == |s| {
    } else if IsSpace(s[i]) {
      LexFunctionNames(s, i + 1, last, scanReal, ts);
    } else if StartsNumber(s, i) {
      var j := NumberEnd(s, i);
      LexFunctionNames(s, j, last, scanReal, Lex(s, j, last, scanReal).value);
    } else if IsAlpha(s[i]) {
      var j := WordEnd(s, i);
      LexFunctionNames(s, j, last, scanReal, Lex(s, j, last, scanReal).value);
    } else {
      LexFunctionNames(s, i + 1, last, scanReal, Lex(s, i + 1, last, scanReal).value);
    }
  }

  /**
   * At a token boundary a run of white space yields no token: the scan goes on after
   * it exactly as if it were not there. In particular, text that is white space to the
   * end gives no tokens.
   */
  lemma {:induction false} SkipBlanks(s: string, i: nat, j: nat, last: real, scanReal: string -> real)
    requires i <= j <= |s|
    requires forall k :: i <= k < j ==> IsSpace(s[k])
    ensures Lex(s, i, last, scanReal) == Lex(s, j, last, scanReal)
    ensures j == |s| ==> Lex(s, i, last, scanReal) == Some([])
    decreases j - i
  {
    if i < j {
      SkipBlanks(s, i + 1, j, last, scanReal);
    }
  }

  /** The end of a number's run does not depend on the text before it. */
  lemma {:induction false} NumberEndShift(p: string, s: string, i: nat)
    requires i <= |s|
    ensures NumberEnd(p + s, |p| + i) == |p| + NumberEnd(s, i)
    decreases |s| - i
  {
    if i < |s| {
      assert (p + s)[|p| + i] == s[i];
      if InNumber(s[i]) {
        NumberEndShift(p, s, i + 1);
      }
    }
  }

  /** The end of a letter run does not depend on the text before it. */
  lemma {:induction false} WordEndShift(p: string, s: string, i: nat)
    requires i <= |s|
    ensures WordEnd(p + s, |p| + i) == |p| + WordEnd(s, i)
    decreases |s| - i
  {
    if i < |s| {
      assert (p + s)[|p| + i] == s[i];
      if IsAlpha(s[i]) {
        WordEndShift(p, s, i + 1);
      }
    }
  }

  /** The scan only looks forward: what it gives from a position ignores the text before it. */
  lemma {:induction false} LexShift(p: string, s: string, i: nat, last: real, scanReal: string -> real)
    requires i <= |s|
    ensures Lex(p + s, |p| + i, last, scanReal) == Lex(s, i, last, scanReal)
    decreases |s| - i
  {
    if i < |s| {
      var j := if StartsNumber(s, i) then NumberEnd(s, i)
               else if !IsSpace(s[i]) && IsAlpha(s[i]) then WordEnd(s, i) else i + 1;
      LexShift(p, s, j, last, scanReal);
      if IsSpace(s[i]) {
        ShiftBlank(p, s, i, last, scanReal);
      } else if StartsNumber(s, i) {
        ShiftNumber(p, s, i, last, scanReal);
      } else if IsAlpha(s[i]) {
        ShiftWord(p, s, i, last, scanReal);
      } else {
        ShiftSingle(p, s, i, last, scanReal);
      }
    }
  }

  /** The character at `i` of `s` reads the same at `|p| + i` of `p + s`, and so does the next. */
  lemma ShiftChars(p: string, s: string, i: nat)
    requires i < |s|
    ensures (p + s)[|p| + i] == s[i]
    ensures StartsNumber(p + s, |p| + i) == StartsNumber(s, i)
  {
    assert i + 1 < |s| ==> (p + s)[|p| + i + 1] == s[i + 1];
  }

  lemma ShiftBlank(p: string, s: string, i: nat, last: real, scanReal: string -> real)
    requires i < |s| && IsSpace(s[i])
    requires Lex(p + s, |p| + i + 1, last, scanReal) == Lex(s, i + 1, last, scanReal)
    ensures Lex(p + s, |p| + i, last, scanReal) == Lex(s, i, last, scanReal)
  {
    ShiftChars(p, s, i);
  }

  lemma ShiftNumber(p: string, s: string, i: nat, last: real, scanReal: string -> real)
    requires i < |s| && !IsSpace(s[i]) && StartsNumber(s, i)
    requires Lex(p + s, |p| + NumberEnd(s, i), last, scanReal) == Lex(s, NumberEnd(s, i), last, scanReal)
    ensures Lex(p + s, |p| + i, last, scanReal) == Lex(s, i, last, scanReal)
  {
    ShiftChars(p, s, i);
    NumberEndShift(p, s, i);
    assert (p + s)[|p| + i..] == s[i..];
  }

  lemma ShiftWord(p: string, s: string, i: nat, last: real, scanReal: string -> real)
    requires i < |s| && !IsSpace(s[i]) && !StartsNumber(s, i) && IsAlpha(s[i])
    requires Lex(p + s, |p| + WordEnd(s, i), last, scanReal) == Lex(s, WordEnd(s, i), last, scanReal)
    ensures Lex(p + s, |p| + i, last, scanReal) == Lex(s, i, last, scanReal)
  {
    ShiftChars(p, s, i);
    WordEndShift(p, s, i);
    assert (p + s)[|p| + i..|p| + WordEnd(s, i)] == s[i..WordEnd(s, i)];
  }

  lemma ShiftSingle(p: string, s: string, i: nat, last: real, scanReal: string -> real)
    requires i < |s| && !IsSpace(s[i]) && !StartsNumber(s, i) && !IsAlpha(s[i])
    requires Lex(p + s, |p| + i + 1, last, scanReal) == Lex(s, i + 1, last, scanReal)
    ensures Lex(p + s, |p| + i, last, scanReal) == Lex(s, i, last, scanReal)
  {
    ShiftChars(p, s, i);
  }

  /** White space in front of an expression changes none of its tokens. */
  lemma LeadingBlanks(w: string, s: string, last: real, scanReal: string -> real)
    requires forall k :: 0 <= k < |w| ==> IsSpace(w[k])
    ensures Tokens(w + s, last, scanReal) == Tokens(s, last, scanReal)
  {
    SkipBlanks(w + s, 0, |w|, last, scanReal);
    LexShift(w, s, 0, last, scanReal);
  }

  /** There is no unary minus: `-3` is an OPERATOR token followed by a NUMBER token. */
  lemma MinusThreeTokens(last: real, scanReal: string -> real)
    ensures Tokens("-3", last, scanReal) == Some([Operator('-'), Number(scanReal("3"))])
  {
    var s := "-3";
    assert s[1..] == "3";
    assert NumberEnd(s, 2) == 2;
    assert NumberEnd(s, 1) == 2;
    assert StartsNumber(s, 1);
    assert Lex(s, 2, last, scanReal) == Some([]);
    assert Lex(s, 1, last, scanReal) == Prepend([Number(scanReal("3"))], Lex(s, 2, last, scanReal));
    assert [Number(scanReal("3"))] + [] == [Number(scanReal("3"))];
    assert Lex(s, 1, last, scanReal) == Some([Number(scanReal("3"))]);
    assert Lex(s, 0, last, scanReal) == Prepend([Operator('-')], Lex(s, 1, last, scanReal));
    assert [Operator('-')] + [Number(scanReal("3"))] == [Operator('-'), Number(scanReal("3"))];
    assert Lex(s, 0, last, scanReal) == Some([Operator('-'), Number(scanReal("3"))]);
  }

  /** `Ans` is replaced by the previous result; a longer letter run is a FUNCTION. */
  lemma AnsTokens(last: real, scanReal: string -> real)
    ensures Tokens("Ans+Answer", last, scanReal) == Some([Number(last), Operator('+'), Function("Answer")])
  {
    var s := "Ans+Answer";
    assert s[0..3] == "Ans";
    assert s[4..10] == "Answer";
    assert WordEnd(s, 10) == 10;
    assert WordEnd(s, 4) == 10;
    assert WordEnd(s, 3) == 3;
    assert WordEnd(s, 0) == 3;
    assert !StartsNumber(s, 4) && !StartsNumber(s, 3) && !StartsNumber(s, 0);
    assert Lex(s, 4, last, scanReal) == Prepend([Function("Answer")], Lex(s, 10, last, scanReal));
    assert Lex(s, 3, last, scanReal) == Prepend([Operator('+')], Lex(s, 4, last, scanReal));
    assert Lex(s, 0, last, scanReal) == Prepend([Number(last)], Lex(s, 3, last, scanReal));
    assert [Number(last)] + ([Operator('+')] + ([Function("Answer")] + []))
      == [Number(last), Operator('+'), Function("Answer")];
    assert Lex(s, 0, last, scanReal) == Some([Number(last), Operator('+'), Function("Answer")]);
  }
}
