/** eval on whole input lines. Each family is stated by the positions of its
    pieces in an arbitrary string s, and a few concrete lines follow it. */
module Lines {
  import opened Tokens
  import opened Lexing
  import opened LexingFacts
  import opened Grammar
  import opened GrammarFacts
  import opened Shapes

  /** A character that ends a number and is read as a token that is no binary
      operator: a closing bracket or a stray character. */
  predicate Closing(c: char) { c == ')' || c == ']' || IsStray(c) }

  /** The opening and the closing brackets. */
  predicate Opening(c: char) { c == '(' || c == '[' }
  predicate Closer(c: char) { c == ')' || c == ']' }

  /** The characters of the binary operators. */
  predicate BinaryChar(c: char) { c == '+' || c == '-' || c == '*' || c == '/' || c == '^' }

  /** s[i..e] is a non-empty numeral. */
  predicate NumeralAt(s: string, i: nat, e: nat) { i < e <= |s| && IsNumeral(s[i..e]) }

  /** The value of the numeral s[i..e]. */
  function Val(s: string, i: nat, e: nat): real
    requires i <= e <= |s|
  {
    LiteralValue(s[i..e])
  }

  /** The lexer state right after the numeral s[i..e] was read. */
  function NumAt(s: string, i: nat, e: nat): LexState
    requires i <= e <= |s|
  {
    LexState(e, Token(Number, Val(s, i, e), i, e))
  }

  /** The lexer state right after the one-character token at i was read. */
  function CharAt(s: string, i: nat): LexState
    requires i < |s|
  {
    LexState(i + 1, Token(if IsOperator(s[i]) then OperatorKind(s[i]) else Error, 0.0, i, i + 1))
  }

  /** A single digit is a numeral with that digit's value. */
  lemma DigitAt(s: string, i: nat)
    requires i < |s| && IsDigit(s[i])
    ensures NumeralAt(s, i, i + 1) && Val(s, i, i + 1) == DigitValue(s[i]) as real
  {
    assert s[i..i + 1] == [s[i]];
    LiteralOfDigits([s[i]]);
  }

  /** A digit, a separator and a digit: the numeral d.d. */
  lemma PointAt(s: string, i: nat)
    requires i + 3 <= |s| && IsDigit(s[i]) && IsSep(s[i + 1]) && IsDigit(s[i + 2])
    ensures NumeralAt(s, i, i + 3) && HasSep(s[i..i + 3])
    ensures Val(s, i, i + 3) == DigitValue(s[i]) as real + DigitValue(s[i + 2]) as real / 10.0
  {
    var t := s[i..i + 3];
    assert t == [s[i], s[i + 1], s[i + 2]];
    SepIndexFirst(t, 1);
    assert t[..1] == [s[i]] && t[2..] == [s[i + 2]];
    assert [s[i]][..0] == [] && [s[i + 2]][1..] == [];
    assert IntVal([s[i]]) == DigitValue(s[i]);
    assert FracVal([s[i + 2]]) == DigitValue(s[i + 2]) as real / 10.0;
  }

  /** A separator and a digit: the numeral .d. */
  lemma SepDigitAt(s: string, i: nat)
    requires i + 2 <= |s| && IsSep(s[i]) && IsDigit(s[i + 1])
    ensures NumeralAt(s, i, i + 2)
    ensures Val(s, i, i + 2) == DigitValue(s[i + 1]) as real / 10.0
  {
    var t := s[i..i + 2];
    assert t == [s[i], s[i + 1]];
    SepIndexFirst(t, 0);
    assert t[..0] == [] && t[1..] == [s[i + 1]];
    assert [s[i + 1]][1..] == [];
    assert FracVal([s[i + 1]]) == DigitValue(s[i + 1]) as real / 10.0;
  }

  // ----- one advance on a known piece of the line -----

  /** From a cursor at i, a numeral s[i..e] followed by a character that
      does not continue it is read as one number token. */
  lemma LexNumeral(s: string, st: LexState, i: nat, e: nat)
    requires st.idx == i && NumeralAt(s, i, e) && e < |s| && !IsDigit(s[e]) && !IsSep(s[e])
    ensures Lexed(s).advance(st) == (true, NumAt(s, i, e))
  {
    assert s[i..e][0] == s[i];
    assert SkipSpaces(s, i) == i;
    NumberTokenWhen(s, i, e);
  }

  /** The lexer state after a number ran into the end of the input: the
      Error token just past the end. */
  function PastEnd(s: string): LexState
  {
    LexState(|s| + 1, Token(Error, 0.0, |s|, |s| + 1))
  }

  /** From a cursor at i, a numeral that runs to the end of the input falls
      through into the Error token just past the end. */
  lemma LexAtEnd(s: string, st: LexState, i: nat)
    requires st.idx == i && NumeralAt(s, i, |s|)
    ensures Lexed(s).advance(st) == (true, PastEnd(s))
  {
    assert s[i..|s|][0] == s[i];
    assert SkipSpaces(s, i) == i;
    assert s[i..] == s[i..|s|];
    NumberAtEnd(s, i);
  }

  /** From a cursor at i, an operator, bracket or stray character is read
      as a one-character token. */
  lemma LexChar(s: string, st: LexState, i: nat)
    requires st.idx == i && i < |s| && (IsOperator(s[i]) || IsStray(s[i]))
    ensures Lexed(s).advance(st) == (true, CharAt(s, i))
  {
  }

  /** A binary operator character is read as that operator's token. */
  lemma BinaryCharAt(s: string, i: nat)
    requires i < |s| && BinaryChar(s[i])
    ensures CharAt(s, i).cur.kind == OperatorKind(s[i]) && Binary(OperatorKind(s[i]))
  {
  }

  /** A closing character is read as a token that is no binary operator and
      cannot start an operand. */
  lemma ClosingCharAt(s: string, i: nat)
    requires i < |s| && Closing(s[i])
    ensures !Binary(CharAt(s, i).cur.kind) && !StartsPrimary(CharAt(s, i).cur.kind)
    ensures CharAt(s, i).cur.kind == RP <==> s[i] == ')' || s[i] == ']'
  {
  }

  /** A numeral followed by an operator or a closing character is an operand
      that leaves the lexer on that character's token. */
  lemma OperandAt(s: string, ops: Ops, st: LexState, i: nat, e: nat)
    requires st.idx == i && NumeralAt(s, i, e) && e < |s| && (BinaryChar(s[e]) || Closing(s[e]))
    ensures Lexed(s).advance(st) == (true, NumAt(s, i, e))
    ensures Operand(Lexed(s), ops, NumAt(s, i, e), Val(s, i, e), CharAt(s, e))
  {
    LexNumeral(s, st, i, e);
    LexChar(s, NumAt(s, i, e), e);
    NumberOperand(Lexed(s), ops, NumAt(s, i, e));
  }

  /** With only spaces left, advance_tok finds nothing and changes nothing. */
  lemma LexEnd(s: string, st: LexState)
    requires forall k :: st.idx <= k < |s| ==> s[k] == ' '
    ensures Lexed(s).advance(st) == (false, st)
  {
    EndOfInput(s, st.idx);
  }

  /** The line's value is that of the expression from its first token. */
  lemma LineValue(s: string, ops: Ops, st1: LexState, r: Result, st: LexState)
    requires Lexed(s).advance(Initial).1 == st1
    requires Expr(Lexed(s), ops, st1) == Halt(r, st)
    ensures Evaluate(s, ops) == Returns(r)
  {
  }

  lemma LineDiverges(s: string, ops: Ops, st1: LexState)
    requires Lexed(s).advance(Initial).1 == st1
    requires Expr(Lexed(s), ops, st1) == Loop
    ensures Evaluate(s, ops) == Diverges
  {
  }

  // ----- numbers, sums, products and powers -----

  /** A numeral followed by a closing character is its exact value; the rest
      of the line is never looked at. */
  lemma NumberLine(s: string, e: nat, ops: Ops)
    requires NumeralAt(s, 0, e) && e < |s| && Closing(s[e])
    ensures Evaluate(s, ops) == Returns(Ok(Val(s, 0, e)))
  {
    var (src, st1, stEnd) := (Lexed(s), NumAt(s, 0, e), CharAt(s, e));
    OperandAt(s, ops, Initial, 0, e);
    OneChain(src, ops, st1, Val(s, 0, e), stEnd);
    LineValue(s, ops, st1, Ok(Val(s, 0, e)), stEnd);
  }

  /** The tokens of x k y followed by a closing character, read from st on. */
  lemma TwoLexed(s: string, ops: Ops, st: LexState, i: nat, a: nat, e: nat)
    requires st.idx == i && NumeralAt(s, i, a) && a < |s| && BinaryChar(s[a])
    requires NumeralAt(s, a + 1, e) && e < |s| && Closing(s[e])
    ensures Lexed(s).advance(st) == (true, NumAt(s, i, a))
    ensures TwoOperands(Lexed(s), ops, NumAt(s, i, a), Val(s, i, a), CharAt(s, a),
                        NumAt(s, a + 1, e), Val(s, a + 1, e), CharAt(s, e))
    ensures CharAt(s, a).cur.kind == OperatorKind(s[a])
  {
    OperandAt(s, ops, st, i, a);
    OperandAt(s, ops, CharAt(s, a), a + 1, e);
    BinaryCharAt(s, a);
    ClosingCharAt(s, e);
  }

  /** x k y followed by a closing character is x k y. */
  lemma TwoLine(s: string, a: nat, e: nat, ops: Ops)
    requires NumeralAt(s, 0, a) && a < |s| && BinaryChar(s[a])
    requires NumeralAt(s, a + 1, e) && e < |s| && Closing(s[e])
    ensures Evaluate(s, ops) == Returns(Ok(Combine(ops, OperatorKind(s[a]), Val(s, 0, a), Val(s, a + 1, e))))
  {
    var (st1, st2, st3, stEnd) := (NumAt(s, 0, a), CharAt(s, a), NumAt(s, a + 1, e), CharAt(s, e));
    var (x, y) := (Val(s, 0, a), Val(s, a + 1, e));
    TwoLexed(s, ops, Initial, 0, a, e);
    TwoChain(Lexed(s), ops, st1, x, st2, st3, y, stEnd);
    LineValue(s, ops, st1, Ok(Combine(ops, OperatorKind(s[a]), x, y)), stEnd);
  }

  /** The tokens of x k1 y k2 z followed by a closing character. */
  lemma ThreeLexed(s: string, ops: Ops, a: nat, b: nat, e: nat)
    requires NumeralAt(s, 0, a) && a < |s| && BinaryChar(s[a])
    requires NumeralAt(s, a + 1, b) && b < |s| && BinaryChar(s[b])
    requires NumeralAt(s, b + 1, e) && e < |s| && Closing(s[e])
    ensures Lexed(s).advance(Initial).1 == NumAt(s, 0, a)
    ensures ThreeOperands(Lexed(s), ops, NumAt(s, 0, a), Val(s, 0, a), CharAt(s, a),
                          NumAt(s, a + 1, b), Val(s, a + 1, b), CharAt(s, b),
                          NumAt(s, b + 1, e), Val(s, b + 1, e), CharAt(s, e))
  {
    OperandAt(s, ops, Initial, 0, a);
    BinaryCharAt(s, a);
    TwoLexed(s, ops, CharAt(s, a), a + 1, b, e);
  }

  /** x k1 y k2 z followed by a closing character has the reference value. */
  lemma ThreeLine(s: string, a: nat, b: nat, e: nat, ops: Ops)
    requires NumeralAt(s, 0, a) && a < |s| && BinaryChar(s[a])
    requires NumeralAt(s, a + 1, b) && b < |s| && BinaryChar(s[b])
    requires NumeralAt(s, b + 1, e) && e < |s| && Closing(s[e])
    ensures Evaluate(s, ops) == Returns(Ok(ThreeValue(ops, Val(s, 0, a), OperatorKind(s[a]),
                                                      Val(s, a + 1, b), OperatorKind(s[b]), Val(s, b + 1, e))))
  {
    var (st1, stEnd) := (NumAt(s, 0, a), CharAt(s, e));
    var (x, y, z) := (Val(s, 0, a), Val(s, a + 1, b), Val(s, b + 1, e));
    ThreeLexed(s, ops, a, b, e);
    ThreeChain(Lexed(s), ops, st1, x, CharAt(s, a), NumAt(s, a + 1, b), y, CharAt(s, b),
               NumAt(s, b + 1, e), z, stEnd);
    LineValue(s, ops, st1, Ok(ThreeValue(ops, x, OperatorKind(s[a]), y, OperatorKind(s[b]), z)), stEnd);
  }

  /** 8-3-1 is 8-(3-1) = 6, not (8-3)-1 = 4. */
  lemma SubtractionGroupsRight(s: string, ops: Ops)
    requires s == "8-3-1\n"
    ensures Evaluate(s, ops) == Returns(Ok(6.0))
  {
    DigitAt(s, 0);
    DigitAt(s, 2);
    DigitAt(s, 4);
    assert OperatorKind(s[1]) == Sub && OperatorKind(s[3]) == Sub;
    assert Val(s, 0, 1) == 8.0 && Val(s, 2, 3) == 3.0 && Val(s, 4, 5) == 1.0;
    assert ThreeValue(ops, 8.0, Sub, 3.0, Sub, 1.0) == 6.0;
    ThreeLine(s, 1, 3, 5, ops);
  }

  /** 2+3*4 is 2+(3*4) = 14. */
  lemma ProductBeforeSum(s: string, ops: Ops)
    requires s == "2+3*4\n"
    ensures Evaluate(s, ops) == Returns(Ok(14.0))
  {
    DigitAt(s, 0);
    DigitAt(s, 2);
    DigitAt(s, 4);
    assert OperatorKind(s[1]) == Add && OperatorKind(s[3]) == Mul;
    assert Val(s, 0, 1) == 2.0 && Val(s, 2, 3) == 3.0 && Val(s, 4, 5) == 4.0;
    assert ThreeValue(ops, 2.0, Add, 3.0, Mul, 4.0) == 14.0;
    ThreeLine(s, 1, 3, 5, ops);
  }

  /** 2^3^2 is 2^(3^2). */
  lemma PowerGroupsRight(s: string, ops: Ops)
    requires s == "2^3^2\n"
    ensures Evaluate(s, ops) == Returns(Ok(ops.pow(2.0, ops.pow(3.0, 2.0))))
  {
    DigitAt(s, 0);
    DigitAt(s, 2);
    DigitAt(s, 4);
    assert OperatorKind(s[1]) == Exp && OperatorKind(s[3]) == Exp;
    assert Val(s, 0, 1) == 2.0 && Val(s, 2, 3) == 3.0 && Val(s, 4, 5) == 2.0;
    ThreeLine(s, 1, 3, 5, ops);
  }

  /** 8/4/2 is 8/(4/2). */
  lemma DivisionGroupsRight(s: string, ops: Ops)
    requires s == "8/4/2\n"
    ensures Evaluate(s, ops) == Returns(Ok(ops.div(8.0, ops.div(4.0, 2.0))))
  {
    DigitAt(s, 0);
    DigitAt(s, 2);
    DigitAt(s, 4);
    assert OperatorKind(s[1]) == Div && OperatorKind(s[3]) == Div;
    assert Val(s, 0, 1) == 8.0 && Val(s, 2, 3) == 4.0 && Val(s, 4, 5) == 2.0;
    ThreeLine(s, 1, 3, 5, ops);
  }

  /** Text after a complete expression is ignored: 1+1) is 2. */
  lemma TrailingIgnored(s: string, ops: Ops)
    requires s == "1+1)"
    ensures Evaluate(s, ops) == Returns(Ok(2.0))
  {
    DigitAt(s, 0);
    DigitAt(s, 2);
    TwoLine(s, 1, 3, ops);
  }

  /** A tab is a stray character, so 1<tab>+1 is just 1. */
  lemma TabEndsExpression(s: string, ops: Ops)
    requires s == "1\t+1"
    ensures Evaluate(s, ops) == Returns(Ok(1.0))
  {
    DigitAt(s, 0);
    NumberLine(s, 1, ops);
  }

  // ----- number literals -----

  /** 1.5 is one and a half. */
  lemma DecimalPoint(s: string, ops: Ops)
    requires s == "1.5\n"
    ensures Evaluate(s, ops) == Returns(Ok(1.5))
  {
    PointAt(s, 0);
    NumberLine(s, 3, ops);
  }

  /** A comma is a decimal separator too, and it may come first. */
  lemma LeadingComma(s: string, ops: Ops)
    requires s == ",5\n"
    ensures Evaluate(s, ops) == Returns(Ok(0.5))
  {
    SepDigitAt(s, 0);
    NumberLine(s, 2, ops);
  }

  /** A lone separator is the number zero. */
  lemma LoneSeparator(s: string, ops: Ops)
    requires s == ".\n"
    ensures Evaluate(s, ops) == Returns(Ok(0.0))
  {
    assert s[0..1] == "." && Val(s, 0, 1) == 0.0;
    NumberLine(s, 1, ops);
  }

  /** A numeral that runs to the end of the input is an error just past the
      end. */
  lemma NumeralAtEnd(s: string, ops: Ops)
    requires NumeralAt(s, 0, |s|)
    ensures Evaluate(s, ops) == Returns(Err(|s|))
  {
    LexAtEnd(s, Initial, 0);
    var st1 := PastEnd(s);
    ExprStops(Lexed(s), ops, st1);
    LineValue(s, ops, st1, Err(|s|), st1);
  }

  /** Without a terminator the last number falls through into the Error
      case, so "5" fails at offset 1 while "5\n" is 5. */
  lemma NoTerminator(s1: string, s2: string, ops: Ops)
    requires s1 == "5" && s2 == "5\n"
    ensures Evaluate(s1, ops) == Returns(Err(1))
    ensures Evaluate(s2, ops) == Returns(Ok(5.0))
  {
    DigitAt(s1, 0);
    DigitAt(s2, 0);
    NumeralAtEnd(s1, ops);
    NumberLine(s2, 1, ops);
  }

  /** The same for a number with a separator, and for a lone separator. */
  lemma SeparatorAtEnd(s1: string, s2: string, ops: Ops)
    requires s1 == "1.5" && s2 == "."
    ensures Evaluate(s1, ops) == Returns(Err(3))
    ensures Evaluate(s2, ops) == Returns(Err(1))
  {
    PointAt(s1, 0);
    assert s2[0..1] == ".";
    NumeralAtEnd(s1, ops);
    NumeralAtEnd(s2, ops);
  }

  /** x k y where y runs into the end of the input fails at the input
      length: the right operand is the Error token past the end. */
  lemma LastOperandAtEnd(s: string, a: nat, ops: Ops)
    requires NumeralAt(s, 0, a) && a < |s| && BinaryChar(s[a])
    requires NumeralAt(s, a + 1, |s|)
    ensures Evaluate(s, ops) == Returns(Err(|s|))
  {
    var st1 := NumAt(s, 0, a);
    OperandAt(s, ops, Initial, 0, a);
    BinaryCharAt(s, a);
    LexAtEnd(s, CharAt(s, a), a + 1);
    MissingOperand(Lexed(s), ops, st1, Val(s, 0, a), CharAt(s, a));
    LineValue(s, ops, st1, Err(|s|), PastEnd(s));
  }

  /** 1+1 without a terminator fails at offset 3. */
  lemma UnterminatedSum(s: string, ops: Ops)
    requires s == "1+1"
    ensures Evaluate(s, ops) == Returns(Err(3))
  {
    DigitAt(s, 0);
    DigitAt(s, 2);
    LastOperandAtEnd(s, 1, ops);
  }

  /** A second separator makes the number an error at the number's start. */
  lemma SecondSeparatorLine(s: string, p: nat, ops: Ops)
    requires NumeralAt(s, 0, p) && HasSep(s[0..p]) && p < |s| && IsSep(s[p])
    ensures Evaluate(s, ops) == Returns(Err(0))
  {
    assert s[0..p][0] == s[0];
    assert SkipSpaces(s, 0) == 0;
    SecondSeparator(s, 0, p);
    var st1 := LexState(p, Token(Error, 0.0, 0, p));
    ExprStops(Lexed(s), ops, st1);
    LineValue(s, ops, st1, Err(0), st1);
  }

  lemma TwoSeparators(s: string, ops: Ops)
    requires s == "1.2.3\n"
    ensures Evaluate(s, ops) == Returns(Err(0))
  {
    PointAt(s, 0);
    SecondSeparatorLine(s, 3, ops);
  }

  // ----- unary minus and brackets -----

  /** A minus sign at i before a numeral is an operand with the negated
      value. */
  lemma NegatedAt(s: string, ops: Ops, i: nat, e: nat)
    requires i < |s| && s[i] == '-'
    requires NumeralAt(s, i + 1, e) && e < |s| && (BinaryChar(s[e]) || Closing(s[e]))
    ensures Operand(Lexed(s), ops, CharAt(s, i), -Val(s, i + 1, e), CharAt(s, e))
  {
    OperandAt(s, ops, CharAt(s, i), i + 1, e);
    Negated(Lexed(s), ops, CharAt(s, i), NumAt(s, i + 1, e), Val(s, i + 1, e), CharAt(s, e));
  }

  /** -x k y is (-x) k y for every binary operator k. */
  lemma NegatedLine(s: string, a: nat, e: nat, ops: Ops)
    requires |s| > 0 && s[0] == '-'
    requires NumeralAt(s, 1, a) && a < |s| && BinaryChar(s[a])
    requires NumeralAt(s, a + 1, e) && e < |s| && Closing(s[e])
    ensures Evaluate(s, ops) == Returns(Ok(Combine(ops, OperatorKind(s[a]), -Val(s, 1, a), Val(s, a + 1, e))))
  {
    var (st0, stEnd) := (CharAt(s, 0), CharAt(s, e));
    var (x, y) := (Val(s, 1, a), Val(s, a + 1, e));
    LexChar(s, Initial, 0);
    TwoLexed(s, ops, st0, 1, a, e);
    BinaryCharAt(s, a);
    NegatedTwo(Lexed(s), ops, st0, NumAt(s, 1, a), x, CharAt(s, a), NumAt(s, a + 1, e), y, stEnd);
    LineValue(s, ops, st0, Ok(Combine(ops, OperatorKind(s[a]), -x, y)), stEnd);
  }

  /** -5^2 is (-5)^2. */
  lemma NegationBeforePower(s: string, ops: Ops)
    requires s == "-5^2\n"
    ensures Evaluate(s, ops) == Returns(Ok(ops.pow(-5.0, 2.0)))
  {
    DigitAt(s, 1);
    DigitAt(s, 3);
    NegatedLine(s, 2, 4, ops);
  }

  /** Two minus signs cancel. */
  lemma DoubleNegationLine(s: string, e: nat, ops: Ops)
    requires |s| > 1 && s[0] == '-' && s[1] == '-'
    requires NumeralAt(s, 2, e) && e < |s| && Closing(s[e])
    ensures Evaluate(s, ops) == Returns(Ok(Val(s, 2, e)))
  {
    var (st0, st1) := (CharAt(s, 0), CharAt(s, 1));
    LexChar(s, Initial, 0);
    LexChar(s, st0, 1);
    OperandAt(s, ops, st1, 2, e);
    ClosingCharAt(s, e);
    DoubleNegated(Lexed(s), ops, st0, st1, NumAt(s, 2, e), Val(s, 2, e), CharAt(s, e));
    LineValue(s, ops, st0, Ok(Val(s, 2, e)), CharAt(s, e));
  }

  lemma MinusMinusFive(s: string, ops: Ops)
    requires s == "--5\n"
    ensures Evaluate(s, ops) == Returns(Ok(5.0))
  {
    DigitAt(s, 2);
    DoubleNegationLine(s, 3, ops);
  }

  /** A bracketed x k y at the start of the line is an operand with the
      value x k y, and leaves the lexer on the token after the bracket. */
  lemma GroupAt(s: string, ops: Ops, a: nat, b: nat)
    requires |s| > 0 && Opening(s[0])
    requires NumeralAt(s, 1, a) && a < |s| && BinaryChar(s[a])
    requires NumeralAt(s, a + 1, b) && b + 1 < |s| && Closer(s[b])
    requires IsOperator(s[b + 1]) || IsStray(s[b + 1])
    ensures Lexed(s).advance(Initial) == (true, CharAt(s, 0))
    ensures Operand(Lexed(s), ops, CharAt(s, 0),
                    Combine(ops, OperatorKind(s[a]), Val(s, 1, a), Val(s, a + 1, b)), CharAt(s, b + 1))
  {
    LexChar(s, Initial, 0);
    TwoLexed(s, ops, CharAt(s, 0), 1, a, b);
    ClosingCharAt(s, b);
    LexChar(s, CharAt(s, b), b + 1);
    BracketedTwo(Lexed(s), ops, CharAt(s, 0), NumAt(s, 1, a), Val(s, 1, a), CharAt(s, a),
                 NumAt(s, a + 1, b), Val(s, a + 1, b), CharAt(s, b));
  }

  /** A bracketed x k y that closes at the very end of the line is x k y:
      the closing bracket stays current and ends every layer. */
  lemma BracketedLine(s: string, a: nat, b: nat, ops: Ops)
    requires |s| > 0 && Opening(s[0])
    requires NumeralAt(s, 1, a) && a < |s| && BinaryChar(s[a])
    requires NumeralAt(s, a + 1, b) && b == |s| - 1 && Closer(s[b])
    ensures Evaluate(s, ops) == Returns(Ok(Combine(ops, OperatorKind(s[a]), Val(s, 1, a), Val(s, a + 1, b))))
  {
    var (st0, stEnd) := (CharAt(s, 0), CharAt(s, b));
    var v := Combine(ops, OperatorKind(s[a]), Val(s, 1, a), Val(s, a + 1, b));
    LexChar(s, Initial, 0);
    TwoLexed(s, ops, st0, 1, a, b);
    ClosingCharAt(s, b);
    LexEnd(s, stEnd);
    BracketedTwo(Lexed(s), ops, st0, NumAt(s, 1, a), Val(s, 1, a), CharAt(s, a),
                 NumAt(s, a + 1, b), Val(s, a + 1, b), stEnd);
    OneChain(Lexed(s), ops, st0, v, stEnd);
    LineValue(s, ops, st0, Ok(v), stEnd);
  }

  /** Either bracket style closes either: [1+2) and (1+2] are both 3. */
  lemma BracketStyles(s1: string, s2: string, ops: Ops)
    requires s1 == "[1+2)" && s2 == "(1+2]"
    ensures Evaluate(s1, ops) == Returns(Ok(3.0))
    ensures Evaluate(s2, ops) == Returns(Ok(3.0))
  {
    DigitAt(s1, 1);
    DigitAt(s1, 3);
    DigitAt(s2, 1);
    DigitAt(s2, 3);
    assert OperatorKind(s1[2]) == Add && OperatorKind(s2[2]) == Add;
    BracketedLine(s1, 2, 4, ops);
    BracketedLine(s2, 2, 4, ops);
  }

  /** (x k1 y) k2 z is (x k1 y) k2 z whatever the operators: brackets
      override precedence and grouping; '[' ']' are brackets too. */
  lemma GroupedLine(s: string, a: nat, b: nat, e: nat, ops: Ops)
    requires |s| > 0 && Opening(s[0])
    requires NumeralAt(s, 1, a) && a < |s| && BinaryChar(s[a])
    requires NumeralAt(s, a + 1, b) && b + 1 < |s| && Closer(s[b]) && BinaryChar(s[b + 1])
    requires NumeralAt(s, b + 2, e) && e < |s| && Closing(s[e])
    ensures Evaluate(s, ops)
         == Returns(Ok(Combine(ops, OperatorKind(s[b + 1]),
                               Combine(ops, OperatorKind(s[a]), Val(s, 1, a), Val(s, a + 1, b)),
                               Val(s, b + 2, e))))
  {
    var (st0, st5, st6, stEnd) := (CharAt(s, 0), CharAt(s, b + 1), NumAt(s, b + 2, e), CharAt(s, e));
    var v := Combine(ops, OperatorKind(s[a]), Val(s, 1, a), Val(s, a + 1, b));
    GroupAt(s, ops, a, b);
    BinaryCharAt(s, b + 1);
    OperandAt(s, ops, st5, b + 2, e);
    ClosingCharAt(s, e);
    TwoChain(Lexed(s), ops, st0, v, st5, st6, Val(s, b + 2, e), stEnd);
    LineValue(s, ops, st0, Ok(Combine(ops, OperatorKind(s[b + 1]), v, Val(s, b + 2, e))), stEnd);
  }

  /** (2+3)*4 is 20. */
  lemma BracketsFirst(s: string, ops: Ops)
    requires s == "(2+3)*4\n"
    ensures Evaluate(s, ops) == Returns(Ok(20.0))
  {
    DigitAt(s, 1);
    DigitAt(s, 3);
    DigitAt(s, 6);
    assert OperatorKind(s[2]) == Add && OperatorKind(s[5]) == Mul;
    assert Val(s, 1, 2) == 2.0 && Val(s, 3, 4) == 3.0 && Val(s, 6, 7) == 4.0;
    GroupedLine(s, 2, 4, 7, ops);
  }

  /** A bracket left open is an error where the closing bracket should be. */
  lemma UnclosedLine(s: string, e: nat, ops: Ops)
    requires |s| > 0 && Opening(s[0])
    requires NumeralAt(s, 1, e) && e < |s| && IsStray(s[e])
    ensures Evaluate(s, ops) == Returns(Err(e))
  {
    var src := Lexed(s);
    var (st0, st1, stEnd) := (CharAt(s, 0), NumAt(s, 1, e), CharAt(s, e));
    var x := Val(s, 1, e);
    LexChar(s, Initial, 0);
    OperandAt(s, ops, st0, 1, e);
    ClosingCharAt(s, e);
    OneChain(src, ops, st1, x, stEnd);
    Unclosed(src, ops, st0, st1, x, stEnd);
    LineValue(s, ops, st0, Err(e), stEnd);
  }

  lemma OpenParen(s: string, ops: Ops)
    requires s == "(1\n"
    ensures Evaluate(s, ops) == Returns(Err(2))
  {
    DigitAt(s, 1);
    UnclosedLine(s, 2, ops);
  }

  /** A bracket whose last operand runs into the end of the input: that
      number falls through into the Error token just past the end, so the
      missing operand is reported at the input length. */
  lemma UnclosedAtEnd(s: string, a: nat, ops: Ops)
    requires |s| > 0 && Opening(s[0])
    requires NumeralAt(s, 1, a) && a < |s| && BinaryChar(s[a])
    requires NumeralAt(s, a + 1, |s|)
    ensures Evaluate(s, ops) == Returns(Err(|s|))
  {
    var src := Lexed(s);
    var (st0, st1, st2, stEnd) := (CharAt(s, 0), NumAt(s, 1, a), CharAt(s, a), PastEnd(s));
    LexChar(s, Initial, 0);
    OperandAt(s, ops, st0, 1, a);
    BinaryCharAt(s, a);
    LexAtEnd(s, st2, a + 1);
    MissingOperand(src, ops, st1, Val(s, 1, a), st2);
    FailsInside(src, ops, st0, st1, |s|, stEnd);
    LineValue(s, ops, st0, Err(|s|), stEnd);
  }

  /** (1+2 fails at offset 4, the input length. */
  lemma OpenSum(s: string, ops: Ops)
    requires s == "(1+2"
    ensures Evaluate(s, ops) == Returns(Err(4))
  {
    DigitAt(s, 1);
    DigitAt(s, 3);
    UnclosedAtEnd(s, 2, ops);
  }

  /** A closing bracket as the very last character stays the current token
      and closes two open brackets at once. */
  lemma StaleCloseLine(s: string, e: nat, ops: Ops)
    requires |s| > 1 && Opening(s[0]) && Opening(s[1])
    requires NumeralAt(s, 2, e) && e == |s| - 1 && Closer(s[e])
    ensures Evaluate(s, ops) == Returns(Ok(Val(s, 2, e)))
  {
    var src := Lexed(s);
    var (st0, st1, st2, stEnd) := (CharAt(s, 0), CharAt(s, 1), NumAt(s, 2, e), CharAt(s, e));
    var x := Val(s, 2, e);
    LexChar(s, Initial, 0);
    LexChar(s, st0, 1);
    OperandAt(s, ops, st1, 2, e);
    ClosingCharAt(s, e);
    OneChain(src, ops, st2, x, stEnd);
    LexEnd(s, stEnd);
    StaleClose(src, ops, st1, st2, x, stEnd);
    StaleClose(src, ops, st0, st1, x, stEnd);
    LineValue(s, ops, st0, Ok(x), stEnd);
  }

  lemma OneCloseForTwo(s: string, ops: Ops)
    requires s == "((1)"
    ensures Evaluate(s, ops) == Returns(Ok(1.0))
  {
    DigitAt(s, 2);
    StaleCloseLine(s, 3, ops);
  }

  // ----- the end of the input -----

  /** A binary operator at the very end: '-' never returns, any other
      operator is an error at its own position. */
  lemma DanglingLine(s: string, a: nat, ops: Ops)
    requires NumeralAt(s, 0, a) && a == |s| - 1 && BinaryChar(s[a])
    ensures s[a] == '-' ==> Evaluate(s, ops) == Diverges
    ensures s[a] != '-' ==> Evaluate(s, ops) == Returns(Err(a))
  {
    var src := Lexed(s);
    var (st1, st2) := (NumAt(s, 0, a), CharAt(s, a));
    OperandAt(s, ops, Initial, 0, a);
    BinaryCharAt(s, a);
    LexEnd(s, st2);
    Dangling(src, ops, st1, Val(s, 0, a), st2);
    if s[a] == '-' {
      LineDiverges(s, ops, st1);
    } else {
      LineValue(s, ops, st1, Err(a), st2);
    }
  }

  lemma OperatorLast(s1: string, s2: string, ops: Ops)
    requires s1 == "1+" && s2 == "1-"
    ensures Evaluate(s1, ops) == Returns(Err(1))
    ensures Evaluate(s2, ops) == Diverges
  {
    DigitAt(s1, 0);
    DigitAt(s2, 0);
    DanglingLine(s1, 1, ops);
    DanglingLine(s2, 1, ops);
  }

  /** '-' or an opening bracket with only spaces after it never returns. */
  lemma StuckLine(s: string, ops: Ops)
    requires |s| > 0 && (s[0] == '-' || Opening(s[0]))
    requires forall k :: 1 <= k < |s| ==> s[k] == ' '
    ensures Evaluate(s, ops) == Diverges
  {
    var st0 := CharAt(s, 0);
    LexChar(s, Initial, 0);
    LexEnd(s, st0);
    Stuck(Lexed(s), ops, st0);
    LineDiverges(s, ops, st0);
  }

  lemma NothingAfter(s1: string, s2: string, ops: Ops)
    requires s1 == "-" && s2 == "("
    ensures Evaluate(s1, ops) == Diverges
    ensures Evaluate(s2, ops) == Diverges
  {
    StuckLine(s1, ops);
    StuckLine(s2, ops);
  }

  /** An empty or blank line is an error at offset 0: the zero-initialised
      current token is an Error token there. */
  lemma BlankLine(s: string, ops: Ops)
    requires forall k :: 0 <= k < |s| ==> s[k] == ' '
    ensures Evaluate(s, ops) == Returns(Err(0))
  {
    LexEnd(s, Initial);
    ExprStops(Lexed(s), ops, Initial);
    LineValue(s, ops, Initial, Err(0), Initial);
  }

  lemma Blank(s1: string, s2: string, ops: Ops)
    requires s1 == "" && s2 == "   "
    ensures Evaluate(s1, ops) == Returns(Err(0))
    ensures Evaluate(s2, ops) == Returns(Err(0))
  {
    BlankLine(s1, ops);
    BlankLine(s2, ops);
  }
}
