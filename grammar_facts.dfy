/** What the evaluator guarantees as a whole: when it returns, what it
    returns on a token that cannot start an operand, and that it stays
    inside the input. */
module GrammarFacts {
  import opened Tokens
  import opened Lexing
  import opened LexingFacts
  import opened Grammar

  /** The input ends in a character that lexes as a one-character Error
      token, like the newline a line read by fgets keeps. */
  predicate Terminated(s: string) { |s| > 0 && IsStray(s[|s| - 1]) }

  /** A lexer state inside a terminated input: the cursor never passes the
      end, the current token starts inside the input, and only an Error
      token can be current once the cursor has reached the end. */
  predicate Good(s: string, st: LexState)
  {
    && st.idx <= |s|
    && st.cur.start < |s|
    && (st.cur.kind != Error ==> st.idx < |s|)
  }

  /** An advance keeps a state good, and from inside the input it always
      produces a token. */
  lemma StepGood(s: string, st: LexState)
    requires Terminated(s) && Good(s, st)
    ensures Good(s, Step(s, st).1)
    ensures st.idx < |s| ==> Step(s, st).0
  {
    if st.idx < |s| {
      TerminatedNext(s, st.idx);
    }
  }

  /** On a terminated input every grammar function returns, and leaves a
      good state behind. Hence no call of advance_tok starts past the end of
      the input, where the C code would read outside the buffer. */
  lemma {:induction false} PrimaryHalts(s: string, ops: Ops, st: LexState)
    requires Terminated(s) && Good(s, st)
    ensures Primary(Lexed(s), ops, st).Halt? && Good(s, Primary(Lexed(s), ops, st).after)
    decreases Remaining(Lexed(s), st), 0
  {
    match st.cur.kind
    case LP =>
      StepGood(s, st);
      var st1 := Step(s, st).1;
      ExprHalts(s, ops, st1);
      var r := Expr(Lexed(s), ops, st1);
      if r.res.Ok? && r.after.cur.kind == RP {
        StepGood(s, r.after);
      }
    case Number =>
      StepGood(s, st);
    case Sub =>
      StepGood(s, st);
      PrimaryHalts(s, ops, Step(s, st).1);
    case _ =>
  }

  lemma {:induction false} PowerHalts(s: string, ops: Ops, st: LexState)
    requires Terminated(s) && Good(s, st)
    ensures Power(Lexed(s), ops, st).Halt? && Good(s, Power(Lexed(s), ops, st).after)
    decreases Remaining(Lexed(s), st), 1
  {
    PrimaryHalts(s, ops, st);
    var r := Primary(Lexed(s), ops, st);
    if r.res.Ok? && r.after.cur.kind == Exp {
      StepGood(s, r.after);
      OperandProgress(Lexed(s), st, r);
      PowerHalts(s, ops, Step(s, r.after).1);
    }
  }

  lemma {:induction false} MulDivHalts(s: string, ops: Ops, st: LexState)
    requires Terminated(s) && Good(s, st)
    ensures MulDiv(Lexed(s), ops, st).Halt? && Good(s, MulDiv(Lexed(s), ops, st).after)
    decreases Remaining(Lexed(s), st), 2
  {
    PowerHalts(s, ops, st);
    var r := Power(Lexed(s), ops, st);
    if r.res.Ok? && (r.after.cur.kind == Mul || r.after.cur.kind == Div) {
      StepGood(s, r.after);
      OperandProgress(Lexed(s), st, r);
      MulDivHalts(s, ops, Step(s, r.after).1);
    }
  }

  lemma {:induction false} AddSubHalts(s: string, ops: Ops, st: LexState)
    requires Terminated(s) && Good(s, st)
    ensures AddSub(Lexed(s), ops, st).Halt? && Good(s, AddSub(Lexed(s), ops, st).after)
    decreases Remaining(Lexed(s), st), 3
  {
    MulDivHalts(s, ops, st);
    var r := MulDiv(Lexed(s), ops, st);
    if r.res.Ok? && (r.after.cur.kind == Add || r.after.cur.kind == Sub) {
      StepGood(s, r.after);
      OperandProgress(Lexed(s), st, r);
      AddSubHalts(s, ops, Step(s, r.after).1);
    }
  }

  lemma {:induction false} ExprHalts(s: string, ops: Ops, st: LexState)
    requires Terminated(s) && Good(s, st)
    ensures Expr(Lexed(s), ops, st).Halt? && Good(s, Expr(Lexed(s), ops, st).after)
    decreases Remaining(Lexed(s), st), 4
  {
    AddSubHalts(s, ops, st);
  }

  /** eval on a terminated line returns, and a reported error offset lies
      inside the line. */
  lemma EvaluateReturns(s: string, ops: Ops)
    requires Terminated(s)
    ensures Evaluate(s, ops).Returns?
    ensures Evaluate(s, ops).result.Err? ==> Evaluate(s, ops).result.pos < |s|
  {
    StepGood(s, Initial);
    ExprHalts(s, ops, Step(s, Initial).1);
  }

  /** Two token sources over inputs of the same length that agree on every
      state whose current token is not an Error token. */
  ghost predicate AgreeOffError(a: Source, b: Source)
  {
    a.len == b.len && forall st: LexState :: st.cur.kind != Error ==> a.advance(st) == b.advance(st)
  }

  /** The evaluator never calls advance_tok while the current token is an
      Error token: each layer gives the same outcome on any two sources
      that agree everywhere else, so what an advance would do from an Error
      token never matters. Only eval's priming call, on the zero-initialised
      context, advances from an Error token. */
  lemma {:induction false} PrimaryOffError(a: Source, b: Source, ops: Ops, st: LexState)
    requires Forward(a) && Forward(b) && AgreeOffError(a, b)
    ensures Primary(a, ops, st) == Primary(b, ops, st)
    decreases Remaining(a, st), 0
  {
    match st.cur.kind
    case LP =>
      assert Advances(a, st);
      var (moved, st1) := a.advance(st);
      if moved {
        ExprOffError(a, b, ops, st1);
      }
    case Number =>
    case Sub =>
      assert Advances(a, st);
      var (moved, st1) := a.advance(st);
      if moved {
        PrimaryOffError(a, b, ops, st1);
      }
    case _ =>
  }

  lemma {:induction false} PowerOffError(a: Source, b: Source, ops: Ops, st: LexState)
    requires Forward(a) && Forward(b) && AgreeOffError(a, b)
    ensures Power(a, ops, st) == Power(b, ops, st)
    decreases Remaining(a, st), 1
  {
    PrimaryOffError(a, b, ops, st);
    var r := Primary(a, ops, st);
    if r.Halt? && r.res.Ok? && r.after.cur.kind == Exp {
      OperandProgress(a, st, r);
      PowerOffError(a, b, ops, a.advance(r.after).1);
    }
  }

  lemma {:induction false} MulDivOffError(a: Source, b: Source, ops: Ops, st: LexState)
    requires Forward(a) && Forward(b) && AgreeOffError(a, b)
    ensures MulDiv(a, ops, st) == MulDiv(b, ops, st)
    decreases Remaining(a, st), 2
  {
    PowerOffError(a, b, ops, st);
    var r := Power(a, ops, st);
    if r.Halt? && r.res.Ok? && (r.after.cur.kind == Mul || r.after.cur.kind == Div) {
      OperandProgress(a, st, r);
      MulDivOffError(a, b, ops, a.advance(r.after).1);
    }
  }

  lemma {:induction false} AddSubOffError(a: Source, b: Source, ops: Ops, st: LexState)
    requires Forward(a) && Forward(b) && AgreeOffError(a, b)
    ensures AddSub(a, ops, st) == AddSub(b, ops, st)
    decreases Remaining(a, st), 3
  {
    MulDivOffError(a, b, ops, st);
    var r := MulDiv(a, ops, st);
    if r.Halt? && r.res.Ok? && (r.after.cur.kind == Add || r.after.cur.kind == Sub) {
      OperandProgress(a, st, r);
      AddSubOffError(a, b, ops, a.advance(r.after).1);
    }
  }

  lemma {:induction false} ExprOffError(a: Source, b: Source, ops: Ops, st: LexState)
    requires Forward(a) && Forward(b) && AgreeOffError(a, b)
    ensures Expr(a, ops, st) == Expr(b, ops, st)
    decreases Remaining(a, st), 4
  {
    AddSubOffError(a, b, ops, st);
  }

  /** A current token that cannot start an operand (an Error token, a
      closing bracket or a binary operator) makes every layer fail at that
      token's start without advancing the lexer. */
  lemma PrimaryStops(src: Source, ops: Ops, st: LexState)
    requires Forward(src)
    requires !StartsPrimary(st.cur.kind)
    ensures Primary(src, ops, st) == Halt(Err(st.cur.start), st)
  {
  }

  lemma PowerStops(src: Source, ops: Ops, st: LexState)
    requires Forward(src)
    requires !StartsPrimary(st.cur.kind)
    ensures Power(src, ops, st) == Halt(Err(st.cur.start), st)
  {
    PrimaryStops(src, ops, st);
  }

  lemma MulDivStops(src: Source, ops: Ops, st: LexState)
    requires Forward(src)
    requires !StartsPrimary(st.cur.kind)
    ensures MulDiv(src, ops, st) == Halt(Err(st.cur.start), st)
  {
    PowerStops(src, ops, st);
  }

  lemma ExprStops(src: Source, ops: Ops, st: LexState)
    requires Forward(src)
    requires !StartsPrimary(st.cur.kind)
    ensures Expr(src, ops, st) == Halt(Err(st.cur.start), st)
  {
    MulDivStops(src, ops, st);
  }

  /** The first failure (an error, or a call that never returns) of the
      leftmost primary passes unchanged through every layer. */
  lemma FailurePropagates(src: Source, ops: Ops, st: LexState)
    requires Forward(src)
    requires Primary(src, ops, st).Loop? || Primary(src, ops, st).res.Err?
    ensures Power(src, ops, st) == Primary(src, ops, st)
    ensures MulDiv(src, ops, st) == Primary(src, ops, st)
    ensures Expr(src, ops, st) == Primary(src, ops, st)
  {
    assert Power(src, ops, st) == Primary(src, ops, st);
    assert MulDiv(src, ops, st) == Primary(src, ops, st);
  }

  /** A failure of the right operand is the failure of its layer: once the
      left operand is in and the layer's operator is current, an error or a
      call that never returns from the recursive call on the token after the
      operator is the layer's whole outcome. */
  lemma PowerRightFails(src: Source, ops: Ops, st: LexState, a: real, st1: LexState)
    requires Forward(src)
    requires Primary(src, ops, st) == Halt(Ok(a), st1) && st1.cur.kind == Exp
    requires var r := Power(src, ops, src.advance(st1).1); r.Loop? || r.res.Err?
    ensures Power(src, ops, st) == Power(src, ops, src.advance(st1).1)
  {
  }

  lemma MulDivRightFails(src: Source, ops: Ops, st: LexState, a: real, st1: LexState)
    requires Forward(src)
    requires Power(src, ops, st) == Halt(Ok(a), st1) && (st1.cur.kind == Mul || st1.cur.kind == Div)
    requires var r := MulDiv(src, ops, src.advance(st1).1); r.Loop? || r.res.Err?
    ensures MulDiv(src, ops, st) == MulDiv(src, ops, src.advance(st1).1)
  {
  }

  lemma AddSubRightFails(src: Source, ops: Ops, st: LexState, a: real, st1: LexState)
    requires Forward(src)
    requires MulDiv(src, ops, st) == Halt(Ok(a), st1) && (st1.cur.kind == Add || st1.cur.kind == Sub)
    requires var r := AddSub(src, ops, src.advance(st1).1); r.Loop? || r.res.Err?
    ensures AddSub(src, ops, st) == AddSub(src, ops, src.advance(st1).1)
    ensures Expr(src, ops, st) == AddSub(src, ops, src.advance(st1).1)
  {
  }

  /** An operand of one layer followed by a token that is none of the next
      layer's operators is that next layer's whole result: a primary is a
      power, a power a product, and a product a sum and an expression. */
  lemma PrimaryEnds(src: Source, ops: Ops, st: LexState, v: real, st1: LexState)
    requires Forward(src)
    requires Primary(src, ops, st) == Halt(Ok(v), st1) && st1.cur.kind != Exp
    ensures Power(src, ops, st) == Halt(Ok(v), st1)
  {
  }

  lemma PowerEnds(src: Source, ops: Ops, st: LexState, v: real, st1: LexState)
    requires Forward(src)
    requires Power(src, ops, st) == Halt(Ok(v), st1) && st1.cur.kind != Mul && st1.cur.kind != Div
    ensures MulDiv(src, ops, st) == Halt(Ok(v), st1)
  {
  }

  lemma ProductEnds(src: Source, ops: Ops, st: LexState, v: real, st1: LexState)
    requires Forward(src)
    requires MulDiv(src, ops, st) == Halt(Ok(v), st1) && st1.cur.kind != Add && st1.cur.kind != Sub
    ensures AddSub(src, ops, st) == Halt(Ok(v), st1)
    ensures Expr(src, ops, st) == Halt(Ok(v), st1)
  {
  }

  /** The additive layer combines its left operand with the rest of the
      layer: a+b+c is a+(b+c) and a-b-c is a-(b-c). */
  lemma AddSubCombine(src: Source, ops: Ops, st: LexState, a: real, st1: LexState, b: real, st2: LexState)
    requires Forward(src)
    requires MulDiv(src, ops, st) == Halt(Ok(a), st1)
    requires st1.cur.kind == Add || st1.cur.kind == Sub
    requires AddSub(src, ops, src.advance(st1).1) == Halt(Ok(b), st2)
    ensures AddSub(src, ops, st)
         == Halt(Ok(if st1.cur.kind == Add then a + b else a - b), st2)
  {
  }

  /** The multiplicative layer likewise: a/b/c is a/(b/c). */
  lemma MulDivCombine(src: Source, ops: Ops, st: LexState, a: real, st1: LexState, b: real, st2: LexState)
    requires Forward(src)
    requires Power(src, ops, st) == Halt(Ok(a), st1)
    requires st1.cur.kind == Mul || st1.cur.kind == Div
    requires MulDiv(src, ops, src.advance(st1).1) == Halt(Ok(b), st2)
    ensures MulDiv(src, ops, st) == Halt(Ok(MulDivOp(ops, st1.cur.kind, a, b)), st2)
  {
  }

  /** And '^': a^b^c is a^(b^c). */
  lemma PowerCombine(src: Source, ops: Ops, st: LexState, a: real, st1: LexState, b: real, st2: LexState)
    requires Forward(src)
    requires Primary(src, ops, st) == Halt(Ok(a), st1)
    requires st1.cur.kind == Exp
    requires Power(src, ops, src.advance(st1).1) == Halt(Ok(b), st2)
    ensures Power(src, ops, st) == Halt(Ok(ops.pow(a, b)), st2)
  {
  }
}
