/** The recursive-descent evaluator, as functions that thread the lexer
    state through:

      Expr    := AddSub
      AddSub  := MulDiv (('+' | '-') AddSub)?
      MulDiv  := Exp    (('*' | '/') MulDiv)?
      Exp     := Primary ('^' Exp)?
      Primary := Number | '-' Primary | '(' Expr ')'

    Each function returns the result together with the lexer state it leaves
    behind, or Loop where the C function never returns: evalPrimary on '('
    or '-' whose advance_tok finds only spaces left re-enters itself with an
    unchanged lexer state. The functions draw their tokens from a Source, an
    advance step that only moves forward; Evaluate runs them on the lexer's
    own advance_tok over the input. */
module Grammar {
  import opened Tokens
  import opened Lexing

  /** The evaluation result: a value, or the offset of a syntax error. */
  datatype Result = Ok(value: real) | Err(pos: nat)

  /** The outcome of one grammar function: it returns a result and a lexer
      state, or it never returns. */
  datatype Run = Halt(res: Result, after: LexState) | Loop

  /** The outcome of evaluating a whole line. */
  datatype Evaluation = Returns(result: Result) | Diverges

  /** The floating-point operations the evaluator borrows: '^' is pow from
      the C library and '/' is floating-point division (which gives an
      infinity or NaN for a zero divisor). They are parameters of the model. */
  datatype Ops = Ops(pow: (real, real) -> real, div: (real, real) -> real)

  /** Where the tokens come from: one call of advance_tok on a lexer state,
      over an input of length len. */
  datatype Source = Source(len: nat, advance: LexState -> (bool, LexState))

  /** One advance from st either finds no token and changes nothing, or moves
      the cursor forward, at most to len+1, onto a token that starts at most
      at len. */
  predicate Advances(src: Source, st: LexState)
  {
    var (moved, st1) := src.advance(st);
    && (!moved ==> st1 == st)
    && (moved ==> st.idx < st1.idx <= src.len + 1 && st1.cur.start <= src.len)
  }

  ghost predicate Forward(src: Source) { forall st: LexState :: Advances(src, st) }

  /** advance_tok over the input s as a source of tokens. */
  function Lexed(s: string): (src: Source)
    ensures src.len == |s| && Forward(src)
    ensures forall st: LexState :: src.advance(st) == Step(s, st)
  {
    Source(|s|, st => Step(s, st))
  }

  /** The token kinds a primary expression can start with. */
  predicate StartsPrimary(k: Kind) { k == LP || k == Number || k == Sub }

  /** The termination measure: how far the cursor may still move. */
  function Remaining(src: Source, st: LexState): nat
  {
    if st.idx <= src.len + 1 then src.len + 1 - st.idx else 0
  }

  /** A grammar function either leaves the lexer untouched or moves the
      cursor forward (never past |s|+1) onto a token that starts inside the
      input or just past its end. */
  predicate Moved(src: Source, st: LexState, st': LexState)
  {
    st' == st || (st.idx < st'.idx <= src.len + 1 && st'.cur.start <= src.len)
  }

  /** What every grammar function guarantees about its outcome: the cursor
      only moves forward; a success means the first token could start a
      primary, and a success that leaves the lexer untouched read a number
      whose advance found the end of the input; an error is reported at the
      start of the token that is current when evaluation stops. */
  predicate Sound(src: Source, st: LexState, r: Run)
  {
    r.Halt? ==>
      && Moved(src, st, r.after)
      && (r.res.Ok? ==> StartsPrimary(st.cur.kind))
      && (r.res.Ok? && r.after == st ==> st.cur.kind == Number)
      && (r.res.Err? ==> r.res.pos == r.after.cur.start)
  }

  /** evalPrimary. */
  function Primary(src: Source, ops: Ops, st: LexState): (r: Run)
    requires Forward(src)
    ensures Sound(src, st, r)
    decreases Remaining(src, st), 0
  {
    match st.cur.kind
    case LP =>
      assert Advances(src, st);
      var (moved, st1) := src.advance(st);
      if !moved then Loop
      else
        (match Expr(src, ops, st1)
         case Halt(Ok(v), st2) =>
           if st2.cur.kind != RP then Halt(Err(st2.cur.start), st2)
           else assert Advances(src, st2); Halt(Ok(v), src.advance(st2).1)
         case other => other)
    case Number =>
      assert Advances(src, st);
      Halt(Ok(st.cur.num), src.advance(st).1)
    case Sub =>
      assert Advances(src, st);
      var (moved, st1) := src.advance(st);
      if !moved then Loop
      else
        (match Primary(src, ops, st1)
         case Halt(Ok(v), st2) => Halt(Ok(-v), st2)
         case other => other)
    case _ =>
      Halt(Err(st.cur.start), st)
  }

  /** evalExp: '^', right-associative. */
  function Power(src: Source, ops: Ops, st: LexState): (r: Run)
    requires Forward(src)
    ensures Sound(src, st, r)
    decreases Remaining(src, st), 1
  {
    match Primary(src, ops, st)
    case Halt(Ok(a), st1) =>
      if st1.cur.kind != Exp then Halt(Ok(a), st1)
      else
        assert Advances(src, st1);
        (match Power(src, ops, src.advance(st1).1)
         case Halt(Ok(b), st2) => Halt(Ok(ops.pow(a, b)), st2)
         case other => other)
    case other => other
  }

  /** The value of a * b or a / b. */
  function MulDivOp(ops: Ops, op: Kind, a: real, b: real): real
  {
    if op == Mul then a * b else ops.div(a, b)
  }

  /** evalMulDiv: '*' and '/', combined with the rest of the same layer. */
  function MulDiv(src: Source, ops: Ops, st: LexState): (r: Run)
    requires Forward(src)
    ensures Sound(src, st, r)
    decreases Remaining(src, st), 2
  {
    match Power(src, ops, st)
    case Halt(Ok(a), st1) =>
      var op := st1.cur.kind;
      if op != Mul && op != Div then Halt(Ok(a), st1)
      else
        assert Advances(src, st1);
        (match MulDiv(src, ops, src.advance(st1).1)
         case Halt(Ok(b), st2) =>
           Halt(Ok(MulDivOp(ops, op, a, b)), st2)
         case other => other)
    case other => other
  }

  /** evalAddSub: '+' and '-', combined with the rest of the same layer. */
  function AddSub(src: Source, ops: Ops, st: LexState): (r: Run)
    requires Forward(src)
    ensures Sound(src, st, r)
    decreases Remaining(src, st), 3
  {
    match MulDiv(src, ops, st)
    case Halt(Ok(a), st1) =>
      var op := st1.cur.kind;
      if op != Add && op != Sub then Halt(Ok(a), st1)
      else
        assert Advances(src, st1);
        (match AddSub(src, ops, src.advance(st1).1)
         case Halt(Ok(b), st2) =>
           Halt(Ok(if op == Add then a + b else a - b), st2)
         case other => other)
    case other => other
  }

  /** evalExpr. */
  function Expr(src: Source, ops: Ops, st: LexState): (r: Run)
    requires Forward(src)
    ensures Sound(src, st, r)
    decreases Remaining(src, st), 4
  {
    AddSub(src, ops, st)
  }

  /** eval: prime the first token, evaluate one expression, and ignore
      whatever follows it. An error offset is never past the end of the
      input. */
  function Evaluate(s: string, ops: Ops): (e: Evaluation)
    ensures e.Returns? && e.result.Err? ==> e.result.pos <= |s|
  {
    var src := Lexed(s);
    match Expr(src, ops, src.advance(Initial).1)
    case Halt(res, _) => Returns(res)
    case Loop => Diverges
  }

  /** After an operand that ends on a token other than a number, one more
      advance leaves strictly less input than there was before the operand:
      the recursion on the right operand of a binary operator terminates. */
  lemma OperandProgress(src: Source, st: LexState, r: Run)
    requires Forward(src)
    requires Sound(src, st, r) && r.Halt? && r.res.Ok? && r.after.cur.kind != Number
    ensures Remaining(src, src.advance(r.after).1) < Remaining(src, st)
  {
    assert Advances(src, r.after);
  }
}
