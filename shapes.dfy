/** The evaluator on short token sequences, for any source of tokens: the
    grouping and precedence of the binary operators against a reference
    definition, unary minus, brackets, the stale token after the end of the
    input, and the token sequences on which the C code never returns. */
module Shapes {
  import opened Tokens
  import opened Lexing
  import opened Grammar
  import opened GrammarFacts

  /** The kinds of the five binary operators. */
  predicate Binary(k: Kind) { k == Add || k == Sub || k == Mul || k == Div || k == Exp }

  /** How tightly each binary operator binds. */
  function Prec(k: Kind): nat
  {
    if k == Add || k == Sub then 1 else if k == Mul || k == Div then 2 else 3
  }

  /** What a binary operator computes, with '^' and '/' borrowed from ops. */
  function Combine(ops: Ops, k: Kind, a: real, b: real): real
  {
    if k == Add then a + b
    else if k == Sub then a - b
    else if k == Mul || k == Div then MulDivOp(ops, k, a, b)
    else ops.pow(a, b)
  }

  /** The reference value of x k1 y k2 z: the operator that binds tighter goes
      first, and of two operators that bind equally tightly the right one goes
      first, so every operator groups to the right. */
  function ThreeValue(ops: Ops, x: real, k1: Kind, y: real, k2: Kind, z: real): real
  {
    if Prec(k1) > Prec(k2) then Combine(ops, k2, Combine(ops, k1, x, y), z)
    else Combine(ops, k1, x, Combine(ops, k2, y, z))
  }

  /** From st, evalPrimary succeeds with v and leaves the lexer in st'. */
  ghost predicate Operand(src: Source, ops: Ops, st: LexState, v: real, st': LexState)
  {
    Forward(src) && Primary(src, ops, st) == Halt(Ok(v), st')
  }

  /** A number is an operand: its value, and the lexer one token further. */
  lemma NumberOperand(src: Source, ops: Ops, st: LexState)
    requires Forward(src) && st.cur.kind == Number
    ensures Operand(src, ops, st, st.cur.num, src.advance(st).1)
  {
  }

  /** An operand followed by a token that is no binary operator is the result
      of every layer. */
  lemma OneChain(src: Source, ops: Ops, st: LexState, v: real, stEnd: LexState)
    requires Operand(src, ops, st, v, stEnd) && !Binary(stEnd.cur.kind)
    ensures var r := Halt(Ok(v), stEnd);
      && Power(src, ops, st) == r && MulDiv(src, ops, st) == r
      && AddSub(src, ops, st) == r && Expr(src, ops, st) == r
  {
    PrimaryEnds(src, ops, st, v, stEnd);
    PowerEnds(src, ops, st, v, stEnd);
    ProductEnds(src, ops, st, v, stEnd);
  }

  /** Two operands and a binary operator between them, then a token that is
      no binary operator. */
  ghost predicate TwoOperands(src: Source, ops: Ops, st1: LexState, y: real, st2: LexState,
                              st3: LexState, z: real, stEnd: LexState)
  {
    && Operand(src, ops, st1, y, st2) && Binary(st2.cur.kind) && src.advance(st2).1 == st3
    && Operand(src, ops, st3, z, stEnd) && !Binary(stEnd.cur.kind)
  }

  /** y k z: each layer from y takes in the operator k exactly when k binds
      at least as tightly as that layer's own operators; otherwise the layer
      stops after y. */
  lemma TwoChain(src: Source, ops: Ops, st1: LexState, y: real, st2: LexState,
                 st3: LexState, z: real, stEnd: LexState)
    requires TwoOperands(src, ops, st1, y, st2, st3, z, stEnd)
    ensures var k := st2.cur.kind;
      var r := Combine(ops, k, y, z);
      && Power(src, ops, st1) == (if Prec(k) >= 3 then Halt(Ok(r), stEnd) else Halt(Ok(y), st2))
      && MulDiv(src, ops, st1) == (if Prec(k) >= 2 then Halt(Ok(r), stEnd) else Halt(Ok(y), st2))
      && AddSub(src, ops, st1) == Halt(Ok(r), stEnd)
      && Expr(src, ops, st1) == Halt(Ok(r), stEnd)
  {
    var k := st2.cur.kind;
    var r := Combine(ops, k, y, z);
    OneChain(src, ops, st3, z, stEnd);
    if k == Exp {
      PowerCombine(src, ops, st1, y, st2, z, stEnd);
      PowerEnds(src, ops, st1, r, stEnd);
      ProductEnds(src, ops, st1, r, stEnd);
    } else if k == Mul || k == Div {
      PrimaryEnds(src, ops, st1, y, st2);
      MulDivCombine(src, ops, st1, y, st2, z, stEnd);
      ProductEnds(src, ops, st1, r, stEnd);
    } else {
      PrimaryEnds(src, ops, st1, y, st2);
      PowerEnds(src, ops, st1, y, st2);
      AddSubCombine(src, ops, st1, y, st2, z, stEnd);
    }
  }

  /** Three operands and two binary operators, then a token that is no
      binary operator. */
  ghost predicate ThreeOperands(src: Source, ops: Ops, st1: LexState, x: real, st2: LexState,
                                st3: LexState, y: real, st4: LexState,
                                st5: LexState, z: real, stEnd: LexState)
  {
    && Operand(src, ops, st1, x, st2) && Binary(st2.cur.kind) && src.advance(st2).1 == st3
    && TwoOperands(src, ops, st3, y, st4, st5, z, stEnd)
  }

  /** x k1 y k2 z evaluates to the reference value: the grammar's layers give
      the operators their precedence, and the recursion on the right operand
      makes each layer group to the right. */
  lemma ThreeChain(src: Source, ops: Ops, st1: LexState, x: real, st2: LexState,
                   st3: LexState, y: real, st4: LexState,
                   st5: LexState, z: real, stEnd: LexState)
    requires ThreeOperands(src, ops, st1, x, st2, st3, y, st4, st5, z, stEnd)
    ensures Expr(src, ops, st1)
         == Halt(Ok(ThreeValue(ops, x, st2.cur.kind, y, st4.cur.kind, z)), stEnd)
  {
    var k1 := st2.cur.kind;
    if k1 == Exp {
      ThreeAfterPower(src, ops, st1, x, st2, st3, y, st4, st5, z, stEnd);
    } else if k1 == Mul || k1 == Div {
      ThreeAfterProduct(src, ops, st1, x, st2, st3, y, st4, st5, z, stEnd);
    } else {
      TwoChain(src, ops, st3, y, st4, st5, z, stEnd);
      PrimaryEnds(src, ops, st1, x, st2);
      PowerEnds(src, ops, st1, x, st2);
      AddSubCombine(src, ops, st1, x, st2, Combine(ops, st4.cur.kind, y, z), stEnd);
    }
  }

  lemma ThreeAfterProduct(src: Source, ops: Ops, st1: LexState, x: real, st2: LexState,
                          st3: LexState, y: real, st4: LexState,
                          st5: LexState, z: real, stEnd: LexState)
    requires ThreeOperands(src, ops, st1, x, st2, st3, y, st4, st5, z, stEnd)
    requires st2.cur.kind == Mul || st2.cur.kind == Div
    ensures Expr(src, ops, st1)
         == Halt(Ok(ThreeValue(ops, x, st2.cur.kind, y, st4.cur.kind, z)), stEnd)
  {
    var (k1, k2) := (st2.cur.kind, st4.cur.kind);
    PrimaryEnds(src, ops, st1, x, st2);
    TwoChain(src, ops, st3, y, st4, st5, z, stEnd);
    if Prec(k2) >= 2 {
      var yz := Combine(ops, k2, y, z);
      MulDivCombine(src, ops, st1, x, st2, yz, stEnd);
      ProductEnds(src, ops, st1, MulDivOp(ops, k1, x, yz), stEnd);
    } else {
      var xy := MulDivOp(ops, k1, x, y);
      MulDivCombine(src, ops, st1, x, st2, y, st4);
      OneChain(src, ops, st5, z, stEnd);
      AddSubCombine(src, ops, st1, xy, st4, z, stEnd);
    }
  }

  lemma ThreeAfterPower(src: Source, ops: Ops, st1: LexState, x: real, st2: LexState,
                        st3: LexState, y: real, st4: LexState,
                        st5: LexState, z: real, stEnd: LexState)
    requires ThreeOperands(src, ops, st1, x, st2, st3, y, st4, st5, z, stEnd)
    requires st2.cur.kind == Exp
    ensures Expr(src, ops, st1)
         == Halt(Ok(ThreeValue(ops, x, st2.cur.kind, y, st4.cur.kind, z)), stEnd)
  {
    var k2 := st4.cur.kind;
    TwoChain(src, ops, st3, y, st4, st5, z, stEnd);
    OneChain(src, ops, st5, z, stEnd);
    if k2 == Exp {
      var v := ops.pow(x, ops.pow(y, z));
      PowerCombine(src, ops, st1, x, st2, ops.pow(y, z), stEnd);
      PowerEnds(src, ops, st1, v, stEnd);
      ProductEnds(src, ops, st1, v, stEnd);
    } else if k2 == Mul || k2 == Div {
      var xy := ops.pow(x, y);
      PowerCombine(src, ops, st1, x, st2, y, st4);
      MulDivCombine(src, ops, st1, xy, st4, z, stEnd);
      ProductEnds(src, ops, st1, MulDivOp(ops, k2, xy, z), stEnd);
    } else {
      var xy := ops.pow(x, y);
      PowerCombine(src, ops, st1, x, st2, y, st4);
      PowerEnds(src, ops, st1, xy, st4);
      AddSubCombine(src, ops, st1, xy, st4, z, stEnd);
    }
  }

  /** Unary minus applies to the operand right after it, before any binary
      operator: -a^b is (-a)^b. */
  lemma Negated(src: Source, ops: Ops, st: LexState, st1: LexState, v: real, st2: LexState)
    requires st.cur.kind == Sub && src.advance(st) == (true, st1)
    requires Operand(src, ops, st1, v, st2)
    ensures Operand(src, ops, st, -v, st2)
  {
  }

  /** A minus sign before x k y negates x alone. */
  lemma NegatedTwo(src: Source, ops: Ops, st: LexState, st1: LexState, y: real, st2: LexState,
                   st3: LexState, z: real, stEnd: LexState)
    requires st.cur.kind == Sub && src.advance(st) == (true, st1)
    requires TwoOperands(src, ops, st1, y, st2, st3, z, stEnd)
    ensures Expr(src, ops, st) == Halt(Ok(Combine(ops, st2.cur.kind, -y, z)), stEnd)
  {
    Negated(src, ops, st, st1, y, st2);
    TwoChain(src, ops, st, -y, st2, st3, z, stEnd);
  }

  /** A bracketed expression is an operand; the lexer moves past the closing
      bracket. */
  lemma Bracketed(src: Source, ops: Ops, st: LexState, st1: LexState, v: real, st2: LexState)
    requires Forward(src)
    requires st.cur.kind == LP && src.advance(st) == (true, st1)
    requires Expr(src, ops, st1) == Halt(Ok(v), st2) && st2.cur.kind == RP
    ensures Operand(src, ops, st, v, src.advance(st2).1)
  {
  }

  /** A bracketed y k z is an operand with the value y k z. */
  lemma BracketedTwo(src: Source, ops: Ops, st: LexState, st1: LexState, y: real, st2: LexState,
                     st3: LexState, z: real, stEnd: LexState)
    requires st.cur.kind == LP && src.advance(st) == (true, st1)
    requires TwoOperands(src, ops, st1, y, st2, st3, z, stEnd) && stEnd.cur.kind == RP
    ensures Operand(src, ops, st, Combine(ops, st2.cur.kind, y, z), src.advance(stEnd).1)
  {
    TwoChain(src, ops, st1, y, st2, st3, z, stEnd);
    Bracketed(src, ops, st, st1, Combine(ops, st2.cur.kind, y, z), stEnd);
  }

  /** Two minus signs before an operand cancel. */
  lemma DoubleNegated(src: Source, ops: Ops, st: LexState, st1: LexState, st2: LexState,
                      v: real, stEnd: LexState)
    requires st.cur.kind == Sub && src.advance(st) == (true, st1)
    requires st1.cur.kind == Sub && src.advance(st1) == (true, st2)
    requires Operand(src, ops, st2, v, stEnd) && !Binary(stEnd.cur.kind)
    ensures Expr(src, ops, st) == Halt(Ok(v), stEnd)
  {
    Negated(src, ops, st1, st2, v, stEnd);
    Negated(src, ops, st, st1, -v, stEnd);
    OneChain(src, ops, st, v, stEnd);
  }

  /** When the closing bracket is the last token, advancing past it finds
      nothing and leaves it current, so it closes every enclosing bracket
      too. */
  lemma StaleClose(src: Source, ops: Ops, st: LexState, st1: LexState, v: real, st2: LexState)
    requires Forward(src)
    requires st.cur.kind == LP && src.advance(st) == (true, st1)
    requires Expr(src, ops, st1) == Halt(Ok(v), st2) && st2.cur.kind == RP
    requires src.advance(st2) == (false, st2)
    ensures Operand(src, ops, st, v, st2) && Expr(src, ops, st) == Halt(Ok(v), st2)
  {
    Bracketed(src, ops, st, st1, v, st2);
    OneChain(src, ops, st, v, st2);
  }

  /** A failure inside a bracket is the failure of the whole expression. */
  lemma FailsInside(src: Source, ops: Ops, st: LexState, st1: LexState, p: nat, st2: LexState)
    requires Forward(src)
    requires st.cur.kind == LP && src.advance(st) == (true, st1)
    requires Expr(src, ops, st1) == Halt(Err(p), st2)
    ensures Expr(src, ops, st) == Halt(Err(p), st2)
  {
    FailurePropagates(src, ops, st);
  }

  /** A bracket left open fails at the start of the token found in place of
      the closing bracket, and that failure is the whole result. */
  lemma Unclosed(src: Source, ops: Ops, st: LexState, st1: LexState, v: real, st2: LexState)
    requires Forward(src)
    requires st.cur.kind == LP && src.advance(st) == (true, st1)
    requires Expr(src, ops, st1) == Halt(Ok(v), st2) && st2.cur.kind != RP
    ensures Expr(src, ops, st) == Halt(Err(st2.cur.start), st2)
  {
    FailurePropagates(src, ops, st);
  }

  /** '-' or '(' with nothing after it: evalPrimary advances, finds nothing,
      and re-enters itself on the same token, forever. */
  lemma Stuck(src: Source, ops: Ops, st: LexState)
    requires Forward(src)
    requires (st.cur.kind == Sub || st.cur.kind == LP) && src.advance(st) == (false, st)
    ensures Expr(src, ops, st) == Loop
  {
    FailurePropagates(src, ops, st);
  }

  /** A binary operator followed by a token that cannot start an operand:
      the right operand fails at that token, and so does the whole
      expression, whatever the operator. */
  lemma MissingOperand(src: Source, ops: Ops, st1: LexState, v: real, st2: LexState)
    requires Operand(src, ops, st1, v, st2) && Binary(st2.cur.kind)
    requires !StartsPrimary(src.advance(st2).1.cur.kind)
    ensures var st3 := src.advance(st2).1;
      Expr(src, ops, st1) == Halt(Err(st3.cur.start), st3)
  {
    var st3 := src.advance(st2).1;
    var k := st2.cur.kind;
    var e := Halt(Err(st3.cur.start), st3);
    PowerStops(src, ops, st3);
    MulDivStops(src, ops, st3);
    ExprStops(src, ops, st3);
    if k == Exp {
      assert Power(src, ops, st1) == e;
      assert MulDiv(src, ops, st1) == e;
      assert AddSub(src, ops, st1) == e;
    } else if k == Mul || k == Div {
      PrimaryEnds(src, ops, st1, v, st2);
      assert MulDiv(src, ops, st1) == e;
      assert AddSub(src, ops, st1) == e;
    } else {
      PrimaryEnds(src, ops, st1, v, st2);
      PowerEnds(src, ops, st1, v, st2);
      assert AddSub(src, ops, st1) == e;
    }
  }

  /** A binary operator with nothing after it: the right operand starts on
      the stale operator token itself. For '-' that is a unary minus with
      nothing after it, which never returns; any other operator is an error
      at its own position. */
  lemma Dangling(src: Source, ops: Ops, st1: LexState, v: real, st2: LexState)
    requires Operand(src, ops, st1, v, st2)
    requires Binary(st2.cur.kind) && src.advance(st2) == (false, st2)
    ensures st2.cur.kind == Sub ==> Expr(src, ops, st1) == Loop
    ensures st2.cur.kind != Sub ==> Expr(src, ops, st1) == Halt(Err(st2.cur.start), st2)
  {
    var k := st2.cur.kind;
    if k == Sub {
      Stuck(src, ops, st2);
      PrimaryEnds(src, ops, st1, v, st2);
      PowerEnds(src, ops, st1, v, st2);
      FailurePropagates(src, ops, st2);
    } else if k == Add {
      PrimaryEnds(src, ops, st1, v, st2);
      PowerEnds(src, ops, st1, v, st2);
      PrimaryStops(src, ops, st2);
      FailurePropagates(src, ops, st2);
    } else if k == Mul || k == Div {
      var e := Halt(Err(st2.cur.start), st2);
      PrimaryEnds(src, ops, st1, v, st2);
      PrimaryStops(src, ops, st2);
      FailurePropagates(src, ops, st2);
      assert MulDiv(src, ops, st1) == e;
      assert AddSub(src, ops, st1) == e;
    } else {
      var e := Halt(Err(st2.cur.start), st2);
      PrimaryStops(src, ops, st2);
      FailurePropagates(src, ops, st2);
      assert Power(src, ops, st1) == e;
      assert MulDiv(src, ops, st1) == e;
      assert AddSub(src, ops, st1) == e;
    }
  }
}
