/** The evaluator as it runs in the C code: each function works on the
    shared lexing context, advancing it in place. Each method is proved to
    return what the corresponding Grammar function says and to leave the
    lexer in the state that function gives. A method may only be called
    where that function halts, which is where the C function returns. */
module Evaluator {
  import opened Tokens
  import opened Lexing
  import opened Grammar

  method EvalPrimary(lx: Lexer, ops: Ops) returns (r: Result)
    requires Primary(Lexed(lx.str), ops, lx.State()).Halt?
    modifies lx
    ensures Primary(Lexed(lx.str), ops, old(lx.State())) == Halt(r, lx.State())
    decreases Remaining(Lexed(lx.str), lx.State()), 0
  {
    match lx.cur.kind {
      case LP =>
        var _ := lx.Advance();
        r := EvalExpr(lx, ops);
        if r.Err? {
          return;
        }
        if lx.cur.kind != RP {
          return Err(lx.cur.start);
        }
        var _ := lx.Advance();
      case Number =>
        var v := lx.cur.num;
        var _ := lx.Advance();
        r := Ok(v);
      case Sub =>
        var _ := lx.Advance();
        r := EvalPrimary(lx, ops);
        if r.Ok? {
          r := Ok(-r.value);
        }
      case _ =>
        r := Err(lx.cur.start);
    }
  }

  method EvalExp(lx: Lexer, ops: Ops) returns (r: Result)
    requires Power(Lexed(lx.str), ops, lx.State()).Halt?
    modifies lx
    ensures Power(Lexed(lx.str), ops, old(lx.State())) == Halt(r, lx.State())
    decreases Remaining(Lexed(lx.str), lx.State()), 1
  {
    ghost var st0 := lx.State();
    var left := EvalPrimary(lx, ops);
    if left.Err? {
      return left;
    }
    if lx.cur.kind == Exp {
      var _ := lx.Advance();
      OperandProgress(Lexed(lx.str), st0, Primary(Lexed(lx.str), ops, st0));
      var right := EvalExp(lx, ops);
      if right.Err? {
        return right;
      }
      return Ok(ops.pow(left.value, right.value));
    }
    r := left;
  }

  method EvalMulDiv(lx: Lexer, ops: Ops) returns (r: Result)
    requires MulDiv(Lexed(lx.str), ops, lx.State()).Halt?
    modifies lx
    ensures MulDiv(Lexed(lx.str), ops, old(lx.State())) == Halt(r, lx.State())
    decreases Remaining(Lexed(lx.str), lx.State()), 2
  {
    ghost var st0 := lx.State();
    var left := EvalExp(lx, ops);
    if left.Err? {
      return left;
    }
    var op := lx.cur.kind;
    if op == Mul || op == Div {
      var _ := lx.Advance();
      OperandProgress(Lexed(lx.str), st0, Power(Lexed(lx.str), ops, st0));
      var right := EvalMulDiv(lx, ops);
      if right.Err? {
        return right;
      }
      return Ok(MulDivOp(ops, op, left.value, right.value));
    }
    r := left;
  }

  method EvalAddSub(lx: Lexer, ops: Ops) returns (r: Result)
    requires AddSub(Lexed(lx.str), ops, lx.State()).Halt?
    modifies lx
    ensures AddSub(Lexed(lx.str), ops, old(lx.State())) == Halt(r, lx.State())
    decreases Remaining(Lexed(lx.str), lx.State()), 3
  {
    ghost var st0 := lx.State();
    var left := EvalMulDiv(lx, ops);
    if left.Err? {
      return left;
    }
    var op := lx.cur.kind;
    if op == Add || op == Sub {
      var _ := lx.Advance();
      OperandProgress(Lexed(lx.str), st0, MulDiv(Lexed(lx.str), ops, st0));
      var right := EvalAddSub(lx, ops);
      if right.Err? {
        return right;
      }
      return Ok(if op == Add then left.value + right.value else left.value - right.value);
    }
    r := left;
  }

  method EvalExpr(lx: Lexer, ops: Ops) returns (r: Result)
    requires Expr(Lexed(lx.str), ops, lx.State()).Halt?
    modifies lx
    ensures Expr(Lexed(lx.str), ops, old(lx.State())) == Halt(r, lx.State())
    decreases Remaining(Lexed(lx.str), lx.State()), 4
  {
    r := EvalAddSub(lx, ops);
  }

  /** eval: a fresh lexing context over s, the first token primed, then one
      expression; the rest of the input is not looked at. */
  method Eval(s: string, ops: Ops) returns (r: Result)
    requires Evaluate(s, ops).Returns?
    ensures Evaluate(s, ops) == Returns(r)
  {
    var lx := new Lexer(s);
    var _ := lx.Advance();
    r := EvalExpr(lx, ops);
  }
}
