/** Tokens of the expression calculator and the value of a number literal. */
module Tokens {

  /** Token kinds. The unused identifier kind of the C enum is not modelled. */
  datatype Kind = Error | Number | Add | Sub | Mul | Div | Exp | LP | RP

  /** A token: its kind, its numeric payload (0 unless it is a number) and
      the half-open span [start, end) it covers in the input. */
  datatype Token = Token(kind: Kind, num: real, start: nat, end: nat)

  predicate IsDigit(c: char) { '0' <= c <= '9' }

  /** Both '.' and ',' act as the decimal separator. */
  predicate IsSep(c: char) { c == '.' || c == ',' }

  /** The characters that form a one-character operator or bracket token. */
  predicate IsOperator(c: char) {
    c == '+' || c == '-' || c == '*' || c == '/' || c == '^' ||
    c == '(' || c == '[' || c == ')' || c == ']'
  }

  /** A character that lexes as a one-character Error token wherever it
      stands. The NUL character is not one: in C it ends the string, so no
      input holds it. */
  predicate IsStray(c: char) {
    c != ' ' && c != '\0' && !IsOperator(c) && !IsDigit(c) && !IsSep(c)
  }

  function OperatorKind(c: char): (k: Kind)
    requires IsOperator(c)
    ensures k == LP <==> c == '(' || c == '['
    ensures k == RP <==> c == ')' || c == ']'
    ensures k == Add <==> c == '+'
    ensures k == Sub <==> c == '-'
    ensures k == Mul <==> c == '*'
    ensures k == Div <==> c == '/'
    ensures k == Exp <==> c == '^'
  {
    if c == '+' then Add
    else if c == '-' then Sub
    else if c == '*' then Mul
    else if c == '/' then Div
    else if c == '^' then Exp
    else if c == '(' || c == '[' then LP
    else RP
  }

  function DigitValue(c: char): (d: nat)
    ensures d <= 9
  {
    if IsDigit(c) then c as int - '0' as int else 0
  }

  /** The weight 1/10^k of the k-th digit after the separator. */
  function Weight(k: nat): (w: real)
    ensures w > 0.0
  {
    if k == 0 then 1.0 else Weight(k - 1) * 0.1
  }

  /** The integer value of a digit string, most significant digit first. */
  function IntVal(t: string): nat
  {
    if t == [] then 0 else 10 * IntVal(t[..|t| - 1]) + DigitValue(t[|t| - 1])
  }

  /** The value of the digits after the separator, in Horner form:
      0.d1 d2 d3 ... = (d1 + 0.d2 d3 ...) / 10. */
  function FracVal(f: string): real
  {
    if f == [] then 0.0 else (DigitValue(f[0]) as real + FracVal(f[1..])) / 10.0
  }

  /** The position of the first separator in t, or |t| when there is none. */
  function SepIndex(t: string): (p: nat)
    ensures p <= |t|
    ensures p < |t| ==> IsSep(t[p])
  {
    if t == [] then 0 else if IsSep(t[0]) then 0 else 1 + SepIndex(t[1..])
  }

  /** Digits with at most one separator among them: the only separator
      allowed is the first one. */
  predicate IsNumeral(t: string) {
    forall k :: 0 <= k < |t| ==> IsDigit(t[k]) || (IsSep(t[k]) && k == SepIndex(t))
  }

  predicate AllDigits(t: string) {
    forall k :: 0 <= k < |t| ==> IsDigit(t[k])
  }

  /** The exact value of a numeral: integer part plus fractional part. */
  function LiteralValue(t: string): real
  {
    var p := SepIndex(t);
    if p < |t| then IntVal(t[..p]) as real + FracVal(t[p + 1..]) else IntVal(t) as real
  }

  /** Appending a digit to the integer part multiplies by ten and adds the digit. */
  lemma {:induction false} IntValSnoc(t: string, c: char)
    ensures IntVal(t + [c]) == 10 * IntVal(t) + DigitValue(c)
  {
    assert (t + [c])[..|t + [c]| - 1] == t;
  }

  /** The k-th fractional digit weighs 1/10^k: appending digit c to a
      fraction of n digits adds c * 10^-(n+1). */
  lemma {:induction false} FracValSnoc(f: string, c: char)
    ensures FracVal(f + [c]) == FracVal(f) + DigitValue(c) as real * Weight(|f| + 1)
    decreases |f|
  {
    if f == [] {
      assert ([] + [c])[1..] == [];
    } else {
      var g := f[1..];
      assert (f + [c])[0] == f[0];
      assert (f + [c])[1..] == g + [c];
      FracValSnoc(g, c);
      WeightShift(|g| + 1, DigitValue(c) as real);
    }
  }

  /** Shifting a weighted digit one place to the right divides it by ten. */
  lemma {:induction false} WeightShift(k: nat, x: real)
    ensures (x * Weight(k)) / 10.0 == x * Weight(k + 1)
  {
  }

  /** Every fractional part lies in [0, 1). */
  lemma {:induction false} FracValBounds(f: string)
    ensures 0.0 <= FracVal(f) < 1.0
    decreases |f|
  {
    if f != [] {
      FracValBounds(f[1..]);
    }
  }

  lemma {:induction false} SepIndexSnoc(t: string, c: char)
    requires SepIndex(t) == |t|
    ensures SepIndex(t + [c]) == if IsSep(c) then |t| else |t| + 1
  {
    var u := t + [c];
    forall k | 0 <= k < |t| ensures !IsSep(u[k]) {
      SepIndexBefore(t, k);
      assert u[k] == t[k];
    }
    SepIndexFirst(u, if IsSep(c) then |t| else |t| + 1);
  }

  lemma {:induction false} SepIndexKeep(t: string, c: char)
    requires SepIndex(t) < |t|
    ensures SepIndex(t + [c]) == SepIndex(t)
  {
    var u := t + [c];
    var p := SepIndex(t);
    forall k | 0 <= k < p ensures !IsSep(u[k]) {
      SepIndexBefore(t, k);
      assert u[k] == t[k];
    }
    assert u[p] == t[p];
    SepIndexFirst(u, p);
  }

  /** No separator stands before SepIndex. */
  lemma {:induction false} SepIndexBefore(t: string, k: nat)
    requires k < SepIndex(t)
    ensures !IsSep(t[k])
    decreases |t|
  {
    if k > 0 {
      SepIndexBefore(t[1..], k - 1);
    }
  }

  /** SepIndex is the first separator: any position before which there is
      none and at which there is one (or the end) is SepIndex. */
  lemma {:induction false} SepIndexFirst(t: string, p: nat)
    requires p <= |t|
    requires forall k :: 0 <= k < p ==> !IsSep(t[k])
    requires p < |t| ==> IsSep(t[p])
    ensures SepIndex(t) == p
    decreases |t|
  {
    if t != [] && !IsSep(t[0]) {
      assert p > 0;
      SepIndexFirst(t[1..], p - 1);
    }
  }

  /** Appending a digit to a numeral with no separator yet: 10*r + d. */
  lemma {:induction false} LiteralIntDigit(t: string, c: char)
    requires SepIndex(t) == |t| && IsDigit(c)
    ensures LiteralValue(t + [c]) == 10.0 * LiteralValue(t) + DigitValue(c) as real
  {
    SepIndexSnoc(t, c);
    IntValSnoc(t, c);
  }

  /** Reading the (first) separator does not change the value. */
  lemma {:induction false} LiteralSep(t: string, c: char)
    requires SepIndex(t) == |t| && IsSep(c)
    ensures LiteralValue(t + [c]) == LiteralValue(t)
  {
    SepIndexSnoc(t, c);
    var u := t + [c];
    assert u[..|t|] == t;
    assert u[|t| + 1..] == [];
  }

  /** Appending a digit after the separator adds it at the next weight. */
  lemma {:induction false} LiteralFracDigit(t: string, c: char)
    requires SepIndex(t) < |t|
    ensures LiteralValue(t + [c])
         == LiteralValue(t) + DigitValue(c) as real * Weight(|t| - SepIndex(t))
  {
    var p := SepIndex(t);
    SepIndexKeep(t, c);
    var u := t + [c];
    var f := t[p + 1..];
    assert u[..p] == t[..p];
    assert u[p + 1..] == f + [c];
    FracValSnoc(f, c);
    assert LiteralValue(u) == IntVal(t[..p]) as real + FracVal(f + [c]);
    assert LiteralValue(t) == IntVal(t[..p]) as real + FracVal(f);
    assert |f| + 1 == |t| - p;
  }

  /** The integer part before the first separator is the whole-number part
      of the numeral's value: the digits after it add less than one. */
  lemma LiteralBounds(t: string)
    ensures var i := IntVal(t[..SepIndex(t)]) as real;
      i <= LiteralValue(t) < i + 1.0
  {
    if SepIndex(t) < |t| {
      FracValBounds(t[SepIndex(t) + 1..]);
    } else {
      assert t[..SepIndex(t)] == t;
    }
  }

  /** A numeral of digits only has its integer value. */
  lemma {:induction false} LiteralOfDigits(t: string)
    requires AllDigits(t)
    ensures LiteralValue(t) == IntVal(t) as real
  {
    SepIndexFirst(t, |t|);
  }
}
