/** The lexer: a cursor over the input and one token of lookahead.
    Next and Step say what one call of advance_tok does; the class Lexer
    holds the mutable state and its method Advance does it in place. */
module Lexing {
  import opened Tokens

  datatype Option<T> = None | Some(value: T)

  /** What one successful advance produces: the token and the new cursor. */
  datatype Scan = Scan(tok: Token, next: nat)

  /** The lexer's mutable part: the cursor and the current token. */
  datatype LexState = LexState(idx: nat, cur: Token)

  /** The state before the first advance: the C context is zero-initialised,
      so the current token is an Error token at offset 0. */
  const Initial := LexState(0, Token(Error, 0.0, 0, 0))

  /** Skips literal spaces (only ' '), never past the end of the input. */
  function SkipSpaces(s: string, i: nat): (j: nat)
    ensures i <= j
    ensures j == i || j <= |s|
    ensures j < |s| ==> s[j] != ' '
    decreases |s| - i
  {
    if i < |s| && s[i] == ' ' then SkipSpaces(s, i + 1) else i
  }

  /** Everything that SkipSpaces skips is a space. */
  lemma {:induction false} SkippedSpaces(s: string, i: nat, k: nat)
    requires i <= k < SkipSpaces(s, i)
    ensures s[k] == ' '
    decreases |s| - i
  {
    if k > i {
      SkippedSpaces(s, i + 1, k);
    }
  }

  /** Scanning a number that began at start, with k the next character to
      look at and quot telling whether a separator has been read. Running
      into the end of the input falls through to the one-character Error
      token at k (which is then |s|). */
  function ScanNumber(s: string, start: nat, k: nat, quot: bool): (r: Scan)
    requires start <= k <= |s|
    ensures k <= r.next <= |s| + 1
    ensures r.tok.start <= |s|
    ensures k < |s| && IsDigit(s[k]) ==> k < r.next
    decreases |s| - k
  {
    if k == |s| then
      Scan(Token(Error, 0.0, k, k + 1), k + 1)
    else if IsSep(s[k]) then
      if quot then Scan(Token(Error, 0.0, start, k), k)
      else ScanNumber(s, start, k + 1, true)
    else if IsDigit(s[k]) then
      ScanNumber(s, start, k + 1, quot)
    else
      Scan(Token(Number, LiteralValue(s[start..k]), start, k), k)
  }

  /** One call of advance_tok from cursor i: None when only spaces are left
      (the call returns false), otherwise the token and the new cursor. */
  function Next(s: string, i: nat): (r: Option<Scan>)
    ensures r.Some? ==> i < r.value.next <= |s| + 1 && r.value.tok.start <= |s|
  {
    var j := SkipSpaces(s, i);
    if j >= |s| then None
    else if IsOperator(s[j]) then
      Some(Scan(Token(OperatorKind(s[j]), 0.0, j, j + 1), j + 1))
    else if IsDigit(s[j]) || IsSep(s[j]) then
      var quot := IsSep(s[j]);
      Some(ScanNumber(s, j, if quot then j + 1 else j, quot))
    else
      Some(Scan(Token(Error, 0.0, j, j + 1), j + 1))
  }

  /** advance_tok on a whole lexer state: whether it produced a token, and
      the state afterwards. When it returns false nothing changes, so the
      previous token stays current. */
  function Step(s: string, st: LexState): (r: (bool, LexState))
    ensures !r.0 ==> r.1 == st
    ensures r.0 ==> st.idx < r.1.idx <= |s| + 1 && r.1.cur.start <= |s|
  {
    match Next(s, st.idx)
    case None => (false, st)
    case Some(sc) => (true, LexState(sc.next, sc.tok))
  }

  /** The lexing context: the input, its cursor and the current token. */
  class Lexer {
    const str: string
    var idx: nat
    var cur: Token

    function State(): LexState
      reads this
    {
      LexState(idx, cur)
    }

    constructor (s: string)
      ensures str == s && State() == Initial
    {
      str := s;
      idx := 0;
      cur := Token(Error, 0.0, 0, 0);
    }

    /** advance_tok: skip spaces, then read one token and move the cursor
        past it; return false, changing nothing, at the end of the input. */
    method Advance() returns (b: bool)
      modifies this
      ensures (b, State()) == Step(str, old(State()))
    {
      var len := |str|;
      var index := idx;
      while index < len && str[index] == ' '
        invariant idx <= index && (index == idx || index <= len)
        invariant SkipSpaces(str, index) == SkipSpaces(str, idx)
        decreases len - index
      {
        index := index + 1;
      }
      if index >= len {
        return false;
      }
      var c := str[index];
      if IsOperator(c) {
        cur := Token(OperatorKind(c), 0.0, index, index + 1);
        idx := index + 1;
        return true;
      }
      if IsDigit(c) || IsSep(c) {
        var sc := ReadNumber(str, index);
        cur := sc.tok;
        idx := sc.next;
        return true;
      }
      cur := Token(Error, 0.0, index, index + 1);
      idx := index + 1;
      return true;
    }
  }

  /** The number loop of advance_tok, from the first digit or separator at
      start: it accumulates the value digit by digit and stops at the first
      character that is neither a digit nor a first separator, at a second
      separator, or at the end of the input, where control falls through
      into the one-character Error case. */
  method ReadNumber(s: string, start: nat) returns (sc: Scan)
    requires start < |s| && (IsDigit(s[start]) || IsSep(s[start]))
    ensures sc == Next(s, start).value
  {
    var len := |s|;
    var index := start;
    var result := 0.0;
    var isQuot := IsSep(s[start]);
    var q := 0.1;
    ghost var scan := ScanNumber(s, start, if isQuot then start + 1 else start, isQuot);
    assert scan == Next(s, start).value;
    ScanStart(s, start);
    if isQuot {
      ScanSep(s, start, index, result, q);
      index := index + 1;
    }
    while index < len
      invariant Scanning(s, start, index, isQuot, result, q)
      invariant ScanNumber(s, start, index, isQuot) == scan
      decreases len - index
    {
      var d := s[index];
      if IsSep(d) {
        if isQuot {
          return Scan(Token(Error, 0.0, start, index), index);
        }
        ScanSep(s, start, index, result, q);
        isQuot := true;
        index := index + 1;
      } else if IsDigit(d) {
        var digit := DigitValue(d);
        if isQuot {
          ScanFracDigit(s, start, index, digit, result, q);
          result := result + digit as real * q;
          q := q * 0.1;
        } else {
          ScanIntDigit(s, start, index, digit, result, q);
          result := 10.0 * result + digit as real;
        }
        index := index + 1;
      } else {
        return Scan(Token(Number, result, start, index), index);
      }
    }
    // the number ran into the end of the input: fall through to the Error case
    sc := Scan(Token(Error, 0.0, index, index + 1), index + 1);
  }

  /** The invariant of the number loop: result is the value of the text read
      so far, isQuot tells whether it holds a separator, and q is the weight
      the next fractional digit will get. */
  ghost predicate Scanning(s: string, start: nat, index: nat, isQuot: bool, result: real, q: real)
  {
    && start <= index <= |s|
    && result == LiteralValue(s[start..index])
    && (isQuot <==> SepIndex(s[start..index]) < index - start)
    && (if isQuot then q == Weight(index - start - SepIndex(s[start..index])) else q == 0.1)
  }

  lemma ScanStart(s: string, start: nat)
    requires start <= |s|
    ensures Scanning(s, start, start, false, 0.0, 0.1)
  {
    assert s[start..start] == [];
  }

  lemma ScanSep(s: string, start: nat, index: nat, result: real, q: real)
    requires Scanning(s, start, index, false, result, q)
    requires index < |s| && IsSep(s[index])
    ensures Scanning(s, start, index + 1, true, result, q)
  {
    var t := s[start..index];
    SliceSnoc(s, start, index);
    SepIndexSnoc(t, s[index]);
    LiteralSep(t, s[index]);
    assert Weight(1) == 0.1;
  }

  lemma ScanIntDigit(s: string, start: nat, index: nat, digit: nat, result: real, q: real)
    requires Scanning(s, start, index, false, result, q)
    requires index < |s| && IsDigit(s[index]) && digit == DigitValue(s[index])
    ensures Scanning(s, start, index + 1, false, 10.0 * result + digit as real, q)
  {
    var t := s[start..index];
    SliceSnoc(s, start, index);
    SepIndexSnoc(t, s[index]);
    LiteralIntDigit(t, s[index]);
  }

  lemma ScanFracDigit(s: string, start: nat, index: nat, digit: nat, result: real, q: real)
    requires Scanning(s, start, index, true, result, q)
    requires index < |s| && IsDigit(s[index]) && digit == DigitValue(s[index])
    ensures Scanning(s, start, index + 1, true, result + digit as real * q, q * 0.1)
  {
    var t := s[start..index];
    SliceSnoc(s, start, index);
    FracDigitStep(t, s[index], digit, result, q);
  }

  lemma SliceSnoc(s: string, a: nat, b: nat)
    requires a <= b < |s|
    ensures s[a..b + 1] == s[a..b] + [s[b]]
  {
  }

  /** One fractional digit of the number loop: adding digit * q to the value
      and scaling q by 0.1 keeps both in step with the text read so far. */
  lemma FracDigitStep(t: string, d: char, digit: nat, result: real, q: real)
    requires SepIndex(t) < |t| && digit == DigitValue(d)
    requires result == LiteralValue(t)
    requires q == Weight(|t| - SepIndex(t))
    ensures result + digit as real * q == LiteralValue(t + [d])
    ensures SepIndex(t + [d]) == SepIndex(t)
    ensures q * 0.1 == Weight(|t + [d]| - SepIndex(t + [d]))
  {
    SepIndexKeep(t, d);
    LiteralFracDigit(t, d);
    var n := |t| - SepIndex(t);
    assert |t + [d]| - SepIndex(t + [d]) == n + 1;
    assert Weight(n + 1) == Weight(n) * 0.1;
  }
}
