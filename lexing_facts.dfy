/** What one call of advance_tok produces, stated token class by token
    class: the span, the kind, the value and where the cursor stops. */
module LexingFacts {
  import opened Tokens
  import opened Lexing

  predicate HasSep(t: string) { SepIndex(t) < |t| }

  /** advance_tok returns false exactly when only spaces are left. */
  lemma EndOfInput(s: string, i: nat)
    ensures Next(s, i).None? <==> forall k :: i <= k < |s| ==> s[k] == ' '
  {
    var j := SkipSpaces(s, i);
    if j < |s| {
      assert s[j] != ' ';
    }
    forall k | i <= k < j ensures s[k] == ' ' {
      SkippedSpaces(s, i, k);
    }
  }

  /** An operator or bracket gives a one-character token [j, j+1) at the first
      non-space character j and moves the cursor to j+1; '(' and '[' give the
      same kind, and so do ')' and ']'. */
  lemma OperatorToken(s: string, i: nat)
    requires SkipSpaces(s, i) < |s| && IsOperator(s[SkipSpaces(s, i)])
    ensures var j := SkipSpaces(s, i);
      && Next(s, i).Some?
      && Next(s, i).value.next == j + 1
      && Next(s, i).value.tok.start == j && Next(s, i).value.tok.end == j + 1
      && (Next(s, i).value.tok.kind == LP <==> s[j] == '(' || s[j] == '[')
      && (Next(s, i).value.tok.kind == RP <==> s[j] == ')' || s[j] == ']')
      && (Next(s, i).value.tok.kind == Add <==> s[j] == '+')
      && (Next(s, i).value.tok.kind == Sub <==> s[j] == '-')
      && (Next(s, i).value.tok.kind == Mul <==> s[j] == '*')
      && (Next(s, i).value.tok.kind == Div <==> s[j] == '/')
      && (Next(s, i).value.tok.kind == Exp <==> s[j] == '^')
  {
  }

  /** Any other non-space character is a one-character Error token. */
  lemma StrayToken(s: string, i: nat)
    requires SkipSpaces(s, i) < |s| && IsStray(s[SkipSpaces(s, i)])
    ensures var j := SkipSpaces(s, i);
      Next(s, i) == Some(Scan(Token(Error, 0.0, j, j + 1), j + 1))
  {
  }

  /** A number token: it starts at the first non-space character, covers a
      numeral (digits and at most one separator), ends before a character
      that is neither a digit nor a separator, leaves the cursor at its end,
      and carries the exact value of the numeral. */
  lemma NumberToken(s: string, i: nat)
    requires Next(s, i).Some? && Next(s, i).value.tok.kind == Number
    ensures var t := Next(s, i).value.tok; var j := SkipSpaces(s, i);
      && t.start == j < t.end == Next(s, i).value.next < |s|
      && IsNumeral(s[j..t.end])
      && !IsDigit(s[t.end]) && !IsSep(s[t.end])
      && t.num == LiteralValue(s[j..t.end])
  {
    var j := SkipSpaces(s, i);
    var quot := IsSep(s[j]);
    var k := if quot then j + 1 else j;
    NumeralStart(s, j, k);
    ScanNumberNumber(s, j, k, quot);
  }

  /** The converse: a numeral followed by a character that is neither a digit
      nor a separator is read as one number token with its exact value. */
  lemma NumberTokenWhen(s: string, i: nat, e: nat)
    requires SkipSpaces(s, i) < e < |s|
    requires IsNumeral(s[SkipSpaces(s, i)..e])
    requires !IsDigit(s[e]) && !IsSep(s[e])
    ensures var j := SkipSpaces(s, i);
      Next(s, i) == Some(Scan(Token(Number, LiteralValue(s[j..e]), j, e), e))
  {
    var j := SkipSpaces(s, i);
    ScanFromStart(s, j, e);
  }

  /** A second separator ends the scan with an Error token spanning from the
      start of the number up to (not including) that separator, and the
      cursor is left at the separator. */
  lemma SecondSeparator(s: string, i: nat, p: nat)
    requires SkipSpaces(s, i) < p < |s|
    requires IsNumeral(s[SkipSpaces(s, i)..p]) && HasSep(s[SkipSpaces(s, i)..p])
    requires IsSep(s[p])
    ensures var j := SkipSpaces(s, i);
      Next(s, i) == Some(Scan(Token(Error, 0.0, j, p), p))
  {
    var j := SkipSpaces(s, i);
    ScanFromStart(s, j, p);
  }

  /** Every token other than Error leaves the cursor inside the input or at
      its end, where the string's terminator stops the next space skip. */
  lemma InsideUnlessError(s: string, i: nat)
    requires Next(s, i).Some? && Next(s, i).value.tok.kind != Error
    ensures Next(s, i).value.next <= |s|
  {
    var j := SkipSpaces(s, i);
    if IsDigit(s[j]) || IsSep(s[j]) {
      ScanNumberInside(s, j, if IsSep(s[j]) then j + 1 else j, IsSep(s[j]));
    }
  }

  /** The number scan produces either an Error token or a Number token that
      ends inside the input. */
  lemma {:induction false} ScanNumberInside(s: string, start: nat, k: nat, quot: bool)
    requires start <= k <= |s|
    ensures ScanNumber(s, start, k, quot).tok.kind != Error ==> ScanNumber(s, start, k, quot).next < |s|
    decreases |s| - k
  {
    if k < |s| && ((IsSep(s[k]) && !quot) || IsDigit(s[k])) {
      ScanNumberInside(s, start, k + 1, IsSep(s[k]) || quot);
    }
  }

  /** A number that runs into the end of the input falls through into the
      Error case: the token is [|s|, |s|+1) and the cursor becomes |s|+1. */
  lemma NumberAtEnd(s: string, i: nat)
    requires SkipSpaces(s, i) < |s| && IsNumeral(s[SkipSpaces(s, i)..])
    ensures Next(s, i) == Some(Scan(Token(Error, 0.0, |s|, |s| + 1), |s| + 1))
  {
    var j := SkipSpaces(s, i);
    assert s[j..] == s[j..|s|];
    ScanFromStart(s, j, |s|);
  }

  /** When the input ends in a character that lexes as a one-character Error
      token, every advance from inside the input produces a token, never goes
      past the end, and reaching the end means the token is that Error. */
  lemma TerminatedNext(s: string, i: nat)
    requires |s| > 0 && IsStray(s[|s| - 1]) && i < |s|
    ensures Next(s, i).Some?
    ensures Next(s, i).value.next <= |s|
    ensures Next(s, i).value.next == |s| ==> Next(s, i).value.tok.kind == Error
    ensures Next(s, i).value.tok.start < |s|
  {
    SkipStopsAt(s, i, |s| - 1);
    var j := SkipSpaces(s, i);
    if IsDigit(s[j]) || IsSep(s[j]) {
      var quot := IsSep(s[j]);
      ScanNumberBeforeEnd(s, j, if quot then j + 1 else j, quot);
    }
  }

  /** Skipping spaces stops at or before any non-space character. */
  lemma {:induction false} SkipStopsAt(s: string, i: nat, m: nat)
    requires i <= m < |s| && s[m] != ' '
    ensures SkipSpaces(s, i) <= m
    decreases m - i
  {
    if i < m && s[i] == ' ' {
      SkipStopsAt(s, i + 1, m);
    }
  }

  // ----- scanning through a numeral -----

  /** After the first character of a number, the text read is a numeral and
      the separator flag says whether it holds a separator. */
  lemma {:induction false} NumeralStart(s: string, j: nat, k: nat)
    requires j < |s| && (IsDigit(s[j]) || IsSep(s[j]))
    requires k == if IsSep(s[j]) then j + 1 else j
    ensures IsNumeral(s[j..k]) && (IsSep(s[j]) <==> HasSep(s[j..k]))
  {
    assert s[j..j] == [];
    SepIndexFirst([], 0);
    if IsSep(s[j]) {
      assert s[j..k] == [s[j]];
    }
  }

  lemma {:induction false} NumeralSnoc(t: string, c: char)
    requires IsNumeral(t)
    requires IsDigit(c) || (IsSep(c) && !HasSep(t))
    ensures IsNumeral(t + [c])
  {
    var u := t + [c];
    if HasSep(t) {
      SepIndexKeep(t, c);
    } else {
      SepIndexSnoc(t, c);
    }
    forall a | 0 <= a < |u| ensures IsDigit(u[a]) || (IsSep(u[a]) && a == SepIndex(u)) {
      if a < |t| {
        assert u[a] == t[a];
      }
    }
  }

  /** The number scan keeps reading while the text is a numeral: at every
      cursor position k, the text s[start..k] is a numeral and quot records
      whether it holds a separator. A Number outcome then ends at a
      non-digit, non-separator character, with the numeral's value. */
  lemma {:induction false} ScanNumberNumber(s: string, start: nat, k: nat, quot: bool)
    requires start <= k <= |s|
    requires IsNumeral(s[start..k]) && quot == HasSep(s[start..k])
    requires start < k || (k < |s| && IsDigit(s[k]))
    ensures var r := ScanNumber(s, start, k, quot);
      r.tok.kind == Number ==>
        && r.tok.start == start && r.tok.end == r.next && k <= r.next < |s|
        && start < r.next
        && IsNumeral(s[start..r.next])
        && !IsDigit(s[r.next]) && !IsSep(s[r.next])
        && r.tok.num == LiteralValue(s[start..r.next])
    decreases |s| - k
  {
    if k < |s| {
      var t := s[start..k];
      var c := s[k];
      SliceSnoc(s, start, k);
      if IsSep(c) && !quot {
        SepIndexSnoc(t, c);
        NumeralSnoc(t, c);
        ScanNumberNumber(s, start, k + 1, true);
      } else if IsDigit(c) {
        if quot { SepIndexKeep(t, c); } else { SepIndexSnoc(t, c); }
        NumeralSnoc(t, c);
        ScanNumberNumber(s, start, k + 1, quot);
      }
    }
  }

  /** Scanning across a numeral from k to e changes nothing but the cursor. */
  lemma {:induction false} ScanThrough(s: string, start: nat, k: nat, quot: bool, e: nat)
    requires start <= k <= e <= |s|
    requires IsNumeral(s[start..e]) && quot == HasSep(s[start..k])
    ensures ScanNumber(s, start, k, quot) == ScanNumber(s, start, e, HasSep(s[start..e]))
    decreases e - k
  {
    if k < e {
      var t := s[start..k];
      var c := s[k];
      SliceSnoc(s, start, k);
      assert s[start..e][k - start] == c;
      if quot {
        NoSecondSep(s, start, k, e);
      }
      if IsSep(c) {
        SepIndexSnoc(t, c);
        ScanThrough(s, start, k + 1, true, e);
      } else {
        if quot { SepIndexKeep(t, c); } else { SepIndexSnoc(t, c); }
        ScanThrough(s, start, k + 1, quot, e);
      }
    }
  }

  lemma {:induction false} NoSecondSep(s: string, start: nat, k: nat, e: nat)
    requires start <= k < e <= |s|
    requires IsNumeral(s[start..e]) && HasSep(s[start..k])
    ensures !IsSep(s[k])
  {
    var (t, u) := (s[start..k], s[start..e]);
    var p := SepIndex(t);
    forall a | 0 <= a < p ensures !IsSep(u[a]) {
      SepIndexBefore(t, a);
      assert u[a] == t[a];
    }
    assert u[p] == t[p];
    SepIndexFirst(u, p);
    assert u[k - start] == s[k];
  }

  /** Scanning from the first character j of a number across the numeral
      s[j..e] reaches e with the flag HasSep(s[j..e]). */
  lemma {:induction false} ScanFromStart(s: string, j: nat, e: nat)
    requires j < e <= |s| && IsNumeral(s[j..e])
    ensures SkipSpaces(s, j) == j
    ensures IsDigit(s[j]) || IsSep(s[j])
    ensures var quot := IsSep(s[j]);
      ScanNumber(s, j, if quot then j + 1 else j, quot) == ScanNumber(s, j, e, HasSep(s[j..e]))
  {
    assert s[j..e][0] == s[j];
    var quot := IsSep(s[j]);
    var k := if quot then j + 1 else j;
    NumeralStart(s, j, k);
    ScanThrough(s, j, k, quot, e);
  }

  /** With a stray last character the number scan stops inside the input,
      and the token it produces starts where the number started. */
  lemma {:induction false} ScanNumberBeforeEnd(s: string, start: nat, k: nat, quot: bool)
    requires |s| > 0 && IsStray(s[|s| - 1]) && start <= k < |s|
    ensures ScanNumber(s, start, k, quot).next < |s|
    ensures ScanNumber(s, start, k, quot).tok.start == start
    decreases |s| - k
  {
    if (IsSep(s[k]) && !quot) || IsDigit(s[k]) {
      ScanNumberBeforeEnd(s, start, k + 1, IsSep(s[k]) || quot);
    }
  }
}
