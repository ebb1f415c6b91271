# quick_gec: a verified model of the expression calculator core

`quick_gec.h` is a one-pass arithmetic expression evaluator for single
lines of text. It has two parts:

- **The lexer `advance_tok`.** It holds a cursor `idx` and one token of
  lookahead `curr_tok`. Each call reads one token:
  - an operator or bracket (`+ - * / ^ ( [ ) ]`);
  - a number, with `.` or `,` as the decimal separator;
  - or a one-character Error token.

  It returns `false` at the end of the input and then changes nothing.
- **The recursive-descent evaluator.** `evalPrimary`, `evalExp`,
  `evalMulDiv`, `evalAddSub` and `evalExpr` parse and compute in one pass.
  `eval` primes the first token and evaluates one expression. The result is
  either a value or the byte offset of a syntax error.

The model is in eight modules:

| file | module | what it holds |
|---|---|---|
| `tokens.dfy` | `Tokens` | Token kinds, the character classes and the exact value of a number literal (`LiteralValue`: integer part plus digit k after the separator weighted 1/10^k), with lemmas on how the value grows digit by digit. |
| `lexing.dfy` | `Lexing` | One call of `advance_tok` as a function (`Next`, `Step`). The class `Lexer` has the fields `str`, `idx` and `cur`. Its method `Advance` runs the space-skipping loop. `ReadNumber` runs the number loop, with the C code's variables `index`, `result`, `isQuot` and `q`. `Advance` is proved to leave exactly the state `Step` gives. `ReadNumber` is proved to return `Next(s, start).value`; its `isQuot` and `q` are the C code's `isQuotient` and `quotientMagnitude`. |
| `lexing_facts.dfy` | `LexingFacts` | What one advance produces, class by class: operators and brackets, numbers, a second separator, a number at the end of the input, and the end of the input itself. |
| `grammar.dfy` | `Grammar` | The evaluator as functions that thread the lexer state through and draw tokens from a `Source`. A `Run` outcome is `Halt(result, state)`, or `Loop` where the C function re-enters itself forever. `Evaluate` is `eval`. |
| `grammar_facts.dfy` | `GrammarFacts` | On an input whose last character lexes as an Error token (such as the `'\n'` a line read by `fgets` keeps), every layer returns. Also: how failures pass up through the layers, and how each layer combines its operands. |
| `evaluator.dfy` | `Evaluator` | The evaluator as methods on a shared `Lexer` object, each proved to return what the `Grammar` function says and to leave the lexer in the state that function gives. |
| `shapes.dfy` | `Shapes` | The layers on short token sequences, for any source of tokens that only moves forward. Covers precedence and right grouping against a reference definition (`ThreeValue`), unary minus, brackets, the stale token, and the non-terminating cases. |
| `lines.dfy` | `Lines` | `eval` on whole lines. Each family of lines is stated by the positions of its pieces in an arbitrary string, and concrete lines follow as instances. |

`pow` and floating-point division are parameters: a record `Ops` of two
functions on `real`. Number values are exact reals.

### Behaviours worth knowing

- **A second separator.** `1.2.3` fails at offset 0, the start of the
  number, not at the second separator. The Error token produced there
  spans from the start of the number (`Lines.TwoSeparators`).
- **A number that runs into the end of the input.** Such a number is not
  emitted as a token. Control falls through into the one-character Error
  case at offset `len`. So `5` fails at offset 1 and `1.5` at offset 3,
  while `5\n` is 5 (`Lines.NoTerminator`, `Lines.SeparatorAtEnd`). The same
  holds for the last number of any expression: `1+1` without a terminator
  fails at offset 3 (`Lines.UnterminatedSum`). The right-grouping instances
  therefore use lines that end in `'\n'`, as `main.c` passes them.
- **Blank input.** Blank input fails at offset 0, where the
  zero-initialised current token sits (`Lines.BlankLine`).
- **`-5^2` and tabs.** Unary minus binds tighter than `^`: `-5^2` is `(-5)^2`.
  A tab is an Error token, so `1<tab>+1` is 1.

## Model

| member | source | states |
|---|---|---|
| Tokens.OperatorKind | quick_gec.h:77-89 | `(` and `[` map to the left-bracket kind, `)` and `]` to the right-bracket kind, each arithmetic operator to its own kind, in both directions |
| Tokens.DigitValue | quick_gec.h:141 | a digit's value is at most 9 |
| Tokens.Weight | quick_gec.h:111 | the weight of a fractional digit is positive |
| Tokens.SepIndex | quick_gec.h:110-128 | the first separator position is within the text and is a separator when it is not the end |
| Tokens.IntValSnoc | quick_gec.h:149 | appending digit d to the integer part turns r into 10*r + d |
| Tokens.FracValSnoc | quick_gec.h:143-145 | the (n+1)-th fractional digit adds d * 10^-(n+1) |
| Tokens.WeightShift | quick_gec.h:145 | scaling the weight by 0.1 moves a digit one place to the right |
| Tokens.FracValBounds | quick_gec.h:143-145 | the fractional part lies in [0, 1) |
| Tokens.SepIndexSnoc | quick_gec.h:119-128 | with no separator yet, appending a character puts the first separator at that character exactly when it is one |
| Tokens.SepIndexKeep | quick_gec.h:119-128 | once there is a separator, appending keeps its position |
| Tokens.SepIndexBefore | quick_gec.h:119-128 | no separator stands before the first separator |
| Tokens.SepIndexFirst | quick_gec.h:119-128 | a position with no separator before it and a separator (or the end) at it is the first separator |
| Tokens.LiteralIntDigit | quick_gec.h:149 | a digit before any separator turns value r into 10*r + d |
| Tokens.LiteralSep | quick_gec.h:127-128 | reading the first separator leaves the value unchanged |
| Tokens.LiteralFracDigit | quick_gec.h:143-145 | a digit after the separator adds d times the weight of its place |
| Tokens.LiteralBounds | quick_gec.h:117-150 | the digits before the first separator are the whole-number part of the value: the value lies in [i, i+1) |
| Tokens.LiteralOfDigits | quick_gec.h:149 | a numeral of digits only has its integer value |
| Lexing.SkipSpaces | quick_gec.h:60-62 | skipping never moves back, stops at a non-space or at the end, and never passes the end once it moves |
| Lexing.SkippedSpaces | quick_gec.h:60-62 | every character skipped is a space |
| Lexing.ScanNumber | quick_gec.h:117-163 | the number scan never moves back, stops at most one past the end, and moves past a digit |
| Lexing.Next | quick_gec.h:55-166 | a produced token moves the cursor strictly forward, at most to len+1, and starts at most at len |
| Lexing.Step | quick_gec.h:55-166 | returning false leaves the state unchanged; returning true strictly increases idx |
| Lexing.Lexer.constructor | quick_gec.h:277-282 | a fresh context is at offset 0 with the zero-initialised Error token current |
| Lexing.Lexer.Advance | quick_gec.h:55-166 | the in-place advance, with its space loop, returns and leaves exactly what one step of the lexer gives |
| Lexing.ReadNumber | quick_gec.h:107-163 | the number loop returns exactly the scan result of the lexer, including a second separator and the fall-through at the end of input |
| Lexing.ScanStart | quick_gec.h:107-111 | before the loop, the value is 0, no separator has been read and the weight is 0.1 |
| Lexing.ScanSep | quick_gec.h:119-129 | the first separator keeps the loop invariant with the separator flag set |
| Lexing.ScanIntDigit | quick_gec.h:149 | an integer digit keeps the loop invariant with 10*result + digit |
| Lexing.ScanFracDigit | quick_gec.h:143-146 | a fractional digit keeps the loop invariant with result + digit*q and q*0.1 |
| Lexing.FracDigitStep | quick_gec.h:143-146 | adding digit*q and scaling q by 0.1 keeps both in step with the text read |
| LexingFacts.EndOfInput | quick_gec.h:60-65 | advance_tok finds no token exactly when only spaces are left |
| LexingFacts.OperatorToken | quick_gec.h:67-93 | an operator or bracket gives the one-character token [j, j+1) of its kind and sets idx to j+1 |
| LexingFacts.StrayToken | quick_gec.h:160-163 | any other non-space character gives the Error token [j, j+1) and sets idx to j+1 |
| LexingFacts.NumberToken | quick_gec.h:95-156 | a number token covers a numeral from the first non-space character, ends at a non-digit non-separator, sets idx to its end and has the numeral's exact value |
| LexingFacts.NumberTokenWhen | quick_gec.h:95-156 | conversely, a numeral followed by a non-digit non-separator is read as that number token |
| LexingFacts.SecondSeparator | quick_gec.h:119-125 | a second separator gives an Error token from the number's start up to the separator and leaves idx at the separator |
| LexingFacts.InsideUnlessError | quick_gec.h:91-155 | every token other than Error leaves the cursor at most at the input's length |
| LexingFacts.ScanNumberInside | quick_gec.h:117-156 | the number loop ends in an Error token or in a Number token whose end lies inside the input |
| LexingFacts.NumberAtEnd | quick_gec.h:117-163 | a numeral reaching the end of the input falls through to the Error token [len, len+1) with idx len+1 |
| LexingFacts.TerminatedNext | quick_gec.h:55-166 | with a stray last character, every advance from inside the input produces a token inside it, and reaching the end means an Error token |
| LexingFacts.SkipStopsAt | quick_gec.h:60-62 | skipping stops at or before any non-space character |
| LexingFacts.NumeralStart | quick_gec.h:110-115 | after the first character of a number the text read is a numeral, and the flag tells whether it holds a separator |
| LexingFacts.NumeralSnoc | quick_gec.h:117-151 | a digit, or a first separator, extends a numeral |
| LexingFacts.ScanNumberNumber | quick_gec.h:117-156 | a number outcome of the scan ends at a non-digit non-separator and carries the value of the numeral it covers |
| LexingFacts.ScanThrough | quick_gec.h:117-151 | scanning across a numeral changes nothing but the cursor |
| LexingFacts.NoSecondSep | quick_gec.h:119-125 | inside a numeral there is no separator after the first |
| LexingFacts.ScanFromStart | quick_gec.h:107-151 | scanning from the first character of a number across a numeral reaches its end with the right separator flag |
| LexingFacts.ScanNumberBeforeEnd | quick_gec.h:117-157 | with a stray last character the number scan stops inside the input |
| Grammar.Lexed | quick_gec.h:55-166 | the lexer over an input is a token source that only moves forward and agrees with one lexer step |
| Grammar.Primary | quick_gec.h:170-202 | evalPrimary: the cursor only moves forward; a success starts on a number, '-' or '('; an error is reported at the start of the current token |
| Grammar.Power | quick_gec.h:204-223 | evalExp: the same guarantees |
| Grammar.MulDiv | quick_gec.h:225-247 | evalMulDiv: the same guarantees |
| Grammar.AddSub | quick_gec.h:249-271 | evalAddSub: the same guarantees |
| Grammar.Expr | quick_gec.h:273-275 | evalExpr: the same guarantees |
| Grammar.Evaluate | quick_gec.h:277-286 | eval: an error offset is never past the end of the input |
| Grammar.OperandProgress | quick_gec.h:210-212 | advancing past the operator after an operand leaves strictly less input |
| GrammarFacts.StepGood | quick_gec.h:55-166 | on a terminated input an advance keeps the cursor inside the input, and from inside it always yields a token |
| GrammarFacts.PrimaryHalts | quick_gec.h:170-202 | on a terminated input evalPrimary returns and no advance starts past the end |
| GrammarFacts.PowerHalts | quick_gec.h:204-223 | the same for evalExp |
| GrammarFacts.MulDivHalts | quick_gec.h:225-247 | the same for evalMulDiv |
| GrammarFacts.AddSubHalts | quick_gec.h:249-271 | the same for evalAddSub |
| GrammarFacts.ExprHalts | quick_gec.h:273-275 | the same for evalExpr |
| GrammarFacts.EvaluateReturns | quick_gec.h:277-286 | eval on a terminated line returns, and an error offset lies inside the line |
| GrammarFacts.PrimaryOffError | quick_gec.h:170-202 | evalPrimary has the same outcome on any two token sources that agree on every state whose current token is not an Error token: it never advances from an Error token |
| GrammarFacts.PowerOffError | quick_gec.h:204-223 | evalExp never advances from an Error token |
| GrammarFacts.MulDivOffError | quick_gec.h:225-247 | evalMulDiv never advances from an Error token |
| GrammarFacts.AddSubOffError | quick_gec.h:249-271 | evalAddSub never advances from an Error token |
| GrammarFacts.ExprOffError | quick_gec.h:273-275 | evalExpr never advances from an Error token |
| GrammarFacts.PrimaryStops | quick_gec.h:199-200 | a token that cannot start an operand fails at its start without advancing |
| GrammarFacts.PowerStops | quick_gec.h:207-208 | the same failure passes through evalExp |
| GrammarFacts.MulDivStops | quick_gec.h:228-229 | the same failure passes through evalMulDiv |
| GrammarFacts.ExprStops | quick_gec.h:252-253 | the same failure passes through evalAddSub and evalExpr |
| GrammarFacts.FailurePropagates | quick_gec.h:204-271 | the first failure of the leftmost primary, or its non-return, is every layer's outcome unchanged |
| GrammarFacts.PowerRightFails | quick_gec.h:210-215 | after a primary and '^', an error or non-return of the recursive evalExp is evalExp's outcome |
| GrammarFacts.MulDivRightFails | quick_gec.h:233-239 | after a power and '*' or '/', an error or non-return of the recursive evalMulDiv is evalMulDiv's outcome |
| GrammarFacts.AddSubRightFails | quick_gec.h:257-263 | after a product and '+' or '-', an error or non-return of the recursive evalAddSub is the outcome of evalAddSub and of evalExpr |
| GrammarFacts.PrimaryEnds | quick_gec.h:222 | a primary not followed by '^' is the whole power |
| GrammarFacts.PowerEnds | quick_gec.h:245 | a power not followed by '*' or '/' is the whole product |
| GrammarFacts.ProductEnds | quick_gec.h:269 | a product not followed by '+' or '-' is the whole sum and expression |
| GrammarFacts.AddSubCombine | quick_gec.h:255-267 | a+b+c is a+(b+c) and a-b-c is a-(b-c) |
| GrammarFacts.MulDivCombine | quick_gec.h:231-243 | a*b*c is a*(b*c) and a/b/c is a/(b/c) |
| GrammarFacts.PowerCombine | quick_gec.h:210-219 | a^b^c is a^(b^c) |
| Evaluator.EvalPrimary | quick_gec.h:170-202 | the in-place evalPrimary returns and leaves what Primary gives |
| Evaluator.EvalExp | quick_gec.h:204-223 | the in-place evalExp returns and leaves what Power gives |
| Evaluator.EvalMulDiv | quick_gec.h:225-247 | the in-place evalMulDiv returns and leaves what MulDiv gives |
| Evaluator.EvalAddSub | quick_gec.h:249-271 | the in-place evalAddSub returns and leaves what AddSub gives |
| Evaluator.EvalExpr | quick_gec.h:273-275 | the in-place evalExpr returns and leaves what Expr gives |
| Evaluator.Eval | quick_gec.h:277-286 | eval over a fresh context returns what Evaluate says |
| Shapes.NumberOperand | quick_gec.h:185-189 | a number is an operand with its value, and the lexer moves one token on |
| Shapes.OneChain | quick_gec.h:204-275 | an operand followed by no binary operator is every layer's result |
| Shapes.TwoChain | quick_gec.h:204-271 | y k z: each layer takes in k exactly when k binds at least as tightly as its own operators, and the expression is y k z |
| Shapes.ThreeChain | quick_gec.h:204-271 | x k1 y k2 z has the reference value: tighter operators first, equal ones grouped to the right |
| Shapes.ThreeAfterProduct | quick_gec.h:225-247 | the reference value when the first operator is '*' or '/' |
| Shapes.ThreeAfterPower | quick_gec.h:204-223 | the reference value when the first operator is '^' |
| Shapes.Negated | quick_gec.h:190-197 | unary minus negates the operand right after it |
| Shapes.NegatedTwo | quick_gec.h:190-197 | -y k z is (-y) k z |
| Shapes.DoubleNegated | quick_gec.h:190-197 | two minus signs before an operand cancel |
| Shapes.Bracketed | quick_gec.h:172-184 | a bracketed expression is an operand, and the lexer moves past the closing bracket |
| Shapes.BracketedTwo | quick_gec.h:172-184 | a bracketed y k z is an operand with the value y k z |
| Shapes.StaleClose | quick_gec.h:182-183 | a closing bracket that is the last token stays current and closes the enclosing bracket too |
| Shapes.FailsInside | quick_gec.h:174-177 | a failure inside a bracket is the failure of the whole expression |
| Shapes.Unclosed | quick_gec.h:179-180 | a bracket left open fails at the start of the token found in place of the closing bracket |
| Shapes.Stuck | quick_gec.h:172-192 | '-' or '(' with no token after it never returns |
| Shapes.MissingOperand | quick_gec.h:204-271 | after a binary operator, a token that cannot start an operand fails the whole expression at that token |
| Shapes.Dangling | quick_gec.h:255-260 | a binary operator as the last token: '-' never returns, any other fails at its own position |
| Lines.DigitAt | quick_gec.h:141 | a single digit is a numeral with that digit's value |
| Lines.PointAt | quick_gec.h:110-145 | digit, separator, digit is a numeral with value d1 + d2/10 |
| Lines.SepDigitAt | quick_gec.h:110-145 | a leading separator and a digit is a numeral with value d/10 |
| Lines.LexNumeral | quick_gec.h:95-156 | from a cursor at a numeral followed by a character that is neither a digit nor a separator, one advance reads that number |
| Lines.LexAtEnd | quick_gec.h:117-163 | from a cursor at a numeral that runs to the end, one advance gives the Error token past the end |
| Lines.LexChar | quick_gec.h:67-93 | from a cursor at an operator, bracket or stray character, one advance reads that one-character token |
| Lines.BinaryCharAt | quick_gec.h:80-84 | an operator character is read as that binary operator's kind |
| Lines.ClosingCharAt | quick_gec.h:87-88 | a closing bracket or stray character is read as a token that is no binary operator and starts no operand |
| Lines.OperandAt | quick_gec.h:185-189 | a numeral followed by an operator or closing character is an operand that leaves the lexer on that character |
| Lines.LexEnd | quick_gec.h:60-65 | with only spaces left, an advance finds nothing and changes nothing |
| Lines.LineValue | quick_gec.h:277-286 | the line's result is that of the expression from its first token |
| Lines.LineDiverges | quick_gec.h:277-286 | the line never returns when the expression from its first token does not |
| Lines.NumberLine | quick_gec.h:277-286 | a numeral followed by a closing character is its exact value, and the rest is ignored |
| Lines.TwoLexed | quick_gec.h:55-166 | the tokens of x k y followed by a closing character |
| Lines.TwoLine | quick_gec.h:204-271 | x k y followed by a closing character is x k y |
| Lines.ThreeLexed | quick_gec.h:55-166 | the tokens of x k1 y k2 z followed by a closing character |
| Lines.ThreeLine | quick_gec.h:204-271 | x k1 y k2 z followed by a closing character has the reference value |
| Lines.SubtractionGroupsRight | quick_gec.h:249-271 | 8-3-1 is 6 |
| Lines.ProductBeforeSum | quick_gec.h:225-271 | 2+3*4 is 14 |
| Lines.PowerGroupsRight | quick_gec.h:204-223 | 2^3^2 is pow(2, pow(3, 2)) |
| Lines.DivisionGroupsRight | quick_gec.h:225-247 | 8/4/2 is 8/(4/2) |
| Lines.TrailingIgnored | quick_gec.h:277-286 | 1+1) is 2: text after a complete expression is ignored |
| Lines.TabEndsExpression | quick_gec.h:160-163 | 1<tab>+1 is 1: a tab is an Error token that ends the expression |
| Lines.DecimalPoint | quick_gec.h:143-145 | 1.5 is one and a half |
| Lines.LeadingComma | quick_gec.h:110-115 | ,5 is 0.5: a comma separates too, and may come first |
| Lines.LoneSeparator | quick_gec.h:110-115 | a lone separator is the number 0 |
| Lines.NumeralAtEnd | quick_gec.h:158-163 | a numeral that is the whole input fails just past its end |
| Lines.NoTerminator | quick_gec.h:158-163 | "5" fails at offset 1 while "5\n" is 5 |
| Lines.SeparatorAtEnd | quick_gec.h:158-163 | "1.5" fails at offset 3 and "." at offset 1 |
| Lines.LastOperandAtEnd | quick_gec.h:158-163 | x k y whose y runs into the end of the input fails at the input length |
| Lines.UnterminatedSum | quick_gec.h:158-163 | "1+1" fails at offset 3 |
| Lines.SecondSeparatorLine | quick_gec.h:119-125 | a numeral with a separator followed by a second separator fails at offset 0 |
| Lines.TwoSeparators | quick_gec.h:119-125 | 1.2.3 fails at offset 0 |
| Lines.NegatedAt | quick_gec.h:190-197 | a minus sign before a numeral is an operand with the negated value |
| Lines.NegatedLine | quick_gec.h:190-197 | -x k y is (-x) k y for every binary operator k |
| Lines.NegationBeforePower | quick_gec.h:190-197 | -5^2 is pow(-5, 2) |
| Lines.DoubleNegationLine | quick_gec.h:190-197 | two minus signs before a numeral cancel |
| Lines.MinusMinusFive | quick_gec.h:190-197 | --5 is 5 |
| Lines.GroupAt | quick_gec.h:172-184 | a bracketed x k y at the start is an operand with the value x k y |
| Lines.BracketedLine | quick_gec.h:172-184 | a bracketed x k y that closes at the very end of the line is x k y |
| Lines.BracketStyles | quick_gec.h:73-88 | [1+2) and (1+2] are both 3 |
| Lines.GroupedLine | quick_gec.h:172-184 | (x k1 y) k2 z is (x k1 y) k2 z whatever the operators |
| Lines.BracketsFirst | quick_gec.h:172-184 | (2+3)*4 is 20 |
| Lines.UnclosedLine | quick_gec.h:179-180 | an open bracket whose numeral is followed by a stray character fails at that character |
| Lines.OpenParen | quick_gec.h:179-180 | (1\n fails at offset 2 |
| Lines.UnclosedAtEnd | quick_gec.h:158-180 | an open bracket whose last operand runs into the end fails at the input length |
| Lines.OpenSum | quick_gec.h:158-180 | (1+2 fails at offset 4 |
| Lines.StaleCloseLine | quick_gec.h:182-183 | ((x) with the closing bracket last is x: one stale closing bracket closes both |
| Lines.OneCloseForTwo | quick_gec.h:182-183 | ((1) is 1 |
| Lines.DanglingLine | quick_gec.h:255-260 | a numeral then an operator at the very end: '-' never returns, any other fails at the operator |
| Lines.OperatorLast | quick_gec.h:255-260 | "1+" fails at offset 1 and "1-" never returns |
| Lines.StuckLine | quick_gec.h:172-192 | '-' or an opening bracket followed only by spaces never returns |
| Lines.NothingAfter | quick_gec.h:172-192 | "-" and "(" never return |
| Lines.BlankLine | quick_gec.h:277-286 | an empty or blank line fails at offset 0 |
| Lines.Blank | quick_gec.h:277-286 | "" and "   " fail at offset 0 |

## Left out

- main.c, the read-evaluate-print loop, is not part of this model: `fgets`, `printf`, the caret drawing and the 512-byte buffer are input and output. Its one relevance, the `'\n'` each line keeps, is the `Terminated` precondition of `GrammarFacts.EvaluateReturns`.
- Floating-point arithmetic: values are exact reals. The model leaves out rounding in `10*result + digit` and in `quotientMagnitude *= .1`. `pow` and division are the parameters `Ops.pow` and `Ops.div`, so infinities and NaN from a zero divisor are not modelled.
- The unused `TK_IDENTIFIER` kind and the `data.str` member of the token are not modelled.
- `size_t` offsets are unbounded naturals: inputs longer than `SIZE_MAX` are out of scope.
- The space skip of the C code reads up to the NUL terminator. The model stops it at the length, which is the same for a NUL-terminated string of that length.
- Reads past the input buffer: the model's space skip stops at the length, and the C code's stops at the NUL terminator. The two agree whenever the skip starts at most at `len`, and it always does. `advance_tok` is called by `eval` at cursor 0, and by the evaluator only while the current token is not an Error token (`GrammarFacts.ExprOffError`). Every token other than Error leaves the cursor at most at `len` (`LexingFacts.InsideUnlessError`), and a call that finds no token leaves the cursor where it was. So the space loop never runs past the NUL.
- The input `s` is the characters before the terminating NUL, so it holds no `'\0'`. `IsStray`, and with it `GrammarFacts.Terminated`, excludes `'\0'`. `Lexing.Next` on a string that does hold an embedded `'\0'` reads it as an Error token; no C string passed to `eval` reaches that case.
- A line that never returns (`Loop`/`Diverges`) stands for unbounded recursion. The stack overflow that ends it in practice is not modelled.
- Evaluator.EvalPrimary, Evaluator.EvalExp, Evaluator.EvalMulDiv, Evaluator.EvalAddSub, Evaluator.EvalExpr and Evaluator.Eval require that the corresponding function halts. Where it does not, the C function recurses forever; the methods are not specified there.
- Lines with spaces between tokens are covered by the lexer lemmas (`Lexing.SkipSpaces`, `LexingFacts.EndOfInput`, `LexingFacts.NumberToken`), not by a whole-line family of their own.
