# calc-cli in Dafny

calc-cli is a command-line calculator. It reads one line of arithmetic, such as `2+3*4` or `(10-2)^2`, and prints the value or an error message. This project models the program's core, all of it in `index.js`, and proves properties of it:

- `parse` scans the line into tokens. A run of characters between symbols goes through the host's `parseInt`. Each character of the class `opRegex` is a token of its own. Spaces are skipped.
- `precedenceMap` gives the five operators their precedence: `+ -` weigh 1, `* /` weigh 2, `^` weighs 3.
- `leastPrecedence` picks the split point: the operator of least weight, where each enclosing open parenthesis adds 100 and ties go to the rightmost operator.
- `evaluate` first strips one pair of parentheses when the list starts with `(` and ends with `)`. It returns a one-token list as it is. Otherwise it splits at the operator `leastPrecedence` chose, rejects a split index below 1, evaluates both sides and combines them with `stringMath`. It rejects a NaN result.
- `stringMath` applies one operator and refuses division by 0.

Modules:

- `Lexer` holds tokens, the symbol class, `parseInt`, `search`, and the scan as a function (`Tokenize`) and as the source's loop (`Parse`).
- `Precedence` holds the table, and the search as a specification (`SplitIndex`, characterised as the rightmost minimum) and as the source's loop (`LeastPrecedence`).
- `Evaluator` holds values, `Math.pow`, `stringMath`, and `evaluate` as a recursive function. `Calculate(line)` is `evaluate(parse(line))`, which is what the program prints.
- `Grammar` holds a reference semantics and its main theorem.
  - The reference semantics is expression trees with the usual precedence and left grouping.
  - For every tree the calculator can read back, the calculator prints the tree's value for the tree's text, with or without spaces around operators.
  - Such a tree is "well-formed": its operators are the table's five, operand precedences respect left grouping, and no operator's text both starts and ends with a parenthesis.
- `Examples` holds concrete lines and what the calculator prints for them.

Numbers are exact: naturals for `parseInt` results, reals for values. Thrown errors become outcomes: `InvalidSyntax` stands for "Invalid syntax" and `DivByZero` for "Cannot divide by 0".

Where the code departs from ordinary arithmetic, the model follows the code:

- In ordinary arithmetic `(1+2)*(3+4)` is 21. `index.js:49-51` strips the first `(` and last `)` without checking that they are one matching pair. The interior `1+2)*(3+4` then splits at `*` and fails, so the line is invalid syntax (`Examples.UnmatchedStrip`).
- A run that is not a number, such as `x`, is not rejected by the tokenizer. The code checks for NaN only after combining two operands and returns a one-token list unchecked. So the line `x` prints NaN (`Examples.LoneName`), while `3+x` fails (`Examples.NaNOperand`).

## Model

| member | source | states |
|---|---|---|
| Lexer.IsSymbol | index.js:23 | membership in `opRegex`, as a predicate without a contract; `Lexer.SymbolClass` lists its characters |
| Lexer.SymbolClass | index.js:23 | the class `[+*-\/^()]` holds exactly `( ) * + , - . / ^`: its range `*-\/` adds `,` and `.` to the operators and parentheses |
| Lexer.Search | index.js:37 | `search(opRegex)` is -1 exactly when the string has no symbol; otherwise it is the index of a symbol with no symbol before it |
| Lexer.SearchIsFirst | index.js:37 | any index holding a symbol with no symbol before it equals the result of `search` |
| Lexer.RunEnd | index.js:37-38 | a numeric run's end lies between one past its start and the end of the line, so the scan always advances |
| Lexer.Tokenize | index.js:26-45 | the tokens of a line are never more than its characters; `Lexer.Parse` is proved equal to it, and the lemmas below characterise it |
| Lexer.TokenizeRun | index.js:36-41 | a line starting with a run yields `parseInt` of the run, then the tokens of the rest after the run |
| Lexer.Parse | index.js:26-45 | the loop's result is the token list of the whole line, `Tokenize(expr)` |
| Lexer.TokenizeEmpty | index.js:26-44 | the empty line has no tokens |
| Lexer.TokenizeSplitsAtSymbol | index.js:33-41 | a symbol anywhere in a line cuts the tokens in two: those of the text before it, its own token, those of the text after it |
| Lexer.TokenizeAppendSpace | index.js:31-32 | a trailing space adds no token and changes none, even by ending a run early |
| Lexer.TokenizePrependSpace | index.js:31-32 | a leading space adds no token and changes none |
| Lexer.SpaceBeforeSymbol | index.js:31-35 | a space just before a symbol changes no token |
| Lexer.SpaceAfterSymbol | index.js:31-35 | a space just after a symbol changes no token |
| Lexer.TokenizeParenthesised | index.js:33-35 | a parenthesised line scans as the two parenthesis tokens around the line's own tokens |
| Lexer.TokenizeSpacedSymbol | index.js:31-35 | a symbol with a space on each side cuts the tokens like the bare symbol |
| Lexer.SymbolsBecomeTokens | index.js:33-35 | the symbol tokens of a line are exactly its symbol characters, in order |
| Lexer.ParseInt | index.js:39 | `parseInt` without a radix, as a function without a contract; `Lexer.ParseIntOfDecimal`, `Lexer.ParseIntAppendSpace` and `Examples.HexadecimalRun` characterise it |
| Lexer.ParseIntAppendSpace | index.js:39 | a trailing space does not change what `parseInt` returns |
| Lexer.ParseIntOfDecimal | index.js:39 | `parseInt` of the decimal numeral of n is n |
| Lexer.TokenizeDecimal | index.js:36-41 | a decimal numeral scans as the single number token it denotes |
| Precedence.PrecedenceOf | index.js:110-116 | the table has an entry exactly for `+ - * / ^`, each between 1 and 3 |
| Precedence.PrecedenceOrder | index.js:110-116 | `+ -` weigh 1, `* /` weigh 2, `^` weighs 3 |
| Precedence.OperatorsAreSymbols | index.js:110-116 | every operator is in the symbol class; the other symbols are exactly `( ) , .` |
| Precedence.Rank | index.js:76-85 | a position has a weight exactly when it holds an operator; numbers, NaN, parentheses, `,` and `.` have none |
| Precedence.SplitIndex | index.js:69-93 | the index `leastPrecedence` returns, without a contract of its own; `Precedence.SplitIndexIsRightmostMinimum` and `Precedence.NoSplitIffNoOperator` characterise it |
| Precedence.Best | index.js:74-91 | after n tokens the chosen index is -1 or a position before n whose weight does not exceed the start value |
| Precedence.BestIsRightmostMinimum | index.js:86-90 | after n tokens the choice is -1 exactly when no candidate came before; otherwise it weighs no more than any earlier candidate and less than every later one |
| Precedence.SplitIndexIsRightmostMinimum | index.js:69-92 | the split index is -1 exactly when no token is a candidate; otherwise it is the rightmost minimum-weight candidate |
| Precedence.SplitIsUnique | index.js:86-90 | there is only one rightmost minimum, so the split point is determined |
| Precedence.DepthBound | index.js:78-83 | the parenthesis level before position i lies between -i and i |
| Precedence.OperatorsAreCandidates | index.js:71 | in a list no longer than a host array, no operator weighs more than `Number.MAX_SAFE_INTEGER`, so every operator is a candidate |
| Precedence.NoSplitIffNoOperator | index.js:69-92 | the split index is -1 exactly when the list holds none of `+ - * / ^` |
| Precedence.LeastPrecedence | index.js:69-93 | the loop returns the split index: -1 exactly when no candidate exists, otherwise the rightmost minimum |
| Evaluator.StringMath | index.js:95-108 | the only errors are division by a zero divisor (exactly then) and, for `^`, a power the model does not compute; a character outside the switch gives NaN; a number result from `+ - * /` needs two number operands |
| Evaluator.PowOfWhole | index.js:106 | `Math.pow` with a whole non-negative exponent is the exact power |
| Evaluator.PowZeroExponent | index.js:106 | any value, NaN and symbols included, to the power 0 is 1 and passes the NaN check |
| Evaluator.Pow | index.js:106 | `Math.pow`, as a function without a contract; `Evaluator.PowOfWhole` and `Evaluator.PowZeroExponent` characterise it |
| Evaluator.Combine | index.js:61-65 | a successful combination is a number equal to `stringMath`'s; a NaN or symbol result from `stringMath` becomes "Invalid syntax" exactly then; its other errors pass through |
| Evaluator.Evaluate | index.js:48-66 | `evaluate`, as a recursive function without a contract; the lemmas below and `Grammar.EvaluateTokens` characterise it |
| Evaluator.Calculate | index.js:13-14 | what a line prints, `evaluate(parse(line))`, also at index.js:125-126; `Grammar.CalculateRender` ties it to the reference semantics |
| Evaluator.EvaluateEmpty | index.js:55-58 | the empty token list, and so the empty line, is invalid syntax |
| Evaluator.SplitBelowOneFails | index.js:55-58 | an unbracketed list of length other than 1 with split index below 1 is invalid syntax |
| Evaluator.StripsOnePair | index.js:49-51 | a list wrapped in one pair of parentheses evaluates like the list without them |
| Evaluator.NonNumberOnlyFromLoneToken | index.js:49-64 | a successful evaluation is NaN or a symbol exactly when stripping enclosing pairs leaves one NaN or symbol token; a lone token after stripping is the result |
| Evaluator.LeadingOperatorFails | index.js:55-64 | two or more tokens starting with `+ - * /` never evaluate to a value |
| Grammar.TokensShape | index.js:78-85 | a well-formed tree's tokens are balanced, and every operator in them weighs at least the tree's top precedence |
| Grammar.EdgeTokens | index.js:49 | a tree's tokens start with `(` exactly when its text starts with a group, and end with `)` exactly when its text ends with one |
| Grammar.SplitAtTop | index.js:69-93 | in the tokens of a well-formed operator tree, the search picks the tree's own operator |
| Grammar.EvaluateTokens | index.js:48-66 | evaluating a well-formed tree's tokens gives the tree's value under the reference semantics |
| Grammar.TokenizeRender | index.js:26-45 | the text of a tree over the table's operators scans to the tree's tokens |
| Grammar.TokenizeRenderSpaced | index.js:31-35 | the text with spaces around every operator scans to the same tokens |
| Grammar.CalculateRender | index.js:48-66 | the calculator prints the reference value of every well-formed tree for the tree's text |
| Grammar.CalculateRenderSpaced | index.js:31-32 | the same holds with spaces around the operators |
| Examples.LeftAssociative | index.js:86-89 | `10-2-3` is 5: ties go to the rightmost operator, so operators group to the left |
| Examples.MultiplicationFirst | index.js:110-116 | `2+3*4` is 14 |
| Examples.PowerFirst | index.js:110-116 | `2*3^2` is 18 |
| Examples.PowerLeftAssociative | index.js:86-89 | `2^3^2` is 64: `^` groups to the left too |
| Examples.GroupFirst | index.js:85 | `(2+3)*4` is 20: an operator inside parentheses weighs 100 more |
| Examples.NestedGroups | index.js:49-51 | `((7))` is 7: one enclosing pair is stripped per step |
| Examples.DivisionByZero | index.js:100-103 | `5/0` is the division-by-zero error |
| Examples.Division | index.js:104 | `5/2` is 2.5 |
| Examples.LoneNumber | index.js:52-54 | `42` is 42 |
| Examples.EmptyLine | index.js:55-58 | the empty line is invalid syntax |
| Examples.LeadingMinus | index.js:56-58 | `-3` is invalid syntax: a leading minus is an operator at index 0 |
| Examples.TrailingOperator | index.js:55-60 | `3+` is invalid syntax: the right operand is the empty list |
| Examples.NaNOperand | index.js:62-64 | `3+x` is invalid syntax: the run `x` is NaN |
| Examples.LoneName | index.js:52-54 | `x` evaluates to NaN without an error |
| Examples.SpaceInsideRun | index.js:36-41 | `1 2` scans as the one number 1 and prints 1 |
| Examples.SpacedOperators | index.js:31-32 | `1 + 2 * 3` is 7 |
| Examples.NumeralsAroundSymbol | index.js:33-41 | two numerals around a symbol scan as two numbers around its token |
| Examples.DecimalPoint | index.js:23 | `1.5` is invalid syntax: `.` is a symbol without precedence |
| Examples.HexadecimalRun | index.js:39 | `0x1A` is 26: `parseInt` reads the `0x` prefix |
| Examples.PowerOfSymbol | index.js:106 | `^^0` is 1: a bare symbol to the power 0 |
| Examples.UnmatchedStrip | index.js:49-51 | `(1+2)*(3+4)` is invalid syntax: the outer `(` and `)` are stripped although they do not match |

## Left out

- The read-eval-print loop and the command-line mode (`index.js:1-21`, `index.js:118-131`): `readline`, `process.argv` joined with spaces, and `console.log` are I/O. `Calculate` is what each line prints.
- Printing, and the exact message texts: an error is only its kind (`InvalidSyntax`, `DivByZero`).
- IEEE 754 floating point: values are exact reals. Rounding, `-0`, overflow to `Infinity`, and `parseInt` losing precision above 2^53 are not modelled.
- Evaluator.Pow: some powers give the outcome `Unrepresentable` instead of the host's number. These are an infinity from a negative power of 0, and every fractional power of a positive base other than 1, rational or not: the host prints 2 for `4^(1/2)`.
- Evaluator.StringMath: `+` with a bare-symbol operand concatenates strings in the host, giving e.g. `"1."` for `1+(.)`. The model gives NaN, and so "Invalid syntax". The other operators convert a symbol to NaN, as modelled. A string result passes the host's NaN check when it reads as a number.
- Evaluator.LeadingOperatorFails: it holds of the model only. In the host, `-+5` prints `-5` and `++5` prints `+5`: the `+` splits the line, its left part is the bare symbol, and `+` concatenates that symbol with 5 into a string that passes the NaN check.
- Strings are sequences of code points, whereas the host indexes UTF-16 code units. This only changes runs that hold characters outside the Basic Multilingual Plane. Such runs are NaN either way unless digits precede them.
- Precedence.NoSplitIffNoOperator: it requires the list to be no longer than a host array (2^32 - 1). This is a convenient sufficient bound, not a tight one. A weight is at most 3 plus 100 times the depth, so it exceeds `Number.MAX_SAFE_INTEGER` only at a depth above about 9·10^13.
- Grammar.CalculateRender: it covers well-formed trees only. Lines the code reads differently from the usual grammar are shown one by one in `Examples`: `(1+2)*(3+4)`, leading signs, `.`, NaN runs.
