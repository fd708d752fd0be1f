/**
  Concrete input lines and what the calculator answers for them: the
  precedence and left grouping of the operators, the parenthesis handling,
  and the error cases. Each lemma takes its line as a parameter fixed by
  its precondition, so the solver does not unfold `Tokenize` and
  `Evaluate` on a string literal beyond what the proof asks for.
 */
module Examples {
  import opened Lexer
  import opened Precedence
  import opened Evaluator
  import opened Grammar

  /** Subtraction groups to the left: `10-2-3` is `(10-2)-3`. */
  lemma LeftAssociative(line: string)
    requires line == "10-2-3"
    ensures Calculate(line) == Ok(Number(5.0))
  {
    var e := Bin('-', Bin('-', Lit(10), Lit(2)), Lit(3));
    assert Render(e) == line;
    CalculateRender(e);
  }

  /** Multiplication binds tighter than addition. */
  lemma MultiplicationFirst(line: string)
    requires line == "2+3*4"
    ensures Calculate(line) == Ok(Number(14.0))
  {
    var e := Bin('+', Lit(2), Bin('*', Lit(3), Lit(4)));
    assert Render(e) == line;
    CalculateRender(e);
  }

  /** Exponentiation binds tighter than multiplication. */
  lemma PowerFirst(line: string)
    requires line == "2*3^2"
    ensures Calculate(line) == Ok(Number(18.0))
  {
    var e := Bin('*', Lit(2), Bin('^', Lit(3), Lit(2)));
    assert Render(e) == line;
    CalculateRender(e);
  }

  /** Exponentiation groups to the left as well: `2^3^2` is `(2^3)^2`. */
  lemma PowerLeftAssociative(line: string)
    requires line == "2^3^2"
    ensures Calculate(line) == Ok(Number(64.0))
  {
    var e := Bin('^', Bin('^', Lit(2), Lit(3)), Lit(2));
    assert Render(e) == line;
    CalculateRender(e);
    PowOfWhole(2.0, 3);
    PowOfWhole(8.0, 2);
    assert Eval(Bin('^', Lit(2), Lit(3))) == Ok(Number(8.0));
    assert Eval(e) == Ok(Number(64.0));
  }

  /** A parenthesised group is split around first and stripped afterwards. */
  lemma GroupFirst(line: string)
    requires line == "(2+3)*4"
    ensures Calculate(line) == Ok(Number(20.0))
  {
    var e := Bin('*', Group(Bin('+', Lit(2), Lit(3))), Lit(4));
    assert Render(e) == line;
    CalculateRender(e);
  }

  /** Nested enclosing pairs are stripped one per step. */
  lemma NestedGroups(line: string)
    requires line == "((7))"
    ensures Calculate(line) == Ok(Number(7.0))
  {
    var e := Group(Group(Lit(7)));
    assert Render(e) == line;
    CalculateRender(e);
  }

  /** A divisor equal to 0 is an error... */
  lemma DivisionByZero(line: string)
    requires line == "5/0"
    ensures Calculate(line) == DivByZero
  {
    var e := Bin('/', Lit(5), Lit(0));
    assert Render(e) == line;
    CalculateRender(e);
  }

  /** ... and any other divisor divides exactly. */
  lemma Division(line: string)
    requires line == "5/2"
    ensures Calculate(line) == Ok(Number(2.5))
  {
    var e := Bin('/', Lit(5), Lit(2));
    assert Render(e) == line;
    CalculateRender(e);
  }

  /** A line with one number prints that number. */
  lemma LoneNumber(line: string)
    requires line == "42"
    ensures Calculate(line) == Ok(Number(42.0))
  {
    var e := Lit(42);
    assert Render(e) == line;
    CalculateRender(e);
  }

  /** The empty line is invalid syntax. */
  lemma EmptyLine(line: string)
    requires line == ""
    ensures Calculate(line) == InvalidSyntax
  {
    EvaluateEmpty();
  }

  /** A leading minus is not a sign: the only operator sits at index 0, below 1. */
  lemma LeadingMinus(line: string)
    requires line == "-3"
    ensures Calculate(line) == InvalidSyntax
  {
    var ts := [Sym('-'), Num(3)];
    assert Tokenize(line) == ts by {
      assert line == [] + ['-'] + DecimalString(3);
      TokenizeSplitsAtSymbol([], '-', DecimalString(3));
      TokenizeDecimal(3);
      TokenizeEmpty();
    }
    assert Best(ts, 1) == 0;
    assert SplitIndex(ts) == 0;
  }

  /** An operator without a right operand leaves an empty list to evaluate. */
  lemma TrailingOperator(line: string)
    requires line == "3+"
    ensures Calculate(line) == InvalidSyntax
  {
    var ts := [Num(3), Sym('+')];
    assert Tokenize(line) == ts by {
      assert line == DecimalString(3) + ['+'] + [];
      TokenizeSplitsAtSymbol(DecimalString(3), '+', []);
      TokenizeDecimal(3);
      TokenizeEmpty();
    }
    assert Best(ts, 1) == -1;
    assert SplitIndex(ts) == 1;
    assert ts[..1] == [Num(3)];
    assert ts[2..] == [];
    EvaluateEmpty();
  }

  lemma NaNOperandTokens(line: string)
    requires line == "3+x"
    ensures Tokenize(line) == [Num(3), Sym('+'), NaNTok]
  {
    assert line == DecimalString(3) + ['+'] + "x";
    TokenizeSplitsAtSymbol(DecimalString(3), '+', "x");
    TokenizeDecimal(3);
    assert Tokenize("x") == [NaNTok];
  }

  /** A run without digits is NaN; used as an operand it is invalid syntax... */
  lemma NaNOperand(line: string)
    requires line == "3+x"
    ensures Calculate(line) == InvalidSyntax
  {
    var ts := [Num(3), Sym('+'), NaNTok];
    NaNOperandTokens(line);
    assert Best(ts, 1) == -1;
    assert Best(ts, 2) == 1;
    assert SplitIndex(ts) == 1;
    assert ts[..1] == [Num(3)];
    assert ts[2..] == [NaNTok];
  }

  /** ... while on its own it is returned unchecked: the line `x` prints NaN. */
  lemma LoneName(line: string)
    requires line == "x"
    ensures Calculate(line) == Ok(NaNVal)
  {
    assert Tokenize(line) == [NaNTok];
  }

  /** A space inside a run does not end it: `1 2` is the one number 1. */
  lemma SpaceInsideRun(line: string)
    requires line == "1 2"
    ensures Tokenize(line) == [Num(1)]
    ensures Calculate(line) == Ok(Number(1.0))
  {
    assert Search("1 2") == -1;
    assert ParseInt("1 2") == Num(1);
    assert Tokenize("1 2") == [Num(1)];
  }

  /** Spaces around operators are ignored. */
  lemma SpacedOperators(line: string)
    requires line == "1 + 2 * 3"
    ensures Calculate(line) == Ok(Number(7.0))
  {
    var e := Bin('+', Lit(1), Bin('*', Lit(2), Lit(3)));
    assert RenderSpaced(e) == line;
    CalculateRenderSpaced(e);
  }

  /** Two numerals around a symbol scan as two numbers around the symbol token. */
  lemma NumeralsAroundSymbol(a: nat, c: char, b: nat)
    requires IsSymbol(c)
    ensures Tokenize(DecimalString(a) + [c] + DecimalString(b)) == [Num(a), Sym(c), Num(b)]
  {
    TokenizeSplitsAtSymbol(DecimalString(a), c, DecimalString(b));
    TokenizeDecimal(a);
    TokenizeDecimal(b);
  }

  /** `.` is in the symbol class but has no precedence, so `1.5` has no split point. */
  lemma DecimalPoint(line: string)
    requires line == "1.5"
    ensures Calculate(line) == InvalidSyntax
  {
    assert line == DecimalString(1) + ['.'] + DecimalString(5);
    NumeralsAroundSymbol(1, '.', 5);
    NoSplitPoint([Num(1), Sym('.'), Num(5)]);
  }

  lemma NoSplitPoint(ts: seq<Token>)
    requires ts == [Num(1), Sym('.'), Num(5)]
    ensures Evaluate(ts) == InvalidSyntax
  {
    assert Best(ts, 1) == -1;
    assert Best(ts, 2) == -1;
    assert SplitIndex(ts) == -1;
  }

  /** A `0x` prefix reads the run in base 16. */
  lemma HexadecimalRun(line: string)
    requires line == "0x1A"
    ensures Calculate(line) == Ok(Number(26.0))
  {
    assert Search("0x1A") == -1;
    assert DigitPrefix("1A", 16) == "1A";
    assert DigitsValue("1A", 16) == 26;
    assert ParseInt("0x1A") == Num(26);
    assert Tokenize("0x1A") == [Num(26)];
  }

  /** Any value to the power 0 is 1, a bare symbol included. */
  lemma PowerOfSymbol(line: string)
    requires line == "^^0"
    ensures Calculate(line) == Ok(Number(1.0))
  {
    var ts := [Sym('^'), Sym('^'), Num(0)];
    assert Tokenize(line) == ts by {
      assert line == [] + ['^'] + ("" + ['^'] + DecimalString(0));
      TokenizeSplitsAtSymbol([], '^', "" + ['^'] + DecimalString(0));
      TokenizeSplitsAtSymbol("", '^', DecimalString(0));
      TokenizeDecimal(0);
      TokenizeEmpty();
    }
    assert Best(ts, 1) == 0;
    assert Best(ts, 2) == 1;
    assert SplitIndex(ts) == 1;
    assert ts[..1] == [Sym('^')];
    assert ts[2..] == [Num(0)];
    PowZeroExponent(SymVal('^'));
  }

  /** The split of `1+2)*(3+4`: the `*` weighs 2 - 100. */
  lemma InnerSplit(inner: seq<Token>)
    requires inner == [Num(1), Sym('+'), Num(2), Sym(')'), Sym('*'), Sym('('), Num(3), Sym('+'), Num(4)]
    ensures SplitIndex(inner) == 4
  {
    assert Depth(inner, 1) == 0;
    assert Depth(inner, 2) == 0;
    assert Depth(inner, 3) == 0;
    assert Depth(inner, 4) == -1;
    assert Depth(inner, 5) == -1;
    assert Depth(inner, 6) == 0;
    assert Depth(inner, 7) == 0;
    assert Best(inner, 1) == -1;
    assert Best(inner, 2) == 1;
    assert Best(inner, 3) == 1;
    assert Best(inner, 4) == 1;
    assert Best(inner, 5) == 4;
    assert Best(inner, 6) == 4;
    assert Best(inner, 7) == 4;
    assert Best(inner, 8) == 4;
    assert Best(inner, 9) == 4;
  }

  /** The text `(a+b)`. */
  function SumText(a: nat, b: nat): string
  {
    ['('] + (DecimalString(a) + ['+'] + DecimalString(b)) + [')']
  }

  /** The tokens of `(a+b)`. */
  function SumTokens(a: nat, b: nat): seq<Token>
  {
    [Sym('('), Num(a), Sym('+'), Num(b), Sym(')')]
  }

  /** The text `(a+b)` scans as its five tokens. */
  lemma SumTextTokens(a: nat, b: nat)
    ensures Tokenize(SumText(a, b)) == SumTokens(a, b)
  {
    NumeralsAroundSymbol(a, '+', b);
    TokenizeParenthesised(DecimalString(a) + ['+'] + DecimalString(b));
  }

  /** The tokens of `(1+2)*(3+4)`. */
  lemma UnmatchedTokens(line: string)
    requires line == "(1+2)*(3+4)"
    ensures Tokenize(line) == SumTokens(1, 2) + [Sym('*')] + SumTokens(3, 4)
  {
    assert line == SumText(1, 2) + ['*'] + SumText(3, 4);
    TokenizeSplitsAtSymbol(SumText(1, 2), '*', SumText(3, 4));
    SumTextTokens(1, 2);
    SumTextTokens(3, 4);
  }

  /** `1+2)` splits at the `+`, and `2)` has no split point. */
  lemma UnmatchedLeft(left: seq<Token>)
    requires left == [Num(1), Sym('+'), Num(2), Sym(')')]
    ensures Evaluate(left) == InvalidSyntax
  {
    assert Best(left, 1) == -1;
    assert Depth(left, 1) == 0;
    assert Best(left, 2) == 1;
    assert Best(left, 3) == 1;
    assert Best(left, 4) == 1;
    var right := left[2..];
    assert Best(right, 1) == -1;
    assert Best(right, 2) == -1;
    assert Evaluate(right) == InvalidSyntax;
    assert left[..1] == [Num(1)];
  }

  /** The token list of `(1+2)*(3+4)` is invalid syntax. */
  lemma UnmatchedEvaluate(ts: seq<Token>)
    requires ts == SumTokens(1, 2) + [Sym('*')] + SumTokens(3, 4)
    ensures Evaluate(ts) == InvalidSyntax
  {
    var inner := ts[1..|ts| - 1];
    assert inner == [Num(1), Sym('+'), Num(2), Sym(')'), Sym('*'), Sym('('), Num(3), Sym('+'), Num(4)];
    InnerSplit(inner);
    assert inner[..4] == [Num(1), Sym('+'), Num(2), Sym(')')];
    UnmatchedLeft(inner[..4]);
  }

  /**
    Only one enclosing pair is stripped, without checking that the two
    parentheses match: `(1+2)*(3+4)` loses its outer characters and the rest,
    `1+2)*(3+4`, splits at the `*` one level below zero.
   */
  lemma UnmatchedStrip(line: string)
    requires line == "(1+2)*(3+4)"
    ensures Calculate(line) == InvalidSyntax
  {
    UnmatchedTokens(line);
    UnmatchedEvaluate(Tokenize(line));
  }
}
