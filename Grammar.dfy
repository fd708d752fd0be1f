/**
  A reference semantics for the calculator: expression trees over natural
  literals, the five operators and parentheses, with the usual precedence
  (`^` over `* /` over `+ -`) and every operator grouping to the left. For a
  tree the code can read back, splitting its tokens at the least-precedence
  operator rebuilds the tree, so `evaluate` computes the tree's value.
 */
module Grammar {
  import opened Lexer
  import opened Precedence
  import opened Evaluator

  /** An expression tree. */
  datatype Expr = Lit(n: nat) | Bin(op: char, left: Expr, right: Expr) | Group(inner: Expr)

  /** The token list of a tree, written without spaces. */
  function Tokens(e: Expr): seq<Token>
  {
    match e
    case Lit(n) => [Num(n)]
    case Bin(op, l, r) => Tokens(l) + [Sym(op)] + Tokens(r)
    case Group(g) => [Sym('(')] + Tokens(g) + [Sym(')')]
  }

  /** The text of a tree, written without spaces. */
  function Render(e: Expr): string
  {
    match e
    case Lit(n) => DecimalString(n)
    case Bin(op, l, r) => Render(l) + [op] + Render(r)
    case Group(g) => ['('] + Render(g) + [')']
  }

  /** The text of a tree with a space on each side of every operator. */
  function RenderSpaced(e: Expr): string
  {
    match e
    case Lit(n) => DecimalString(n)
    case Bin(op, l, r) => RenderSpaced(l) + [' ', op, ' '] + RenderSpaced(r)
    case Group(g) => ['('] + RenderSpaced(g) + [')']
  }

  /** How tightly the top of a tree binds: its operator's precedence, or 4 for a literal or a group. */
  function TopPrec(e: Expr): int
  {
    if e.Bin? && IsOperator(e.op) then PrecedenceOf(e.op).value else 4
  }

  /** The tree's text starts with a parenthesis. */
  predicate StartsWithGroup(e: Expr)
  {
    match e
    case Lit(_) => false
    case Bin(_, l, _) => StartsWithGroup(l)
    case Group(_) => true
  }

  /** The tree's text ends with a parenthesis. */
  predicate EndsWithGroup(e: Expr)
  {
    match e
    case Lit(_) => false
    case Bin(_, _, r) => EndsWithGroup(r)
    case Group(_) => true
  }

  /**
    The trees the calculator reads back as written: operators are the five
    of the table; a left operand binds at least as tightly as its operator
    and a right operand strictly more tightly (left grouping); and no
    operator has a text that both starts and ends with a parenthesis, since
    `evaluate` would strip that pair (the text `(1+2)*(3+4)`).
   */
  predicate WellFormed(e: Expr)
  {
    match e
    case Lit(_) => true
    case Group(g) => WellFormed(g)
    case Bin(op, l, r) =>
      && IsOperator(op) && WellFormed(l) && WellFormed(r)
      && TopPrec(l) >= PrecedenceOf(op).value
      && TopPrec(r) > PrecedenceOf(op).value
      && !(StartsWithGroup(l) && EndsWithGroup(r))
  }

  /** The value of a tree: the left operand first, then the right one, combined as `evaluate` combines. */
  function Eval(e: Expr): Outcome
  {
    match e
    case Lit(n) => Ok(Number(n as real))
    case Group(g) => Eval(g)
    case Bin(op, l, r) =>
      var lv := Eval(l);
      if !lv.Ok? then lv
      else
        var rv := Eval(r);
        if !rv.Ok? then rv
        else Combine(lv.value, rv.value, op)
  }

  /** The parenthesis level is never negative along `ts`. */
  predicate NonNegative(ts: seq<Token>)
  {
    forall i :: 0 <= i <= |ts| ==> Depth(ts, i) >= 0
  }

  /** The parenthesis level is never negative along `ts` and is 0 at its end. */
  predicate Balanced(ts: seq<Token>)
  {
    NonNegative(ts) && Depth(ts, |ts|) == 0
  }

  /** Every ranked position of `ts` from `start` on weighs at least `lo`. */
  predicate RanksFrom(ts: seq<Token>, start: nat, lo: int)
  {
    forall i :: start <= i < |ts| && Rank(ts, i).Some? ==> Rank(ts, i).value >= lo
  }

  /** The parenthesis level over a prefix does not depend on what follows. */
  lemma {:induction false} DepthOfPrefix(a: seq<Token>, b: seq<Token>, i: nat)
    requires i <= |a|
    ensures Depth(a + b, i) == Depth(a, i)
  {
    if i > 0 {
      DepthOfPrefix(a, b, i - 1);
      assert (a + b)[i - 1] == a[i - 1];
    }
  }

  /** The parenthesis level inside a suffix adds to the level the prefix leaves. */
  lemma {:induction false} DepthOfSuffix(a: seq<Token>, b: seq<Token>, j: nat)
    requires j <= |b|
    ensures Depth(a + b, |a| + j) == Depth(a, |a|) + Depth(b, j)
  {
    if j == 0 {
      DepthOfPrefix(a, b, |a|);
    } else {
      DepthOfSuffix(a, b, j - 1);
      assert (a + b)[|a| + j - 1] == b[j - 1];
    }
  }

  /** Ranks over a prefix do not depend on what follows. */
  lemma RankOfPrefix(a: seq<Token>, b: seq<Token>, i: nat)
    requires i < |a|
    ensures Rank(a + b, i) == Rank(a, i)
  {
    DepthOfPrefix(a, b, i);
    assert (a + b)[i] == a[i];
  }

  /** Ranks inside a suffix rise by 100 for each parenthesis the prefix leaves open. */
  lemma RankOfSuffix(a: seq<Token>, b: seq<Token>, j: nat)
    requires j < |b|
    ensures Rank(a + b, |a| + j).Some? == Rank(b, j).Some?
    ensures Rank(b, j).Some? ==> Rank(a + b, |a| + j).value == Rank(b, j).value + 100 * Depth(a, |a|)
  {
    DepthOfSuffix(a, b, j);
    assert (a + b)[|a| + j] == b[j];
  }

  /** Levels along a concatenation: the second part starts at the level the first part ends with. */
  lemma DepthsOfConcat(a: seq<Token>, b: seq<Token>)
    requires NonNegative(a) && NonNegative(b)
    ensures NonNegative(a + b)
    ensures Depth(a + b, |a + b|) == Depth(a, |a|) + Depth(b, |b|)
  {
    forall i | 0 <= i <= |a + b|
      ensures Depth(a + b, i) >= 0
    {
      if i <= |a| {
        DepthOfPrefix(a, b, i);
      } else {
        DepthOfSuffix(a, b, i - |a|);
      }
    }
    DepthOfSuffix(a, b, |b|);
  }

  /** Ranks along a concatenation: those of the first part stay, those of the second rise by 100 per open parenthesis. */
  lemma RanksOfConcat(a: seq<Token>, b: seq<Token>, lo1: int, lo2: int)
    requires Depth(a, |a|) >= 0 && RanksFrom(a, 0, lo1) && RanksFrom(b, 0, lo2)
    ensures forall i :: 0 <= i < |a| && Rank(a + b, i).Some? ==> Rank(a + b, i).value >= lo1
    ensures RanksFrom(a + b, |a|, lo2 + 100 * Depth(a, |a|))
  {
    forall i | 0 <= i < |a + b| && Rank(a + b, i).Some?
      ensures i < |a| ==> Rank(a + b, i).value >= lo1
      ensures i >= |a| ==> Rank(a + b, i).value >= lo2 + 100 * Depth(a, |a|)
    {
      if i < |a| {
        RankOfPrefix(a, b, i);
      } else {
        RankOfSuffix(a, b, i - |a|);
      }
    }
  }

  /** An operator token on its own. */
  lemma OperatorShape(op: char)
    requires IsOperator(op)
    ensures Balanced([Sym(op)])
    ensures RanksFrom([Sym(op)], 0, PrecedenceOf(op).value)
  {
    assert Depth([Sym(op)], 1) == 0;
  }

  /** A parenthesised token list: balanced again, with every rank 100 higher. */
  lemma WrapShape(ts: seq<Token>, lo: int)
    requires Balanced(ts) && RanksFrom(ts, 0, lo)
    ensures Balanced([Sym('(')] + ts + [Sym(')')])
    ensures RanksFrom([Sym('(')] + ts + [Sym(')')], 0, lo + 100)
  {
    var open, close := [Sym('(')], [Sym(')')];
    assert Depth(open, 1) == 1;
    assert RanksFrom(open, 0, lo + 100);
    DepthsOfConcat(open, ts);
    RanksOfConcat(open, ts, lo + 100, lo);
    var u := open + ts;
    assert RanksFrom(u, 0, lo + 100);
    var w := u + close;
    forall i | 0 <= i <= |w|
      ensures Depth(w, i) >= 0
    {
      if i <= |u| {
        DepthOfPrefix(u, close, i);
      } else {
        DepthOfSuffix(u, close, 1);
      }
    }
    DepthOfSuffix(u, close, 1);
    assert RanksFrom(close, 0, lo);
    RanksOfConcat(u, close, lo + 100, lo);
    assert Rank(w, |u|).None? by {
      RankOfSuffix(u, close, 0);
    }
  }

  /** A tree's tokens are balanced and weigh at least its top precedence. */
  lemma {:induction false} TokensShape(e: Expr)
    requires WellFormed(e)
    ensures |Tokens(e)| >= 1 && TopPrec(e) >= 1
    ensures Balanced(Tokens(e))
    ensures RanksFrom(Tokens(e), 0, TopPrec(e))
  {
    match e
    case Lit(n) =>
    case Group(g) =>
      TokensShape(g);
      WrapShape(Tokens(g), TopPrec(g));
    case Bin(op, l, r) =>
      TokensShape(l);
      TokensShape(r);
      BinShape(op, l, r);
  }

  /** The step of `TokensShape` for an operator tree; the prefix up to the operator weighs at least its precedence, and the rest more. */
  lemma BinShape(op: char, l: Expr, r: Expr)
    requires WellFormed(Bin(op, l, r))
    requires Balanced(Tokens(l)) && RanksFrom(Tokens(l), 0, TopPrec(l))
    requires Balanced(Tokens(r)) && RanksFrom(Tokens(r), 0, TopPrec(r))
    ensures Balanced(Tokens(Bin(op, l, r)))
    ensures RanksFrom(Tokens(Bin(op, l, r)), 0, PrecedenceOf(op).value)
    ensures forall i :: 0 <= i < |Tokens(l)| + 1 && Rank(Tokens(Bin(op, l, r)), i).Some? ==>
      Rank(Tokens(Bin(op, l, r)), i).value >= PrecedenceOf(op).value
    ensures RanksFrom(Tokens(Bin(op, l, r)), |Tokens(l)| + 1, PrecedenceOf(op).value + 1)
  {
    var p := PrecedenceOf(op).value;
    var tl, tr := Tokens(l), Tokens(r);
    assert Tokens(Bin(op, l, r)) == (tl + [Sym(op)]) + tr;
    OperatorShape(op);
    assert RanksFrom(tl, 0, p);
    assert RanksFrom(tr, 0, p + 1);
    DepthsOfConcat(tl, [Sym(op)]);
    RanksOfConcat(tl, [Sym(op)], p, p);
    var a := tl + [Sym(op)];
    assert RanksFrom(a, 0, p);
    DepthsOfConcat(a, tr);
    RanksOfConcat(a, tr, p, p + 1);
  }

  /** The first token is `(` exactly when the text starts with a parenthesis; likewise the last token and `)`. */
  lemma {:induction false} EdgeTokens(e: Expr)
    ensures |Tokens(e)| >= 1
    ensures Tokens(e)[0] == Sym('(') <==> StartsWithGroup(e)
    ensures Tokens(e)[|Tokens(e)| - 1] == Sym(')') <==> EndsWithGroup(e)
  {
    match e
    case Lit(_) =>
    case Group(_) =>
    case Bin(op, l, r) =>
      EdgeTokens(l);
      EdgeTokens(r);
      var w := Tokens(e);
      assert w == Tokens(l) + ([Sym(op)] + Tokens(r));
      assert w[0] == Tokens(l)[0];
      assert w[|w| - 1] == Tokens(r)[|Tokens(r)| - 1];
  }

  /** In the tokens of a well-formed operator tree, `leastPrecedence` picks that operator. */
  lemma SplitAtTop(op: char, l: Expr, r: Expr)
    requires WellFormed(Bin(op, l, r))
    ensures SplitIndex(Tokens(Bin(op, l, r))) == |Tokens(l)|
  {
    TokensShape(l);
    TokensShape(r);
    BinShape(op, l, r);
    var w := Tokens(Bin(op, l, r));
    var k, p := |Tokens(l)|, PrecedenceOf(op).value;
    assert w == Tokens(l) + [Sym(op)] + Tokens(r);
    assert Rank(w, k) == Some(p) by {
      DepthOfPrefix(Tokens(l) + [Sym(op)], Tokens(r), k);
      DepthOfSuffix(Tokens(l), [Sym(op)], 0);
      assert w[k] == Sym(op);
    }
    assert IsSplit(w, k);
    SplitIndexIsRightmostMinimum(w);
    SplitIsUnique(w, k, SplitIndex(w));
  }

  /** `evaluate` computes the value of every well-formed tree from its tokens. */
  lemma {:induction false} EvaluateTokens(e: Expr)
    requires WellFormed(e)
    ensures Evaluate(Tokens(e)) == Eval(e)
  {
    match e
    case Lit(_) =>
    case Group(g) =>
      EvaluateTokens(g);
      StripsOnePair(Tokens(g));
    case Bin(op, l, r) =>
      EvaluateTokens(l);
      EvaluateTokens(r);
      EvaluateAtTop(op, l, r);
  }

  /** The step of `EvaluateTokens` for an operator tree: the split at its operator gives back the two operands' tokens. */
  lemma EvaluateAtTop(op: char, l: Expr, r: Expr)
    requires WellFormed(Bin(op, l, r))
    requires Evaluate(Tokens(l)) == Eval(l) && Evaluate(Tokens(r)) == Eval(r)
    ensures Evaluate(Tokens(Bin(op, l, r))) == Eval(Bin(op, l, r))
  {
    EdgeTokens(l);
    EdgeTokens(r);
    SplitAtTop(op, l, r);
    PartsAround(Tokens(l), Sym(op), Tokens(r));
  }

  /** The pieces of `a + [c] + b` around `c`. */
  lemma PartsAround<T>(a: seq<T>, c: T, b: seq<T>)
    requires |a| > 0 && |b| > 0
    ensures (a + [c] + b)[0] == a[0]
    ensures (a + [c] + b)[|a + [c] + b| - 1] == b[|b| - 1]
    ensures (a + [c] + b)[..|a|] == a
    ensures (a + [c] + b)[|a|] == c
    ensures (a + [c] + b)[|a| + 1..] == b
  {
  }

  /** Every operator of the tree is one of the five of the table. */
  predicate TableOperators(e: Expr)
  {
    match e
    case Lit(_) => true
    case Group(g) => TableOperators(g)
    case Bin(op, l, r) => IsOperator(op) && TableOperators(l) && TableOperators(r)
  }

  /** The text of a tree over the table's operators scans to the tree's tokens. */
  lemma {:induction false} TokenizeRender(e: Expr)
    requires TableOperators(e)
    ensures Tokenize(Render(e)) == Tokens(e)
  {
    match e
    case Lit(n) =>
      TokenizeDecimal(n);
    case Group(g) =>
      TokenizeRender(g);
      TokenizeParenthesised(Render(g));
    case Bin(op, l, r) =>
      TokenizeRender(l);
      TokenizeRender(r);
      OperatorsAreSymbols(op);
      TokenizeSplitsAtSymbol(Render(l), op, Render(r));
  }

  /** Spaces around operators do not change the tokens. */
  lemma {:induction false} TokenizeRenderSpaced(e: Expr)
    requires TableOperators(e)
    ensures Tokenize(RenderSpaced(e)) == Tokens(e)
  {
    match e
    case Lit(n) =>
      TokenizeDecimal(n);
    case Group(g) =>
      TokenizeRenderSpaced(g);
      TokenizeParenthesised(RenderSpaced(g));
    case Bin(op, l, r) =>
      TokenizeRenderSpaced(l);
      TokenizeRenderSpaced(r);
      OperatorsAreSymbols(op);
      TokenizeSpacedSymbol(RenderSpaced(l), op, RenderSpaced(r));
  }

  /** The calculator prints the value of a well-formed tree for the tree's text. */
  lemma CalculateRender(e: Expr)
    requires WellFormed(e)
    ensures Calculate(Render(e)) == Eval(e)
  {
    WellFormedOperators(e);
    TokenizeRender(e);
    EvaluateTokens(e);
  }

  lemma {:induction false} WellFormedOperators(e: Expr)
    requires WellFormed(e)
    ensures TableOperators(e)
  {
    match e
    case Lit(_) =>
    case Group(g) => WellFormedOperators(g);
    case Bin(_, l, r) =>
      WellFormedOperators(l);
      WellFormedOperators(r);
  }

  /** ... and for the tree's text with spaces around its operators. */
  lemma CalculateRenderSpaced(e: Expr)
    requires WellFormed(e)
    ensures Calculate(RenderSpaced(e)) == Eval(e)
  {
    WellFormedOperators(e);
    TokenizeRenderSpaced(e);
    EvaluateTokens(e);
  }
}
