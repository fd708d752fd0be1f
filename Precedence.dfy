/**
  Operator precedence and the split-point search `leastPrecedence`: the
  evaluator splits a token list at the operator of least precedence, where an
  operator inside `d` open parentheses weighs `100 * d` more than its table
  precedence, and ties go to the rightmost operator.
 */
module Precedence {
  import opened Lexer

  datatype Option<T> = None | Some(value: T)

  /** `Number.MAX_SAFE_INTEGER`, the start value of the running minimum. */
  const MaxSafeInteger: int := 9007199254740991

  /** The largest length of a host array. */
  const MaxArrayLength: int := 4294967295

  /** The five characters `precedenceMap` has an entry for. */
  predicate IsOperator(c: char)
  {
    c == '+' || c == '-' || c == '*' || c == '/' || c == '^'
  }

  /** `precedenceMap[c]`: `None` stands for the missing entry (`undefined`). */
  function PrecedenceOf(c: char): (p: Option<int>)
    ensures p.Some? <==> IsOperator(c)
    ensures p.Some? ==> 1 <= p.value <= 3
  {
    if c == '+' || c == '-' then Some(1)
    else if c == '*' || c == '/' then Some(2)
    else if c == '^' then Some(3)
    else None
  }

  /** Exponentiation binds tighter than multiplication and division, which bind tighter than addition and subtraction. */
  lemma PrecedenceOrder()
    ensures PrecedenceOf('+') == PrecedenceOf('-') == Some(1)
    ensures PrecedenceOf('*') == PrecedenceOf('/') == Some(2)
    ensures PrecedenceOf('^') == Some(3)
  {
  }

  /** Every operator is a symbol, so operators reach the evaluator as symbol tokens. */
  lemma OperatorsAreSymbols(c: char)
    ensures IsOperator(c) ==> IsSymbol(c)
    ensures IsSymbol(c) && !IsOperator(c) <==> c == '(' || c == ')' || c == ',' || c == '.'
  {
  }

  /** How a token moves the parenthesis level. */
  function Delta(t: Token): int
  {
    if t == Sym('(') then 1 else if t == Sym(')') then -1 else 0
  }

  /** The parenthesis level in front of `ts[i]`: opening minus closing parentheses in `ts[..i]`; it may be negative. */
  function Depth(ts: seq<Token>, i: nat): int
    requires i <= |ts|
  {
    if i == 0 then 0 else Depth(ts, i - 1) + Delta(ts[i - 1])
  }

  /** A token `precedenceMap` ranks: an operator symbol. */
  predicate IsOperatorToken(t: Token)
  {
    t.Sym? && IsOperator(t.c)
  }

  /**
    The weight `precedenceMap[c] + paranLevel*100` the search computes for
    `ts[i]`; `None` for numbers and parentheses, which the loop skips, and
    for NaN, `,` and `.`, whose weight is NaN and never wins a comparison.
   */
  function Rank(ts: seq<Token>, i: nat): (r: Option<int>)
    requires i < |ts|
    ensures r.Some? <==> IsOperatorToken(ts[i])
  {
    if ts[i].Sym? && PrecedenceOf(ts[i].c).Some? then
      Some(PrecedenceOf(ts[i].c).value + 100 * Depth(ts, i))
    else None
  }

  /** A position the search can choose: a ranked operator whose weight does not exceed the start value. */
  predicate Candidate(ts: seq<Token>, i: nat)
    requires i < |ts|
  {
    Rank(ts, i).Some? && Rank(ts, i).value <= MaxSafeInteger
  }

  /** The running minimum that belongs to a chosen index `b` (-1: none chosen yet). */
  function Least(ts: seq<Token>, b: int): int
    requires -1 <= b < |ts|
    requires b != -1 ==> Rank(ts, b).Some?
  {
    if b == -1 then MaxSafeInteger else Rank(ts, b).value
  }

  /** The index chosen after the first `n` tokens; a later weight replaces it when it is at most the minimum so far. */
  function Best(ts: seq<Token>, n: nat): (b: int)
    requires n <= |ts|
    ensures -1 <= b < n
    ensures b != -1 ==> Candidate(ts, b)
  {
    if n == 0 then -1
    else
      var b := Best(ts, n - 1);
      if Rank(ts, n - 1).Some? && Rank(ts, n - 1).value <= Least(ts, b) then n - 1 else b
  }

  /** The index `leastPrecedence` returns. */
  function SplitIndex(ts: seq<Token>): int
  {
    Best(ts, |ts|)
  }

  /** `k` is the rightmost position of least weight among the candidates. */
  predicate IsSplit(ts: seq<Token>, k: int)
  {
    && 0 <= k < |ts|
    && Candidate(ts, k)
    && (forall i :: 0 <= i < |ts| && Candidate(ts, i) ==> Rank(ts, k).value <= Rank(ts, i).value)
    && (forall i :: k < i < |ts| && Candidate(ts, i) ==> Rank(ts, k).value < Rank(ts, i).value)
  }

  /** The choice after `n` tokens is the rightmost minimum of the first `n`, or -1 when they hold no candidate. */
  lemma {:induction false} BestIsRightmostMinimum(ts: seq<Token>, n: nat)
    requires n <= |ts|
    ensures Best(ts, n) == -1 <==> forall i :: 0 <= i < n ==> !Candidate(ts, i)
    ensures Best(ts, n) != -1 ==>
      forall i :: 0 <= i < n && Candidate(ts, i) ==> Rank(ts, Best(ts, n)).value <= Rank(ts, i).value
    ensures Best(ts, n) != -1 ==>
      forall i :: Best(ts, n) < i < n && Candidate(ts, i) ==> Rank(ts, Best(ts, n)).value < Rank(ts, i).value
  {
    if n > 0 {
      BestIsRightmostMinimum(ts, n - 1);
    }
  }

  /** `leastPrecedence` returns -1 exactly when no token is a candidate, and otherwise the rightmost minimum. */
  lemma SplitIndexIsRightmostMinimum(ts: seq<Token>)
    ensures SplitIndex(ts) == -1 <==> forall i :: 0 <= i < |ts| ==> !Candidate(ts, i)
    ensures SplitIndex(ts) != -1 ==> IsSplit(ts, SplitIndex(ts))
  {
    BestIsRightmostMinimum(ts, |ts|);
  }

  /** The rightmost minimum is unique. */
  lemma SplitIsUnique(ts: seq<Token>, j: int, k: int)
    requires IsSplit(ts, j) && IsSplit(ts, k)
    ensures j == k
  {
  }

  /** The parenthesis level in front of `ts[i]` is at most `i` away from 0. */
  lemma {:induction false} DepthBound(ts: seq<Token>, i: nat)
    requires i <= |ts|
    ensures -(i as int) <= Depth(ts, i) <= i
  {
    if i > 0 {
      DepthBound(ts, i - 1);
    }
  }

  /** In a list no longer than a host array, every operator is a candidate: the start value never cuts one off. */
  lemma OperatorsAreCandidates(ts: seq<Token>, i: nat)
    requires |ts| <= MaxArrayLength && i < |ts|
    ensures Candidate(ts, i) <==> IsOperatorToken(ts[i])
  {
    DepthBound(ts, i);
  }

  /** `leastPrecedence` returns -1 exactly when no token is one of `+ - * / ^`. */
  lemma NoSplitIffNoOperator(ts: seq<Token>)
    requires |ts| <= MaxArrayLength
    ensures SplitIndex(ts) == -1 <==> forall i :: 0 <= i < |ts| ==> !IsOperatorToken(ts[i])
  {
    SplitIndexIsRightmostMinimum(ts);
    forall i | 0 <= i < |ts|
      ensures Candidate(ts, i) <==> IsOperatorToken(ts[i])
    {
      OperatorsAreCandidates(ts, i);
    }
  }

  /** The search loop: the parenthesis level, the running minimum and the index of the last position that reached it. */
  method LeastPrecedence(expr: seq<Token>) returns (index: int)
    ensures index == SplitIndex(expr)
    ensures index == -1 <==> forall i :: 0 <= i < |expr| ==> !Candidate(expr, i)
    ensures index != -1 ==> IsSplit(expr, index)
  {
    var paranLevel := 0;
    var least := MaxSafeInteger;
    index := -1;
    for i := 0 to |expr|
      invariant paranLevel == Depth(expr, i)
      invariant index == Best(expr, i)
      invariant least == Least(expr, index)
    {
      var t := expr[i];
      if t.Num? {
        continue;
      } else if t == Sym('(') {
        paranLevel := paranLevel + 1;
        continue;
      } else if t == Sym(')') {
        paranLevel := paranLevel - 1;
        continue;
      }
      // NaN and every other symbol look up a missing entry: the weight is NaN and the comparison fails
      var entry := if t.Sym? then PrecedenceOf(t.c) else None;
      if entry.Some? {
        var precedence := entry.value + paranLevel * 100;
        if precedence <= least {
          least := precedence;
          index := i;
        }
      }
    }
    SplitIndexIsRightmostMinimum(expr);
  }
}
