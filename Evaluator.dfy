/**
  The recursive evaluator `evaluate` and the operator semantics `stringMath`.
  Thrown errors become the outcomes `InvalidSyntax` ("Invalid syntax") and
  `DivByZero` ("Cannot divide by 0"); numbers are exact reals.
 */
module Evaluator {
  import opened Lexer
  import opened Precedence

  /** A value the evaluator passes around: a number, NaN, or a bare symbol a one-token list returns as-is. */
  datatype Value = Number(r: real) | NaNVal | SymVal(c: char)

  /**
    The outcome of an evaluation. `Unrepresentable` stands for a power
    the model does not compute: an infinity, and every fractional power of
    a positive base other than 1, whether its value is rational or not.
   */
  datatype Outcome = Ok(value: Value) | InvalidSyntax | DivByZero | Unrepresentable

  /** What a one-token list evaluates to: the token itself. */
  function TokenValue(t: Token): Value
  {
    match t
    case Num(n) => Number(n as real)
    case NaNTok => NaNVal
    case Sym(c) => SymVal(c)
  }

  /** `r` is a whole number. */
  predicate IsInteger(r: real)
  {
    r.Floor as real == r
  }

  /** `x` raised to the natural power `n`. */
  function RealPow(x: real, n: nat): real
  {
    if n == 0 then 1.0 else x * RealPow(x, n - 1)
  }

  /** Powers of a non-zero base are non-zero. */
  lemma {:induction false} RealPowNonZero(x: real, n: nat)
    requires x != 0.0
    ensures RealPow(x, n) != 0.0
  {
    if n > 0 {
      RealPowNonZero(x, n - 1);
    }
  }

  /**
    `Math.pow(a, b)`: a NaN exponent gives NaN; a zero exponent gives 1 for
    every base, NaN included; a NaN base gives NaN otherwise. A whole
    exponent gives the exact power (a negative power of 0 is an infinity).
    A fractional exponent gives NaN on a negative base, 0 or an infinity on
    a zero base, and 1 on the base 1; on any other base the model does not
    compute it, even where the host's value is exact (`4^0.5` is 2).
    A symbol converts to NaN.
   */
  function Pow(a: Value, b: Value): Outcome
  {
    if !b.Number? then Ok(NaNVal)
    else if b.r == 0.0 then Ok(Number(1.0))
    else if !a.Number? then Ok(NaNVal)
    else if IsInteger(b.r) then
      var n := b.r.Floor;
      if n >= 0 then Ok(Number(RealPow(a.r, n)))
      else if a.r == 0.0 then Unrepresentable
      else
        RealPowNonZero(a.r, -n);
        Ok(Number(1.0 / RealPow(a.r, -n)))
    else if a.r < 0.0 then Ok(NaNVal)
    else if a.r == 0.0 then (if b.r > 0.0 then Ok(Number(0.0)) else Unrepresentable)
    else if a.r == 1.0 then Ok(Number(1.0))
    else Unrepresentable
  }

  /**
    `stringMath(a, b, op)`. Arithmetic on NaN or on a symbol gives NaN;
    `/` first rejects a divisor equal to 0; an operator outside the switch
    falls through to `undefined`, which is NaN as well.
   */
  function StringMath(a: Value, b: Value, op: char): (r: Outcome)
    ensures r.Ok? || r == DivByZero || r == Unrepresentable
    ensures r == DivByZero <==> op == '/' && b == Number(0.0)
    ensures r == Unrepresentable ==> op == '^'
    ensures !IsOperator(op) ==> r == Ok(NaNVal)
    ensures op != '^' && r.Ok? && r.value.Number? ==> a.Number? && b.Number?
  {
    if op == '+' then
      if a.Number? && b.Number? then Ok(Number(a.r + b.r)) else Ok(NaNVal)
    else if op == '-' then
      if a.Number? && b.Number? then Ok(Number(a.r - b.r)) else Ok(NaNVal)
    else if op == '*' then
      if a.Number? && b.Number? then Ok(Number(a.r * b.r)) else Ok(NaNVal)
    else if op == '/' then
      if b == Number(0.0) then DivByZero
      else if a.Number? && b.Number? then Ok(Number(a.r / b.r)) else Ok(NaNVal)
    else if op == '^' then Pow(a, b)
    else Ok(NaNVal)
  }

  /** One combining step of `evaluate`: `stringMath`, then "Invalid syntax" when the result is NaN. */
  function Combine(a: Value, b: Value, op: char): (r: Outcome)
    ensures r.Ok? ==> r.value.Number? && r == StringMath(a, b, op)
    ensures StringMath(a, b, op).Ok? && !StringMath(a, b, op).value.Number? <==> r == InvalidSyntax
    ensures !r.Ok? && r != InvalidSyntax ==> r == StringMath(a, b, op)
  {
    var r := StringMath(a, b, op);
    if r.Ok? && !r.value.Number? then InvalidSyntax else r
  }

  /** The list starts with `(` and ends with `)`: the test that strips one outer pair. */
  predicate Bracketed(ts: seq<Token>)
  {
    |ts| > 0 && ts[0] == Sym('(') && ts[|ts| - 1] == Sym(')')
  }

  /**
    `evaluate`: strip one outer pair of parentheses when the list starts
    with `(` and ends with `)`; return a lone token as it is; otherwise split
    at `leastPrecedence`, reject a split index below 1, evaluate the left part
    and then the right part (the first error wins), and combine.
   */
  function Evaluate(ts: seq<Token>): Outcome
    decreases |ts|
  {
    if Bracketed(ts) then Evaluate(ts[1..|ts| - 1])
    else if |ts| == 1 then Ok(TokenValue(ts[0]))
    else
      var k := SplitIndex(ts);
      if k < 1 then InvalidSyntax
      else
        var left := Evaluate(ts[..k]);
        if !left.Ok? then left
        else
          var right := Evaluate(ts[k + 1..]);
          if !right.Ok? then right
          else Combine(left.value, right.value, ts[k].c)
  }

  /** What the calculator prints for an input line: `evaluate(parse(line))`. */
  function Calculate(line: string): Outcome
  {
    Evaluate(Tokenize(line))
  }

  /** The empty list is invalid syntax, since `leastPrecedence` finds no operator in it. */
  lemma EvaluateEmpty()
    ensures Evaluate([]) == InvalidSyntax
    ensures Calculate("") == InvalidSyntax
  {
    TokenizeEmpty();
  }

  /** A split index below 1 (no operator, or one at the front only) is invalid syntax. */
  lemma SplitBelowOneFails(ts: seq<Token>)
    requires !Bracketed(ts) && |ts| != 1 && SplitIndex(ts) < 1
    ensures Evaluate(ts) == InvalidSyntax
  {
  }

  /** Exactly one enclosing pair is stripped before anything else happens. */
  lemma StripsOnePair(ts: seq<Token>)
    ensures Evaluate([Sym('(')] + ts + [Sym(')')]) == Evaluate(ts)
  {
    var w := [Sym('(')] + ts + [Sym(')')];
    assert w[1..|w| - 1] == ts;
  }

  /** The list with every enclosing pair stripped, as the repeated first step of `evaluate` leaves it. */
  function Unwrap(ts: seq<Token>): (u: seq<Token>)
    ensures |u| <= |ts|
    ensures !Bracketed(u)
    decreases |ts|
  {
    if Bracketed(ts) then Unwrap(ts[1..|ts| - 1]) else ts
  }

  /**
    A successful evaluation yields NaN or a symbol exactly when the list is
    one token wrapped in enclosing pairs and that token is NaN or a symbol:
    every value that goes through `stringMath` passes the NaN check as a number.
   */
  lemma {:induction false} NonNumberOnlyFromLoneToken(ts: seq<Token>)
    ensures (Evaluate(ts).Ok? && !Evaluate(ts).value.Number?) <==>
            (|Unwrap(ts)| == 1 && !TokenValue(Unwrap(ts)[0]).Number?)
    ensures |Unwrap(ts)| == 1 ==> Evaluate(ts) == Ok(TokenValue(Unwrap(ts)[0]))
    decreases |ts|
  {
    if Bracketed(ts) {
      NonNumberOnlyFromLoneToken(ts[1..|ts| - 1]);
    }
  }

  /** The operators of precedence at most 2, which cannot stand at the front of a valid expression. */
  predicate IsLowOperator(t: Token)
  {
    t == Sym('+') || t == Sym('-') || t == Sym('*') || t == Sym('/')
  }

  /**
    A list of two or more tokens that starts with one of `+ - * /` never
    evaluates to a value in the model: if the split is the second token, the
    left part is a bare symbol, which every operator of the model turns into
    NaN (no `^` can win the split there); otherwise the left part starts
    with the same operator. The host's `+` concatenates the bare symbol
    instead, so there `-+5` gives `-5`.
   */
  lemma {:induction false} LeadingOperatorFails(ts: seq<Token>)
    requires |ts| >= 2 && IsLowOperator(ts[0])
    ensures !Evaluate(ts).Ok?
    decreases |ts|
  {
    var k := SplitIndex(ts);
    if k >= 1 {
      SplitIndexIsRightmostMinimum(ts);
      if k == 1 {
        assert Candidate(ts, 0);
        assert Depth(ts, 1) == 0;
        assert ts[..1] == [ts[0]];
      } else {
        var left := ts[..k];
        assert left[0] == ts[0];
        LeadingOperatorFails(left);
      }
    }
  }

  /** `Math.pow` with a whole, non-negative exponent is the exact power. */
  lemma PowOfWhole(x: real, m: nat)
    ensures Pow(Number(x), Number(m as real)) == Ok(Number(RealPow(x, m)))
  {
    assert (m as real).Floor == m;
    if m == 0 {
      assert (m as real) == 0.0;
    } else {
      assert (m as real) != 0.0;
    }
  }

  /** Any value, NaN and symbols included, to the power 0 is 1 (so `^^0` evaluates to 1). */
  lemma PowZeroExponent(a: Value)
    ensures Pow(a, Number(0.0)) == Ok(Number(1.0))
    ensures Combine(a, Number(0.0), '^') == Ok(Number(1.0))
  {
  }
}
