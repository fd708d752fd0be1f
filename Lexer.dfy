/**
  The tokenizer of the calculator: the symbol class `opRegex`, the host's
  `parseInt` and `String.prototype.search` as far as the tokenizer uses them,
  and the left-to-right scan `parse` that turns an input line into tokens.
 */
module Lexer {

  /** A token: the result of `parseInt` on a run (a number or NaN), or one symbol character. */
  datatype Token = Num(n: nat) | NaNTok | Sym(c: char)

  /**
    Membership in the character class `[+*-\/^()]`. The class contains the
    RANGE `*`..`/`, so besides the five operators and the parentheses it
    also holds `,` and `.`.
   */
  predicate IsSymbol(c: char)
  {
    c == '+' || ('*' <= c <= '/') || c == '^' || c == '(' || c == ')'
  }

  /** The symbol class, listed character by character. */
  lemma SymbolClass(c: char)
    ensures IsSymbol(c) <==> c in ['(', ')', '*', '+', ',', '-', '.', '/', '^']
  {
  }

  /** The characters `parseInt` skips before the digits: white space and line terminators. */
  predicate IsJsWhitespace(c: char)
  {
    || ('\t' <= c <= '\r')              // tab, line feed, vertical tab, form feed, carriage return
    || c == ' ' || c == '\U{00A0}' || c == '\U{1680}'
    || ('\U{2000}' <= c <= '\U{200A}')  // the typographic spaces
    || c == '\U{2028}' || c == '\U{2029}' || c == '\U{202F}' || c == '\U{205F}'
    || c == '\U{3000}' || c == '\U{FEFF}'
  }

  /** A digit in base 10 or 16. */
  predicate IsDigit(c: char, base: nat)
  {
    if base == 16 then '0' <= c <= '9' || 'a' <= c <= 'f' || 'A' <= c <= 'F'
    else '0' <= c <= '9'
  }

  /** The value of a digit character; 0 for anything else. */
  function DigitOf(c: char): nat
  {
    if '0' <= c <= '9' then (c - '0') as nat
    else if 'a' <= c <= 'f' then (c - 'a') as nat + 10
    else if 'A' <= c <= 'F' then (c - 'A') as nat + 10
    else 0
  }

  /** The string with its leading white space removed. */
  function TrimStart(s: string): string
  {
    if |s| > 0 && IsJsWhitespace(s[0]) then TrimStart(s[1..]) else s
  }

  /** The longest prefix of `s` made of digits of `base`. */
  function DigitPrefix(s: string, base: nat): string
  {
    if |s| > 0 && IsDigit(s[0], base) then [s[0]] + DigitPrefix(s[1..], base) else []
  }

  /** The value of a digit string in `base`, most significant digit first. */
  function DigitsValue(d: string, base: nat): nat
  {
    if |d| == 0 then 0
    else if base == 16 then DigitsValue(d[..|d| - 1], base) * 16 + DigitOf(d[|d| - 1])
    else DigitsValue(d[..|d| - 1], base) * 10 + DigitOf(d[|d| - 1])
  }

  /**
    `parseInt(s)` without a radix: skip leading white space; a sign cannot
    occur in a run; a `0x`/`0X` prefix selects base 16; then the longest
    digit prefix, or NaN when it is empty.
   */
  function ParseInt(s: string): Token
  {
    var u := TrimStart(s);
    if |u| >= 2 && u[0] == '0' && (u[1] == 'x' || u[1] == 'X') then
      var h := DigitPrefix(u[2..], 16);
      if |h| == 0 then NaNTok else Num(DigitsValue(h, 16))
    else
      var d := DigitPrefix(u, 10);
      if |d| == 0 then NaNTok else Num(DigitsValue(d, 10))
  }

  /** `s.search(opRegex)`: the index of the first symbol of `s`, or -1 when there is none. */
  function Search(s: string): (k: int)
    ensures -1 <= k < |s|
    ensures k == -1 <==> forall i :: 0 <= i < |s| ==> !IsSymbol(s[i])
    ensures k != -1 ==> IsSymbol(s[k]) && forall i :: 0 <= i < k ==> !IsSymbol(s[i])
  {
    if |s| == 0 then -1
    else if IsSymbol(s[0]) then 0
    else
      var k := Search(s[1..]);
      if k == -1 then -1 else k + 1
  }

  /** Where a numeric run that starts at `s[0]` ends: the next symbol, or the end of `s`. */
  function RunEnd(s: string): (e: nat)
    requires |s| > 0 && !IsSymbol(s[0])
    ensures 1 <= e <= |s|
  {
    var k := Search(s);
    if k > -1 then k else |s|
  }

  /** The token list `parse` builds, defined one step of the scan at a time. */
  function Tokenize(s: string): (r: seq<Token>)
    ensures |r| <= |s|
    decreases |s|
  {
    if |s| == 0 then []
    else if s[0] == ' ' then Tokenize(s[1..])
    else if IsSymbol(s[0]) then [Sym(s[0])] + Tokenize(s[1..])
    else
      var e := RunEnd(s);
      [ParseInt(s[..e])] + Tokenize(s[e..])
  }

  /** A numeric run and what follows it. */
  lemma TokenizeRun(s: string, e: nat)
    requires |s| > 0 && s[0] != ' ' && !IsSymbol(s[0]) && e == RunEnd(s)
    ensures Tokenize(s) == [ParseInt(s[..e])] + Tokenize(s[e..])
  {
  }

  /** The scan steps, read off at position `i` of `expr`: a skipped space, ... */
  lemma TokenizeAtSpace(expr: string, i: nat)
    requires i < |expr| && expr[i] == ' '
    ensures Tokenize(expr[i..]) == Tokenize(expr[i + 1..])
  {
    assert expr[i..][1..] == expr[i + 1..];
  }

  /** ... a symbol token, ... */
  lemma TokenizeAtSymbol(expr: string, i: nat)
    requires i < |expr| && IsSymbol(expr[i])
    ensures Tokenize(expr[i..]) == [Sym(expr[i])] + Tokenize(expr[i + 1..])
  {
    assert expr[i..][1..] == expr[i + 1..];
  }

  /** ... and a numeric run. */
  lemma TokenizeAtRun(expr: string, i: nat, end: nat)
    requires i < |expr| && expr[i] != ' ' && !IsSymbol(expr[i])
    requires end == i + RunEnd(expr[i..])
    ensures Tokenize(expr[i..]) == [ParseInt(expr[i..end])] + Tokenize(expr[end..])
  {
    var rest, e := expr[i..], end - i;
    TokenizeRun(rest, e);
    assert rest[..e] == expr[i..end];
    assert rest[e..] == expr[end..];
  }

  /** `parse(expr)`: the imperative scan, pushing onto `result` and advancing `i`. */
  method Parse(expr: string) returns (result: seq<Token>)
    ensures result == Tokenize(expr)
  {
    result := [];
    var i := 0;
    assert expr[i..] == expr;
    while i < |expr|
      invariant 0 <= i <= |expr|
      invariant result + Tokenize(expr[i..]) == Tokenize(expr)
      decreases |expr| - i
    {
      var c := expr[i];
      if c == ' ' {
        assert result + Tokenize(expr[i + 1..]) == Tokenize(expr) by { TokenizeAtSpace(expr, i); }
        i := i + 1;
      } else if IsSymbol(c) {
        assert (result + [Sym(c)]) + Tokenize(expr[i + 1..]) == Tokenize(expr) by { TokenizeAtSymbol(expr, i); }
        result := result + [Sym(c)];
        i := i + 1;
      } else {
        var nextOp := Search(expr[i..]);
        var end := if nextOp > -1 then i + nextOp else |expr|;
        var num := ParseInt(expr[i..end]);
        assert (result + [num]) + Tokenize(expr[end..]) == Tokenize(expr) by {
          assert end == i + RunEnd(expr[i..]);
          TokenizeAtRun(expr, i, end);
        }
        result := result + [num];
        i := end;
      }
    }
    assert Tokenize(expr[i..]) == [];
  }

  // ---------------------------------------------------------------------
  // Properties of the scan
  // ---------------------------------------------------------------------

  /** The empty line has no tokens. */
  lemma TokenizeEmpty()
    ensures Tokenize("") == []
  {
  }

  /** `search` finds the first symbol: any index with that property is its result. */
  lemma SearchIsFirst(s: string, k: nat)
    requires k < |s| && IsSymbol(s[k])
    requires forall j :: 0 <= j < k ==> !IsSymbol(s[j])
    ensures Search(s) == k
  {
  }

  /** Slicing a line with one character inserted after position `e`. */
  lemma SliceInserted<T>(a: seq<T>, c: T, b: seq<T>, e: nat)
    requires e <= |a|
    ensures (a + [c] + b)[..e] == a[..e]
    ensures (a + [c] + b)[e..] == a[e..] + [c] + b
    ensures e < |a| ==> (a + [c] + b)[e] == a[e]
    ensures e == |a| ==> (a + [c] + b)[e] == c
  {
  }

  /** The scan of `s` begins with the run `s[..e]` when `s` and `a` agree up to a symbol or the end at `e`. */
  lemma RunOfPrefix(a: string, s: string, e: nat)
    requires 0 < e <= |a| <= |s| && a[..e] == s[..e]
    requires a[0] != ' ' && !IsSymbol(a[0])
    requires e == RunEnd(a)
    requires e < |a| ==> s[e] == a[e]
    requires e == |a| ==> e < |s| && IsSymbol(s[e])
    ensures e == RunEnd(s)
    ensures Tokenize(s) == [ParseInt(a[..e])] + Tokenize(s[e..])
    ensures Tokenize(a) == [ParseInt(a[..e])] + Tokenize(a[e..])
  {
    assert a[0] == a[..e][0] == s[0];
    var k := Search(a);
    forall j | 0 <= j < e
      ensures !IsSymbol(s[j])
    {
      assert s[j] == a[..e][j] == a[j];
    }
    SearchIsFirst(s, e);
    TokenizeRun(s, e);
    TokenizeRun(a, e);
  }

  /** The step of the split lemma for a line that starts with a numeric run. */
  lemma SplitAfterRun(a: string, c: char, b: string, e: nat)
    requires IsSymbol(c) && 0 < |a| && a[0] != ' ' && !IsSymbol(a[0]) && e == RunEnd(a)
    requires Tokenize(a[e..] + [c] + b) == Tokenize(a[e..]) + [Sym(c)] + Tokenize(b)
    ensures Tokenize(a + [c] + b) == Tokenize(a) + [Sym(c)] + Tokenize(b)
  {
    SliceInserted(a, c, b, e);
    RunOfPrefix(a, a + [c] + b, e);
    var p, x, y := [ParseInt(a[..e])], Tokenize(a[e..]), Tokenize(b);
    Reassociate(p, x, [Sym(c)], y);
  }

  lemma Reassociate<T>(p: seq<T>, x: seq<T>, m: seq<T>, y: seq<T>)
    ensures p + (x + m + y) == (p + x) + m + y
  {
  }

  /**
    A symbol cuts the token stream: whatever precedes it is scanned as if the
    line ended there, and whatever follows it as if the line started there.
   */
  lemma {:induction false} TokenizeSplitsAtSymbol(a: string, c: char, b: string)
    requires IsSymbol(c)
    ensures Tokenize(a + [c] + b) == Tokenize(a) + [Sym(c)] + Tokenize(b)
    decreases |a|
  {
    var s := a + [c] + b;
    if |a| == 0 {
      assert s == [c] + b;
      assert s[1..] == b;
    } else if a[0] == ' ' || IsSymbol(a[0]) {
      assert s[0] == a[0];
      assert s[1..] == a[1..] + [c] + b;
      TokenizeSplitsAtSymbol(a[1..], c, b);
    } else {
      var e := RunEnd(a);
      TokenizeSplitsAtSymbol(a[e..], c, b);
      SplitAfterRun(a, c, b, e);
    }
  }

  /** Leading white space is dropped by `parseInt`, and appending a space keeps it: */
  lemma {:induction false} TrimStartAppendSpace(r: string)
    ensures TrimStart(r + [' ']) == if |TrimStart(r)| == 0 then [] else TrimStart(r) + [' ']
    decreases |r|
  {
    if |r| > 0 {
      assert (r + [' '])[0] == r[0];
      assert (r + [' '])[1..] == r[1..] + [' '];
      if IsJsWhitespace(r[0]) {
        TrimStartAppendSpace(r[1..]);
      }
    } else {
      assert r + [' '] == [' '];
      assert [' '][1..] == [];
    }
  }

  /** ... and a space is never a digit. */
  lemma {:induction false} DigitPrefixAppendSpace(u: string, base: nat)
    ensures DigitPrefix(u + [' '], base) == DigitPrefix(u, base)
    decreases |u|
  {
    if |u| > 0 {
      assert (u + [' '])[0] == u[0];
      assert (u + [' '])[1..] == u[1..] + [' '];
      DigitPrefixAppendSpace(u[1..], base);
    }
  }

  /** A trailing space does not change what `parseInt` reads. */
  lemma ParseIntAppendSpace(r: string)
    ensures ParseInt(r + [' ']) == ParseInt(r)
  {
    TrimStartAppendSpace(r);
    var u := TrimStart(r);
    if |u| > 0 {
      var u' := u + [' '];
      assert u'[0] == u[0];
      DigitPrefixAppendSpace(u, 10);
      if |u| >= 2 {
        assert u'[1] == u[1];
        assert u'[2..] == u[2..] + [' '];
        DigitPrefixAppendSpace(u[2..], 16);
      }
    }
  }

  /** Slicing a line with one character appended. */
  lemma SliceAppended<T>(a: seq<T>, c: T, e: nat)
    requires e <= |a|
    ensures (a + [c])[..e] == a[..e]
    ensures (a + [c])[e..] == a[e..] + [c]
    ensures e < |a| ==> (a + [c])[e] == a[e]
    ensures |a| > 0 ==> (a + [c])[0] == a[0]
    ensures (a + [c])[|a|] == c
    ensures (a + [c])[..|a| + 1] == a + [c]
    ensures a[..|a|] == a
    ensures a[|a|..] == [] && (a + [c])[|a| + 1..] == []
  {
  }

  /** The step of the trailing-space lemma for a line that starts with a numeric run ending at a symbol, ... */
  lemma AppendSpaceAfterRun(a: string, e: nat)
    requires 0 < |a| && a[0] != ' ' && !IsSymbol(a[0]) && e == RunEnd(a) && e < |a|
    requires Tokenize(a[e..] + [' ']) == Tokenize(a[e..])
    ensures Tokenize(a + [' ']) == Tokenize(a)
  {
    SliceAppended(a, ' ', e);
    RunOfPrefix(a, a + [' '], e);
  }

  /** ... and for a line that is one numeric run. */
  lemma AppendSpaceToRun(a: string)
    requires 0 < |a| && a[0] != ' ' && !IsSymbol(a[0]) && RunEnd(a) == |a|
    ensures Tokenize(a + [' ']) == Tokenize(a)
  {
    var s := a + [' '];
    SliceAppended(a, ' ', 0);
    forall j | 0 <= j < |s|
      ensures !IsSymbol(s[j])
    {
      if j < |a| { assert s[j] == a[j]; }
    }
    assert RunEnd(s) == |s|;
    TokenizeRun(a, |a|);
    TokenizeRun(s, |s|);
    ParseIntAppendSpace(a);
  }

  /** A space at the end of the line produces no token and changes no token. */
  lemma {:induction false} TokenizeAppendSpace(a: string)
    ensures Tokenize(a + [' ']) == Tokenize(a)
    decreases |a|
  {
    var s := a + [' '];
    if |a| == 0 {
      assert s == [' '];
      assert s[1..] == [];
    } else if a[0] == ' ' || IsSymbol(a[0]) {
      SliceAppended(a, ' ', 1);
      TokenizeAppendSpace(a[1..]);
    } else {
      var e := RunEnd(a);
      if e < |a| {
        TokenizeAppendSpace(a[e..]);
        AppendSpaceAfterRun(a, e);
      } else {
        AppendSpaceToRun(a);
      }
    }
  }

  /** A space at the start of the line produces no token and changes no token. */
  lemma TokenizePrependSpace(b: string)
    ensures Tokenize([' '] + b) == Tokenize(b)
  {
    assert ([' '] + b)[1..] == b;
  }

  lemma Regroup<T>(a: seq<T>, x: T, y: T, b: seq<T>)
    ensures a + [x, y] + b == (a + [x]) + [y] + b
    ensures a + [x, y] + b == a + [x] + ([y] + b)
  {
  }

  /**
    Spaces next to a symbol are insignificant: "1 + 2" and "1+2" scan alike.
    (A space inside a numeric run is not: "1 2" is the single run "1 2".)
   */
  lemma SpaceBeforeSymbol(a: string, c: char, b: string)
    requires IsSymbol(c)
    ensures Tokenize(a + [' ', c] + b) == Tokenize(a + [c] + b)
  {
    Regroup(a, ' ', c, b);
    TokenizeSplitsAtSymbol(a + [' '], c, b);
    TokenizeAppendSpace(a);
    TokenizeSplitsAtSymbol(a, c, b);
  }

  lemma SpaceAfterSymbol(a: string, c: char, b: string)
    requires IsSymbol(c)
    ensures Tokenize(a + [c, ' '] + b) == Tokenize(a + [c] + b)
  {
    Regroup(a, c, ' ', b);
    TokenizeSplitsAtSymbol(a, c, [' '] + b);
    TokenizePrependSpace(b);
    TokenizeSplitsAtSymbol(a, c, b);
  }

  /** A parenthesised line scans as the parentheses around the line's own tokens. */
  lemma TokenizeParenthesised(s: string)
    ensures Tokenize(['('] + s + [')']) == [Sym('(')] + Tokenize(s) + [Sym(')')]
  {
    assert ['('] + s + [')'] == [] + ['('] + (s + [')']);
    TokenizeSplitsAtSymbol([], '(', s + [')']);
    assert s + [')'] == s + [')'] + [];
    TokenizeSplitsAtSymbol(s, ')', []);
  }

  /** A symbol with a space on each side cuts the token stream like the bare symbol. */
  lemma TokenizeSpacedSymbol(a: string, c: char, b: string)
    requires IsSymbol(c)
    ensures Tokenize(a + [' ', c, ' '] + b) == Tokenize(a) + [Sym(c)] + Tokenize(b)
  {
    assert a + [' ', c, ' '] + b == a + [' ', c] + ([' '] + b);
    SpaceBeforeSymbol(a, c, [' '] + b);
    assert a + [c] + ([' '] + b) == a + [c, ' '] + b;
    SpaceAfterSymbol(a, c, b);
    TokenizeSplitsAtSymbol(a, c, b);
  }

  /** The symbol characters of a line, in order. */
  function SymbolChars(s: string): string
  {
    if |s| == 0 then []
    else (if IsSymbol(s[0]) then [s[0]] else []) + SymbolChars(s[1..])
  }

  /** The characters of the symbol tokens of a token list, in order. */
  function SymbolTokens(ts: seq<Token>): string
  {
    if |ts| == 0 then []
    else (if ts[0].Sym? then [ts[0].c] else []) + SymbolTokens(ts[1..])
  }

  lemma {:induction false} SymbolTokensAppend(xs: seq<Token>, ys: seq<Token>)
    ensures SymbolTokens(xs + ys) == SymbolTokens(xs) + SymbolTokens(ys)
    decreases |xs|
  {
    if |xs| == 0 {
      assert xs + ys == ys;
    } else {
      assert (xs + ys)[0] == xs[0];
      assert (xs + ys)[1..] == xs[1..] + ys;
      SymbolTokensAppend(xs[1..], ys);
    }
  }

  lemma {:induction false} SymbolCharsSkip(s: string, e: nat)
    requires e <= |s|
    requires forall j :: 0 <= j < e ==> !IsSymbol(s[j])
    ensures SymbolChars(s) == SymbolChars(s[e..])
    decreases e
  {
    if e > 0 {
      assert s[1..][e - 1..] == s[e..];
      SymbolCharsSkip(s[1..], e - 1);
    }
  }

  /**
    Every symbol character becomes exactly one symbol token, in source order,
    and no other token is a symbol token.
   */
  lemma {:induction false} SymbolsBecomeTokens(s: string)
    ensures SymbolTokens(Tokenize(s)) == SymbolChars(s)
    decreases |s|
  {
    if |s| > 0 {
      if s[0] == ' ' || IsSymbol(s[0]) {
        var rest := Tokenize(s[1..]);
        SymbolsBecomeTokens(s[1..]);
        if IsSymbol(s[0]) {
          SymbolTokensAppend([Sym(s[0])], rest);
        }
      } else {
        var e := RunEnd(s);
        TokenizeRun(s, e);
        SymbolTokensAppend([ParseInt(s[..e])], Tokenize(s[e..]));
        assert SymbolTokens([ParseInt(s[..e])]) == [];
        SymbolsBecomeTokens(s[e..]);
        SymbolCharsSkip(s, e);
      }
    }
  }

  /** The character of a decimal digit. */
  function DigitChar(d: nat): (c: char)
    requires d < 10
    ensures '0' <= c <= '9' && DigitOf(c) == d
  {
    ('0' as int + d) as char
  }

  /** The decimal numeral of `n`, most significant digit first. */
  function DecimalString(n: nat): (s: string)
    ensures |s| > 0
    ensures forall i :: 0 <= i < |s| ==> '0' <= s[i] <= '9'
  {
    if n < 10 then [DigitChar(n)] else DecimalString(n / 10) + [DigitChar(n % 10)]
  }

  /** A string of decimal digits is its own longest digit prefix. */
  lemma {:induction false} DigitPrefixOfDigits(s: string)
    requires forall i :: 0 <= i < |s| ==> '0' <= s[i] <= '9'
    ensures DigitPrefix(s, 10) == s
    decreases |s|
  {
    if |s| > 0 {
      DigitPrefixOfDigits(s[1..]);
    }
  }

  /** Reading the decimal numeral of `n` back gives `n`. */
  lemma {:induction false} DecimalValue(n: nat)
    ensures DigitsValue(DecimalString(n), 10) == n
  {
    var s := DecimalString(n);
    if n >= 10 {
      assert s[..|s| - 1] == DecimalString(n / 10);
      DecimalValue(n / 10);
    }
  }

  /** `parseInt` inverts the decimal numeral. */
  lemma ParseIntOfDecimal(n: nat)
    ensures ParseInt(DecimalString(n)) == Num(n)
  {
    var s := DecimalString(n);
    assert TrimStart(s) == s;
    DigitPrefixOfDigits(s);
    DecimalValue(n);
  }

  /** A decimal numeral scans as the one number token it denotes. */
  lemma TokenizeDecimal(n: nat)
    ensures Tokenize(DecimalString(n)) == [Num(n)]
  {
    var s := DecimalString(n);
    assert Search(s) == -1;
    TokenizeRun(s, |s|);
    assert s[..|s|] == s;
    ParseIntOfDecimal(n);
  }
}
