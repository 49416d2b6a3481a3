/** The lexer of basic/tokenizer.cpp: one token of lookahead over a character
    stream, an end flag, and an append-only history of every token produced.
    The stream is the input text plus a read position. */
module Lexer {
  import opened Common
  import opened Tokens

  /** The state of a `Tokenizer`: the text, the read position of the stream,
      `is_end_`, the current token `token_` and the history `tokens_`. */
  datatype Lexer = Lexer(input: string, pos: nat, isEnd: bool, token: Token, history: seq<Token>)

  /** The states a tokenizer can be in between calls: the end flag is only set
      once the stream is exhausted, and the current token is the last one in the
      history, or the uninitialised constant before anything was lexed. */
  predicate Valid(lx: Lexer) {
    && lx.pos <= |lx.input|
    && (lx.isEnd ==> lx.pos == |lx.input|)
    && (|lx.history| == 0 ==> lx.token == Uninit)
    && (|lx.history| > 0 ==> lx.token == lx.history[|lx.history| - 1])
    && (forall i :: 0 <= i < |lx.history| ==> Lexed(lx.history[i]))
  }

  /** Tokens the lexer produces: every literal it builds is initialised. */
  predicate Lexed(t: Token) {
    t.Const? ==> t.isInit
  }

  /** Characters a symbol continues over: letters, digits, `<`, `=`, `>`,
      `*`, `#`, `/`, `-`, `!` and `?`. */
  predicate IsSymbolChar(c: char) {
    IsAlnum(c) || ('<' <= c <= '>') || c == '*' || c == '#' || c == '/' || c == '-' || c == '!' || c == '?'
  }

  /** Characters a symbol may start with. */
  predicate IsSymbolStart(c: char) {
    IsAlpha(c) || ('<' <= c <= '>') || c == '*' || c == '#' || c == '/'
  }

  /** The trailing-character rule after a digit run or a symbol: the character
      that stops the run must be end of input, a symbol character, a bracket,
      a dot, a sign or whitespace. */
  predicate TrailOk(s: string, e: nat)
    requires e <= |s|
  {
    e == |s| || IsSymbolChar(s[e]) || s[e] == '(' || s[e] == ')' || s[e] == '.' || s[e] == '-'
    || s[e] == '+' || IsSpace(s[e])
  }

  /** The character classes the lexer works with. Every character a symbol
      may start with also continues one; digits, `-`, `!` and `?` continue a
      symbol without starting one; brackets, the quote, the dot, `+` and
      whitespace neither start nor continue one. */
  lemma {:induction false} CharacterClasses(c: char)
    ensures IsSymbolStart(c) ==> IsSymbolChar(c)
    ensures IsDigit(c) || c == '-' || c == '!' || c == '?' ==> IsSymbolChar(c) && !IsSymbolStart(c)
    ensures c == '(' || c == ')' || c == '\'' || c == '.' || c == '+' || IsSpace(c) ==>
              !IsSymbolChar(c) && !IsSymbolStart(c)
  {
  }

  /** A number or a name may be followed directly by a bracket, a dot, a
      sign or whitespace, but a quote, a double quote or a semicolon glued to
      it is refused. */
  lemma {:induction false} TrailRejects(s: string, e: nat)
    requires e < |s|
    ensures s[e] == '(' || s[e] == ')' || s[e] == '.' || s[e] == '+' || s[e] == '-' || IsSpace(s[e]) ==>
              TrailOk(s, e)
    ensures s[e] == '\'' || s[e] == '"' || s[e] == ';' ==> !TrailOk(s, e)
  {
  }

  /** First position at or after `p` that is not whitespace (or the end). */
  function SkipSpace(s: string, p: nat): (q: nat)
    requires p <= |s|
    ensures p <= q <= |s|
    ensures forall k :: p <= k < q ==> IsSpace(s[k])
    ensures q < |s| ==> !IsSpace(s[q])
    decreases |s| - p
  {
    if p == |s| || !IsSpace(s[p]) then p else SkipSpace(s, p + 1)
  }

  /** End of the maximal run of digits starting at `p`. */
  function DigitsEnd(s: string, p: nat): (e: nat)
    requires p <= |s|
    ensures p <= e <= |s|
    ensures forall k :: p <= k < e ==> IsDigit(s[k])
    ensures e < |s| ==> !IsDigit(s[e])
    decreases |s| - p
  {
    if p == |s| || !IsDigit(s[p]) then p else DigitsEnd(s, p + 1)
  }

  /** End of the maximal run of symbol characters starting at `p`. */
  function SymbolEnd(s: string, p: nat): (e: nat)
    requires p <= |s|
    ensures p <= e <= |s|
    ensures forall k :: p <= k < e ==> IsSymbolChar(s[k])
    ensures e < |s| ==> !IsSymbolChar(s[e])
    decreases |s| - p
  {
    if p == |s| || !IsSymbolChar(s[p]) then p else SymbolEnd(s, p + 1)
  }

  /** The value `std::stoi` gives a sign character followed by digits. */
  function Signed(sign: char, magnitude: nat): int {
    if sign == '-' then -(magnitude as int) else magnitude
  }

  /** What the lexer finds at a position that is not whitespace: the end of
      the input, one token ending before `end`, or an exception. */
  datatype Scan = AtEnd | Lexeme(token: Token, end: nat) | Fail(error: Error)

  /** The body of `Tokenizer::Next` after the whitespace loop: classifies the
      character at `p` and reads the token it starts. */
  function ScanAt(s: string, p: nat): (r: Scan)
    requires p <= |s|
    ensures r.AtEnd? <==> p == |s|
    ensures r.Lexeme? ==> p < r.end <= |s| && Lexed(r.token)
    ensures r.Fail? ==> r.error == SyntaxError || r.error == OutOfRange
  {
    if p == |s| then AtEnd
    else
      var c := s[p];
      if c == '(' then Lexeme(Open, p + 1)
      else if c == ')' then Lexeme(Close, p + 1)
      else if c == '+' || c == '-' then
        var e := DigitsEnd(s, p + 1);
        if e == p + 1 then Lexeme(Sym([c]), p + 1)
        else
          var n := Signed(c, DecimalValue(s[p + 1..e]));
          if IsInt32(n) then Lexeme(Int(n), e) else Fail(OutOfRange)
      else if IsDigit(c) then
        var e := DigitsEnd(s, p);
        if !TrailOk(s, e) then Fail(SyntaxError)
        else
          var n := DecimalValue(s[p..e]);
          if IsInt32(n) then Lexeme(Int(n), e) else Fail(OutOfRange)
      else if c == '\'' then Lexeme(QuoteMark, p + 1)
      else if c == '.' then Lexeme(DotMark, p + 1)
      else if IsSymbolStart(c) then
        var e := SymbolEnd(s, p);
        if !TrailOk(s, e) then Fail(SyntaxError) else Lexeme(Sym(s[p..e]), e)
      else Fail(SyntaxError)
  }

  /** Makes `t` the current token, records it in the history and moves the
      stream to `p`. */
  function Emit(lx: Lexer, p: nat, t: Token): Lexer {
    lx.(pos := p, token := t, history := lx.history + [t])
  }

  /** `Tokenizer::Next`. Skips whitespace; at end of input only sets the end
      flag; otherwise lexes one token, makes it current and appends it to the
      history. */
  function Next(lx: Lexer): (r: Result<Lexer>)
    requires Valid(lx)
    ensures r.Ok? ==> Valid(r.value) && r.value.input == lx.input && lx.pos <= r.value.pos
    ensures r.Err? ==> r.error == SyntaxError || r.error == OutOfRange
    ensures lx.isEnd ==> r == Ok(lx)
    ensures AllSpace(lx.input[lx.pos..]) ==> r == Ok(lx.(pos := |lx.input|, isEnd := true))
    ensures r.Ok? && r.value.isEnd ==>
              r.value.token == lx.token && r.value.history == lx.history && AllSpace(lx.input[lx.pos..])
    ensures r.Ok? && !r.value.isEnd ==>
              lx.pos < r.value.pos && r.value.history == lx.history + [r.value.token]
  {
    var s := lx.input;
    var p := SkipSpace(s, lx.pos);
    assert AllSpace(s[lx.pos..p]) by {
      forall k | 0 <= k < p - lx.pos ensures IsSpace(s[lx.pos..p][k]) {
        assert s[lx.pos..p][k] == s[lx.pos + k];
      }
    }
    if p == |s| then
      assert s[lx.pos..] == s[lx.pos..p];
      Ok(lx.(pos := p, isEnd := true))
    else
      assert !AllSpace(s[lx.pos..]) by {
        assert s[lx.pos..][p - lx.pos] == s[p];
      }
      match ScanAt(s, p)
      case Lexeme(t, e) => Ok(Emit(lx, e, t))
      case Fail(err) => Err(err)
  }

  /** The tokenizer before its constructor runs. */
  function Fresh(input: string): (lx: Lexer)
    ensures Valid(lx) && lx.pos == 0 && !lx.isEnd && lx.token == Uninit && lx.history == []
  {
    Lexer(input, 0, false, Uninit, [])
  }

  /** The constructor `Tokenizer(std::istream*)`: lexes the first token at once. */
  function Init(input: string): (r: Result<Lexer>)
    ensures r.Ok? ==> Valid(r.value) && r.value.input == input && |r.value.history| <= 1
    ensures r.Ok? && r.value.isEnd <==> r.Ok? && AllSpace(input)
    ensures AllSpace(input) ==> r == Ok(Lexer(input, |input|, true, Uninit, []))
  {
    assert input[0..] == input;
    Next(Fresh(input))
  }

  /** Remaining work measure of a valid lexer: unread characters, plus one while
      the end flag is still clear. Every `Next` on a state with the flag clear
      lowers it. */
  function Measure(lx: Lexer): nat
    requires Valid(lx)
  {
    |lx.input| - lx.pos + (if lx.isEnd then 0 else 1)
  }

  lemma {:induction false} NextDecreases(lx: Lexer)
    requires Valid(lx) && !lx.isEnd && Next(lx).Ok?
    ensures Measure(Next(lx).value) < Measure(lx)
  {
  }

  /** Whitespace before a token is skipped: the token Next produces is the one
      that begins at the first non-blank character. */
  lemma {:induction false} SkipSpaceIrrelevant(lx: Lexer, k: nat)
    requires Valid(lx) && !lx.isEnd && lx.pos <= k <= |lx.input|
    requires AllSpace(lx.input[lx.pos..k])
    ensures Next(lx) == Next(lx.(pos := k))
  {
    var s := lx.input;
    assert SkipSpace(s, lx.pos) == SkipSpace(s, k) by {
      forall i | lx.pos <= i < k ensures IsSpace(s[i]) {
        assert s[i] == s[lx.pos..k][i - lx.pos];
      }
      SkipSpaceFrom(s, lx.pos, k);
    }
    if AllSpace(s[lx.pos..]) {
      assert AllSpace(s[k..]) by {
        forall i | 0 <= i < |s| - k ensures IsSpace(s[k..][i]) {
          assert s[k..][i] == s[lx.pos..][i + k - lx.pos];
        }
      }
    }
  }

  lemma {:induction false} SkipSpaceFrom(s: string, p: nat, k: nat)
    requires p <= k <= |s|
    requires forall i :: p <= i < k ==> IsSpace(s[i])
    ensures SkipSpace(s, p) == SkipSpace(s, k)
    decreases k - p
  {
    if p < k {
      SkipSpaceFrom(s, p + 1, k);
    }
  }

  /** `(`, `)`, `'` and `.` each produce exactly one bracket, quote or dot token
      and consume exactly that character. */
  lemma {:induction false} NextPunctuation(lx: Lexer)
    requires Valid(lx) && !lx.isEnd && lx.pos < |lx.input|
    requires lx.input[lx.pos] in {'(', ')', '\'', '.'}
    ensures var c := lx.input[lx.pos];
            var t := if c == '(' then Open else if c == ')' then Close else if c == '\'' then QuoteMark else DotMark;
            Next(lx) == Ok(lx.(pos := lx.pos + 1, token := t, history := lx.history + [t]))
  {
  }

  /** A sign followed by a digit run is one signed literal that consumes exactly
      the digit run; `OutOfRange` when the value does not fit an `int`. */
  lemma {:induction false} NextSignedLiteral(lx: Lexer, e: nat)
    requires Valid(lx) && !lx.isEnd && lx.pos + 1 < e <= |lx.input|
    requires lx.input[lx.pos] == '+' || lx.input[lx.pos] == '-'
    requires forall k :: lx.pos < k < e ==> IsDigit(lx.input[k])
    requires e == |lx.input| || !IsDigit(lx.input[e])
    ensures var v := Signed(lx.input[lx.pos], DecimalValue(lx.input[lx.pos + 1..e]));
            Next(lx) == if IsInt32(v) then Ok(lx.(pos := e, token := Int(v), history := lx.history + [Int(v)]))
                        else Err(OutOfRange)
  {
    assert DigitsEnd(lx.input, lx.pos + 1) == e by {
      DigitsEndIs(lx.input, lx.pos + 1, e);
    }
  }

  /** A sign not followed by a digit is a one-character symbol. */
  lemma {:induction false} NextLoneSign(lx: Lexer)
    requires Valid(lx) && !lx.isEnd && lx.pos < |lx.input|
    requires lx.input[lx.pos] == '+' || lx.input[lx.pos] == '-'
    requires lx.pos + 1 == |lx.input| || !IsDigit(lx.input[lx.pos + 1])
    ensures var t := Sym([lx.input[lx.pos]]);
            Next(lx) == Ok(lx.(pos := lx.pos + 1, token := t, history := lx.history + [t]))
  {
  }

  /** An unsigned digit run is one literal. It is a SyntaxError exactly when
      the character that ends the run breaks the trailing-character rule. */
  lemma {:induction false} NextUnsignedLiteral(lx: Lexer, e: nat)
    requires Valid(lx) && !lx.isEnd && lx.pos < e <= |lx.input|
    requires forall k :: lx.pos <= k < e ==> IsDigit(lx.input[k])
    requires e == |lx.input| || !IsDigit(lx.input[e])
    ensures var v := DecimalValue(lx.input[lx.pos..e]);
            Next(lx) == if !TrailOk(lx.input, e) then Err(SyntaxError)
                        else if IsInt32(v) then Ok(lx.(pos := e, token := Int(v), history := lx.history + [Int(v)]))
                        else Err(OutOfRange)
  {
    assert DigitsEnd(lx.input, lx.pos) == e by {
      DigitsEndIs(lx.input, lx.pos, e);
    }
  }

  /** A symbol is the maximal run of symbol characters from a symbol-start
      character; SyntaxError exactly when the character after it breaks the
      trailing-character rule. */
  lemma {:induction false} NextSymbol(lx: Lexer, e: nat)
    requires Valid(lx) && !lx.isEnd && lx.pos < e <= |lx.input|
    requires IsSymbolStart(lx.input[lx.pos])
    requires forall k :: lx.pos <= k < e ==> IsSymbolChar(lx.input[k])
    requires e == |lx.input| || !IsSymbolChar(lx.input[e])
    ensures var t := Sym(lx.input[lx.pos..e]);
            Next(lx) == if !TrailOk(lx.input, e) then Err(SyntaxError)
                        else Ok(lx.(pos := e, token := t, history := lx.history + [t]))
  {
    assert SymbolEnd(lx.input, lx.pos) == e by {
      SymbolEndIs(lx.input, lx.pos, e);
    }
  }

  /** Any other leading character is a SyntaxError. */
  lemma {:induction false} NextRejectsOther(lx: Lexer)
    requires Valid(lx) && !lx.isEnd && lx.pos < |lx.input|
    requires var c := lx.input[lx.pos];
             !IsSpace(c) && !IsDigit(c) && !IsSymbolStart(c) && c !in {'(', ')', '\'', '.', '+', '-'}
    ensures Next(lx) == Err(SyntaxError)
  {
  }

  lemma {:induction false} DigitsEndIs(s: string, p: nat, e: nat)
    requires p <= e <= |s|
    requires forall k :: p <= k < e ==> IsDigit(s[k])
    requires e == |s| || !IsDigit(s[e])
    ensures DigitsEnd(s, p) == e
    decreases e - p
  {
    if p < e {
      DigitsEndIs(s, p + 1, e);
    }
  }

  lemma {:induction false} SymbolEndIs(s: string, p: nat, e: nat)
    requires p <= e <= |s|
    requires forall k :: p <= k < e ==> IsSymbolChar(s[k])
    requires e == |s| || !IsSymbolChar(s[e])
    ensures SymbolEnd(s, p) == e
    decreases e - p
  {
    if p < e {
      SymbolEndIs(s, p + 1, e);
    }
  }
}
