/** The earlier lexer of tokenizer/tokenizer.cpp. It shares the token type and
    character classes of the later one but keeps no history, never checks the
    character after a digit run or a symbol, and after a signed literal also
    consumes the character that ends the digit run. */
module EarlyLexer {
  import opened Common
  import opened Tokens
  import Lexer

  /** The state of the earlier `Tokenizer`: text, read position, `is_end_` and
      the current token. */
  datatype EarlyLexer = EarlyLexer(input: string, pos: nat, isEnd: bool, token: Token)

  predicate Valid(lx: EarlyLexer) {
    lx.pos <= |lx.input| && (lx.isEnd ==> lx.pos == |lx.input|)
  }

  /** `Tokenizer::Next` of the earlier lexer. */
  function Next(lx: EarlyLexer): (r: Result<EarlyLexer>)
    requires Valid(lx)
    ensures r.Ok? ==> Valid(r.value) && r.value.input == lx.input && lx.pos <= r.value.pos
    ensures r.Err? ==> r.error == SyntaxError || r.error == OutOfRange
    ensures r.Ok? && r.value.pos == lx.pos ==> r.value == lx.(isEnd := true) && lx.pos == |lx.input|
  {
    var s := lx.input;
    var p := Lexer.SkipSpace(s, lx.pos);
    if p == |s| then Ok(lx.(pos := p, isEnd := true))
    else
      var c := s[p];
      if c == '(' then Ok(lx.(pos := p + 1, token := Open))
      else if c == ')' then Ok(lx.(pos := p + 1, token := Close))
      else if c == '+' || c == '-' then
        if p + 1 < |s| && IsDigit(s[p + 1]) then
          var e := Lexer.DigitsEnd(s, p + 1);
          var n := Lexer.Signed(c, DecimalValue(s[p + 1..e]));
          if !IsInt32(n) then Err(OutOfRange)
          else if e == |s| then Ok(lx.(pos := e, isEnd := true, token := Int(n)))
          else Ok(lx.(pos := e + 1, token := Int(n)))
        else Ok(lx.(pos := p + 1, token := Sym([c])))
      else if IsDigit(c) then
        var e := Lexer.DigitsEnd(s, p);
        var n := DecimalValue(s[p..e]);
        if IsInt32(n) then Ok(lx.(pos := e, token := Int(n))) else Err(OutOfRange)
      else if c == '\'' then Ok(lx.(pos := p + 1, token := QuoteMark))
      else if c == '.' then Ok(lx.(pos := p + 1, token := DotMark))
      else if Lexer.IsSymbolStart(c) then
        var e := Lexer.SymbolEnd(s, p);
        Ok(lx.(pos := e, token := Sym(s[p..e])))
      else Err(SyntaxError)
  }

  /** The constructor: lexes the first token at once. */
  function Init(input: string): (r: Result<EarlyLexer>)
    ensures r == Next(EarlyLexer(input, 0, false, Uninit))
    ensures AllSpace(input) ==> r == Ok(EarlyLexer(input, |input|, true, Uninit))
  {
    var lx := EarlyLexer(input, 0, false, Uninit);
    assert AllSpace(input) ==> Lexer.SkipSpace(input, 0) == |input| by {
      if AllSpace(input) {
        Lexer.SkipSpaceFrom(input, 0, |input|);
      }
    }
    Next(lx)
  }

  /** Whitespace up to the end of input sets the end flag and leaves the
      current token as it was. */
  lemma {:induction false} NextAtEnd(lx: EarlyLexer)
    requires Valid(lx)
    requires AllSpace(lx.input[lx.pos..])
    ensures Next(lx) == Ok(lx.(pos := |lx.input|, isEnd := true))
  {
    var s := lx.input;
    forall k | lx.pos <= k < |s| ensures IsSpace(s[k]) {
      assert s[k] == s[lx.pos..][k - lx.pos];
    }
    Lexer.SkipSpaceFrom(s, lx.pos, |s|);
  }

  /** A sign followed by digits reads the digit run and then one more
      character, which is lost; at end of input the end flag is set together
      with the new token. The value is the numeric prefix of the text read. */
  lemma {:induction false} NextSignedLiteral(lx: EarlyLexer, e: nat)
    requires Valid(lx) && lx.pos + 1 < e <= |lx.input|
    requires lx.input[lx.pos] == '+' || lx.input[lx.pos] == '-'
    requires forall k :: lx.pos < k < e ==> IsDigit(lx.input[k])
    requires e == |lx.input| || !IsDigit(lx.input[e])
    ensures var v := Lexer.Signed(lx.input[lx.pos], DecimalValue(lx.input[lx.pos + 1..e]));
            Next(lx) == if !IsInt32(v) then Err(OutOfRange)
                        else if e == |lx.input| then Ok(lx.(pos := e, isEnd := true, token := Int(v)))
                        else Ok(lx.(pos := e + 1, token := Int(v)))
  {
    Lexer.DigitsEndIs(lx.input, lx.pos + 1, e);
  }

  /** A sign not followed by a digit is a one-character symbol. */
  lemma {:induction false} NextLoneSign(lx: EarlyLexer)
    requires Valid(lx) && lx.pos < |lx.input|
    requires lx.input[lx.pos] == '+' || lx.input[lx.pos] == '-'
    requires lx.pos + 1 == |lx.input| || !IsDigit(lx.input[lx.pos + 1])
    ensures Next(lx) == Ok(lx.(pos := lx.pos + 1, token := Sym([lx.input[lx.pos]])))
  {
  }

  /** An unsigned digit run is one literal; the character after it is neither
      read nor checked. */
  lemma {:induction false} NextUnsignedLiteral(lx: EarlyLexer, e: nat)
    requires Valid(lx) && lx.pos < e <= |lx.input|
    requires forall k :: lx.pos <= k < e ==> IsDigit(lx.input[k])
    requires e == |lx.input| || !IsDigit(lx.input[e])
    ensures var v := DecimalValue(lx.input[lx.pos..e]);
            Next(lx) == if IsInt32(v) then Ok(lx.(pos := e, token := Int(v))) else Err(OutOfRange)
  {
    Lexer.DigitsEndIs(lx.input, lx.pos, e);
  }

  /** A symbol is the maximal run of symbol characters; whatever follows it is
      left for the next call. */
  lemma {:induction false} NextSymbol(lx: EarlyLexer, e: nat)
    requires Valid(lx) && lx.pos < e <= |lx.input|
    requires Lexer.IsSymbolStart(lx.input[lx.pos])
    requires forall k :: lx.pos <= k < e ==> Lexer.IsSymbolChar(lx.input[k])
    requires e == |lx.input| || !Lexer.IsSymbolChar(lx.input[e])
    ensures Next(lx) == Ok(lx.(pos := e, token := Sym(lx.input[lx.pos..e])))
  {
    Lexer.SymbolEndIs(lx.input, lx.pos, e);
  }

  /** `(`, `)`, `'` and `.` give bracket, quote and dot tokens; any other
      character outside the token alphabet is a SyntaxError. */
  lemma {:induction false} NextSingleCharacters(lx: EarlyLexer)
    requires Valid(lx) && lx.pos < |lx.input|
    requires var c := lx.input[lx.pos]; !IsSpace(c) && !IsDigit(c) && !Lexer.IsSymbolStart(c) && c != '+' && c != '-'
    ensures var c := lx.input[lx.pos];
            Next(lx) == if c == '(' then Ok(lx.(pos := lx.pos + 1, token := Open))
                        else if c == ')' then Ok(lx.(pos := lx.pos + 1, token := Close))
                        else if c == '\'' then Ok(lx.(pos := lx.pos + 1, token := QuoteMark))
                        else if c == '.' then Ok(lx.(pos := lx.pos + 1, token := DotMark))
                        else Err(SyntaxError)
  {
  }

  /** Both lexers read the same token from the same position, except that the
      later one rejects a bad character after a digit run or a symbol, and
      after a signed literal the earlier one also swallows one character. */
  lemma {:induction false} AgreesWithLaterLexer(lx: EarlyLexer, later: Lexer.Lexer)
    requires Valid(lx) && Lexer.Valid(later) && !lx.isEnd && !later.isEnd
    requires lx.input == later.input && lx.pos == later.pos
    requires Lexer.Next(later).Ok? && !Lexer.Next(later).value.isEnd
    ensures var q := Lexer.Next(later).value;
            var s := lx.input;
            var p := Lexer.SkipSpace(s, lx.pos);
            Next(lx).Ok? && Next(lx).value.token == q.token &&
            (if s[p] in {'+', '-'} && q.token.Const? then
               Next(lx).value.pos == (if q.pos == |s| then q.pos else q.pos + 1)
             else Next(lx).value.pos == q.pos)
  {
    var s := lx.input;
    var p := Lexer.SkipSpace(s, lx.pos);
    assert Lexer.ScanAt(s, p).Lexeme?;
    if s[p] in {'+', '-'} {
      AgreesOnSign(lx, p);
    } else {
      AgreesOffSign(lx, p);
    }
  }

  /** `AgreesWithLaterLexer` when the token starts with a sign. */
  lemma {:induction false} AgreesOnSign(lx: EarlyLexer, p: nat)
    requires Valid(lx) && !lx.isEnd && p == Lexer.SkipSpace(lx.input, lx.pos)
    requires p < |lx.input| && lx.input[p] in {'+', '-'} && Lexer.ScanAt(lx.input, p).Lexeme?
    ensures var sc := Lexer.ScanAt(lx.input, p);
            Next(lx).Ok? && Next(lx).value.token == sc.token &&
            (if sc.token.Const? then
               Next(lx).value.pos == (if sc.end == |lx.input| then sc.end else sc.end + 1)
             else Next(lx).value.pos == sc.end)
  {
  }

  /** `AgreesWithLaterLexer` when the token does not start with a sign. */
  lemma {:induction false} AgreesOffSign(lx: EarlyLexer, p: nat)
    requires Valid(lx) && !lx.isEnd && p == Lexer.SkipSpace(lx.input, lx.pos)
    requires p < |lx.input| && lx.input[p] !in {'+', '-'} && Lexer.ScanAt(lx.input, p).Lexeme?
    ensures var sc := Lexer.ScanAt(lx.input, p);
            Next(lx).Ok? && Next(lx).value.token == sc.token && Next(lx).value.pos == sc.end
  {
  }
}
