/** The earlier reader of parser/parser.cpp, on the same lexer as the later
    one. It has no check for excess closing brackets before a form and no
    check after a quoted form, reads the body of a quote as a list body
    rather than as one form, and allows a dot right after the opening
    bracket. The bracket counter it keeps is never read and is left out. */
module EarlyReader {
  import opened Common
  import opened Tokens
  import opened Values
  import L = Lexer
  import Reader

  /** `Read` of the earlier reader. */
  function Read(lx: L.Lexer): (r: Result<Reader.Parsed>)
    requires L.Valid(lx)
    ensures r.Ok? ==> Reader.Follows(lx, r.value.rest)
    ensures r.Err? ==> r.error == SyntaxError || r.error == OutOfRange
    decreases L.Measure(lx), if lx.isEnd && lx.token == Close then 0 else 4
  {
    var cur := lx.token;
    var next :- L.Next(lx);
    match cur
    case Open => ReadOpened(lx, next)
    case Const(v, isInit) =>
      if !isInit then Err(SyntaxError) else Ok(Reader.Parsed(Some(Number(v)), next))
    case DotMark =>
      if next.token == Close then Err(SyntaxError)
      else if next.isEnd && next.token == DotMark then Err(SyntaxError)
      else Read(next)
    case QuoteMark =>
      var body :- ReadList(next);
      Ok(Reader.Parsed(Some(Cell(Some(Symbol("quote")), body.node)), body.rest))
    case Sym(name) => Ok(Reader.Parsed(Some(Symbol(name)), next))
    case Close =>
      if next.token.Const? then Ok(Reader.Parsed(Some(Number(next.token.value)), next))
      else Ok(Reader.Parsed(None, next))
  }

  /** The branch for an opening bracket: the list body, then the token after
      it; once that reaches the end of input the brackets must balance. */
  function ReadOpened(lx: L.Lexer, next: L.Lexer): (r: Result<Reader.Parsed>)
    requires L.Valid(lx) && L.Next(lx) == Ok(next)
    ensures r.Ok? ==> Reader.Follows(lx, r.value.rest)
    ensures r.Err? ==> r.error == SyntaxError || r.error == OutOfRange
    decreases L.Measure(lx), 3
  {
    var body :- ReadList(next);
    var after :- L.Next(body.rest);
    if after.isEnd && Count(after.history, Close) != Count(after.history, Open) then Err(SyntaxError)
    else Ok(Reader.Parsed(body.node, after))
  }

  /** `ReadList` of the earlier reader. */
  function ReadList(lx: L.Lexer): (r: Result<Reader.Parsed>)
    requires L.Valid(lx)
    ensures r.Ok? ==> Reader.Follows(lx, r.value.rest)
    ensures r.Err? ==> r.error == SyntaxError || r.error == OutOfRange
    decreases L.Measure(lx), if lx.isEnd then 2 else 6
  {
    if lx.isEnd && lx.token != Close then Err(SyntaxError)
    else if lx.token == Close then Read(lx)
    else if lx.token == DotMark then
      var next :- L.Next(lx);
      if next.token.Const? && !(next.pos < |next.input| && next.input[next.pos] == ')') then Err(SyntaxError)
      else if next.token == Close then Err(SyntaxError)
      else Read(next)
    else
      var head :- Read(lx);
      var tail :- ReadList(head.rest);
      Ok(Reader.Parsed(Some(Cell(head.node, tail.node)), tail.rest))
  }

  /** A dot outside a list: refused before `)` and as the last of two dots
      at the end of input; otherwise the dot is skipped and the form after
      it is read. */
  lemma {:induction false} ReadDot(lx: L.Lexer, next: L.Lexer)
    requires L.Valid(lx) && lx.token == DotMark && L.Next(lx) == Ok(next)
    ensures next.token == Close ==> Read(lx) == Err(SyntaxError)
    ensures next.isEnd && next.token == DotMark ==> Read(lx) == Err(SyntaxError)
    ensures next.token != Close && !(next.isEnd && next.token == DotMark) ==> Read(lx) == Read(next)
  {
  }

  /** A `)` outside a list, whatever the bracket counts: a literal right
      after it is answered as its number and stays the current token;
      anything else gives null. */
  lemma {:induction false} ReadClose(lx: L.Lexer, next: L.Lexer)
    requires L.Valid(lx) && lx.token == Close && L.Next(lx) == Ok(next)
    ensures Read(lx) == Ok(Reader.Parsed(Reader.Closing(next), next))
  {
  }

  /** On a number, a symbol or a closing bracket the two readers agree
      whenever the later one's guard against excess closing brackets lets
      the token through. */
  lemma {:induction false} AgreesOnLeaves(lx: L.Lexer)
    requires L.Valid(lx)
    requires lx.token.Const? || lx.token.Sym? || lx.token == Close
    requires Count(lx.history, Close) <= Count(lx.history, Open)
    ensures Read(lx) == Reader.Read(lx)
  {
  }

  /** With excess closing brackets the later reader refuses every form,
      while the earlier one still reads a number. */
  lemma {:induction false} ExcessCloseOnlyLaterRejects(lx: L.Lexer)
    requires L.Valid(lx) && lx.token.Const? && lx.token.isInit && L.Next(lx).Ok?
    requires Count(lx.history, Close) > Count(lx.history, Open)
    ensures Reader.Read(lx) == Err(SyntaxError)
    ensures Read(lx) == Ok(Reader.Parsed(Some(Number(lx.token.value)), L.Next(lx).value))
  {
  }

  /** A quote followed by a number and then the end of input: the later
      reader reads `(quote n)`, the earlier one reads a list body after the
      quote, runs into the end of input and reports a syntax error. */
  lemma {:induction false} QuotedNumberDiffers(lx: L.Lexer, a: L.Lexer, b: L.Lexer)
    requires L.Valid(lx) && lx.token == QuoteMark
    requires Count(lx.history, Close) <= Count(lx.history, Open)
    requires L.Next(lx) == Ok(a) && !a.isEnd && a.token.Const? && a.token.isInit
    requires L.Next(a) == Ok(b) && b.isEnd
    ensures Read(lx) == Err(SyntaxError)
    ensures Reader.Read(lx) == Ok(Reader.Parsed(Some(Cell(Some(Symbol("quote")), Some(Number(a.token.value)))), b))
  {
    assert b.token == a.token && b.history == a.history;
    assert Read(a) == Ok(Reader.Parsed(Some(Number(a.token.value)), b));
    assert ReadList(b) == Err(SyntaxError);
    assert ReadList(a) == Err(SyntaxError);
    assert Count(a.history, Close) <= Count(a.history, Open) by {
      assert a.history == lx.history + [a.token];
      CountAppend(lx.history, [a.token], Close);
      CountAppend(lx.history, [a.token], Open);
    }
    assert Reader.Read(a) == Ok(Reader.Parsed(Some(Number(a.token.value)), b));
  }

  /** A list that runs to the end of input is only accepted with balanced
      brackets, as in the later reader. */
  lemma {:induction false} ListAtEndBalanced(lx: L.Lexer)
    requires L.Valid(lx) && lx.token == Open
    requires Read(lx).Ok? && Read(lx).value.rest.isEnd
    ensures var h := Read(lx).value.rest.history; Count(h, Close) == Count(h, Open)
  {
    var next := L.Next(lx).value;
    assert Read(lx) == ReadOpened(lx, next);
  }

  /** A dot in a list body is refused when a closing bracket follows it, or
      a literal that is not immediately followed by `)`; otherwise the one
      form after it is the rest of the list. Unlike the later reader, a dot
      right after the opening bracket is allowed. */
  lemma {:induction false} ListDot(lx: L.Lexer, next: L.Lexer)
    requires L.Valid(lx) && !lx.isEnd && lx.token == DotMark
    requires L.Next(lx) == Ok(next)
    ensures next.token == Close ==> ReadList(lx) == Err(SyntaxError)
    ensures next.token.Const? && !(next.pos < |next.input| && next.input[next.pos] == ')') ==>
              ReadList(lx) == Err(SyntaxError)
    ensures next.token != Close && !(next.token.Const? && !(next.pos < |next.input| && next.input[next.pos] == ')')) ==>
              ReadList(lx) == Read(next)
  {
  }

  /** A quote wraps the list body read after it, `(quote . body)`: the
      earlier reader reads what follows a quote as it reads the inside of
      brackets, and an error there is the error of the quote. */
  lemma {:induction false} ReadQuote(lx: L.Lexer, next: L.Lexer)
    requires L.Valid(lx) && lx.token == QuoteMark && L.Next(lx) == Ok(next)
    ensures ReadList(next).Ok? ==>
              Read(lx) == Ok(Reader.Parsed(Some(Cell(Some(Symbol("quote")), ReadList(next).value.node)),
                                           ReadList(next).value.rest))
    ensures ReadList(next).Err? ==> Read(lx) == Err(ReadList(next).error)
  {
  }

  /** A list body that starts with neither `)` nor `.` is the form read
      first consed onto the rest of the body; an error in either part is the
      error of the body. */
  lemma {:induction false} ListBody(lx: L.Lexer)
    requires L.Valid(lx) && !lx.isEnd && lx.token != Close && lx.token != DotMark
    ensures Read(lx).Err? ==> ReadList(lx) == Err(Read(lx).error)
    ensures Read(lx).Ok? && ReadList(Read(lx).value.rest).Err? ==>
              ReadList(lx) == Err(ReadList(Read(lx).value.rest).error)
    ensures Read(lx).Ok? && ReadList(Read(lx).value.rest).Ok? ==>
              var head := Read(lx).value;
              var tail := ReadList(head.rest).value;
              ReadList(lx) == Ok(Reader.Parsed(Some(Cell(head.node, tail.node)), tail.rest))
  {
  }

  /** A list body that meets the end of input before its `)` is a syntax
      error. */
  lemma {:induction false} ListAtEnd(lx: L.Lexer)
    requires L.Valid(lx) && lx.isEnd && lx.token != Close
    ensures ReadList(lx) == Err(SyntaxError)
  {
  }

  /** A literal or a symbol reads as the leaf it holds. */
  lemma {:induction false} ReadLeaf(lx: L.Lexer, next: L.Lexer)
    requires L.Valid(lx) && Reader.IsLeafToken(lx.token) && L.Next(lx) == Ok(next)
    ensures Read(lx) == Ok(Reader.Parsed(Some(Reader.Leaf(lx.token)), next))
  {
  }

  /** The partner of `ReadList` on flat lists: a run of literals and symbols
      up to `)` reads as the list of those leaves in order, and reading stops
      with the lexer just past the `)`. No bracket count is needed here. */
  lemma {:induction false} ReadsLeaves(steps: seq<L.Lexer>, after: L.Lexer)
    requires Reader.LeavesThenClose(steps)
    requires L.Next(steps[|steps| - 1]) == Ok(after)
    ensures ReadList(steps[0]) == Ok(Reader.Parsed(ListOnto(Reader.LeavesOf(steps), Reader.Closing(after)), after))
    ensures !after.token.Const? ==> ReadList(steps[0]) == Ok(Reader.Parsed(Chain(Reader.LeavesOf(steps)), after))
    decreases |steps|
  {
    if |steps| == 1 {
      assert Read(steps[0]) == Ok(Reader.Parsed(Reader.Closing(after), after));
    } else {
      Reader.LeavesThenCloseRest(steps);
      var rest := steps[1..];
      assert rest[|rest| - 1] == steps[|steps| - 1];
      ReadsLeaves(rest, after);
      assert L.Next(steps[0]) == Ok(steps[1]);
      ReadLeaf(steps[0], steps[1]);
      ListBody(steps[0]);
      assert Reader.LeavesOf(steps) == [Some(Reader.Leaf(steps[0].token))] + Reader.LeavesOf(rest);
    }
  }
}
