/** The recursive-descent reader of basic/parser.cpp. It works directly on
    the lexer state: `Read` takes the current token, advances, and builds a
    tree; `ReadList` reads a list body after an opening bracket. */
module Reader {
  import opened Common
  import opened Tokens
  import opened Values
  import L = Lexer

  /** What a reading step yields: the tree read (null for the empty list)
      and the lexer state after it. */
  datatype Parsed = Parsed(node: Node, rest: L.Lexer)

  /** `rest` is a later state of the same lexer: same text, history extended,
      never more work left, and strictly less unless the end was already
      reached. */
  predicate Follows(lx: L.Lexer, rest: L.Lexer)
    requires L.Valid(lx)
  {
    && L.Valid(rest)
    && rest.input == lx.input
    && lx.history <= rest.history
    && L.Measure(rest) <= L.Measure(lx)
    && (!lx.isEnd ==> L.Measure(rest) < L.Measure(lx))
  }

  /** Position of the first quote token. */
  function FirstQuote(ts: seq<Token>): (i: nat)
    requires QuoteMark in ts
    ensures i < |ts| && ts[i] == QuoteMark && QuoteMark !in ts[..i]
  {
    if ts[0] == QuoteMark then 0
    else
      assert QuoteMark in ts[1..] by {
        var k :| 0 <= k < |ts| && ts[k] == QuoteMark;
        assert ts[1..][k - 1] == QuoteMark;
      }
      var j := FirstQuote(ts[1..]);
      assert ts[..j + 1] == [ts[0]] + ts[1..][..j];
      j + 1
  }

  /** The second loop of the check after a finished list: from `j` up to
      `bound`, count brackets and fail once the count leaves zero again
      after having returned to zero. A bound past the end of the history
      reads past the end of the vector. */
  function ScanQuoted(ts: seq<Token>, j: nat, bound: int, cnt: int, flag: bool): (r: Result<()>)
    ensures r.Err? ==> r.error == RuntimeError || r.error == Undefined
    ensures r.Err? && r.error == Undefined ==> bound > |ts|
    decreases |ts| - j
  {
    if j >= bound then Ok(())
    else if j >= |ts| then Err(Undefined)
    else
      var cnt' := if ts[j] == Open then cnt + 1 else if ts[j] == Close then cnt - 1 else cnt;
      var flag' := flag || (ts[j] == Close && cnt' == 0);
      if cnt' != 0 && flag' then Err(RuntimeError)
      else ScanQuoted(ts, j + 1, bound, cnt', flag')
  }

  /** The check a finished top-level list runs when the history holds a
      quote: it looks for material after the first quoted form closes. */
  function QuoteCheck(ts: seq<Token>): (r: Result<()>)
    ensures QuoteMark !in ts ==> r == Ok(())
    ensures r.Err? ==> r.error == RuntimeError || r.error == Undefined
  {
    if QuoteMark !in ts then Ok(())
    else
      var i := FirstQuote(ts);
      ScanQuoted(ts, i, |ts| - Depth(ts[..i]), 0, false)
  }

  /** `Read`. */
  function Read(lx: L.Lexer): (r: Result<Parsed>)
    requires L.Valid(lx)
    ensures r.Ok? ==> Follows(lx, r.value.rest)
    ensures r.Err? ==> r.error != Diverges
    decreases L.Measure(lx), if lx.isEnd && lx.token == Close then 0 else 4
  {
    if Count(lx.history, Close) > Count(lx.history, Open) then Err(SyntaxError)
    else
      var cur := lx.token;
      var next :- L.Next(lx);
      match cur
      case Open => ReadOpened(lx, next)
      case Const(v, isInit) =>
        if !isInit then Err(SyntaxError) else Ok(Parsed(Some(Number(v)), next))
      case DotMark =>
        if next.token == Close then Err(SyntaxError)
        else if next.isEnd && next.token == DotMark then Err(SyntaxError)
        else Read(next)
      case QuoteMark =>
        // The source's null return for a quote with nothing after it cannot
        // be reached: at end of input the current token is still the quote.
        if next.isEnd then Err(SyntaxError)
        else
          var quoted :- Read(next);
          Ok(Parsed(Some(Cell(Some(Symbol("quote")), quoted.node)), quoted.rest))
      case Sym(name) => Ok(Parsed(Some(Symbol(name)), next))
      case Close =>
        if next.token.Const? then Ok(Parsed(Some(Number(next.token.value)), next))
        else Ok(Parsed(None, next))
  }

  /** The `Read` branch for an opening bracket, with `next` the lexer after
      it: the list body, then the token after it. Once that reaches the end
      of input the brackets must balance and the quoted form must be the
      whole input. */
  function ReadOpened(lx: L.Lexer, next: L.Lexer): (r: Result<Parsed>)
    requires L.Valid(lx) && L.Next(lx) == Ok(next)
    ensures r.Ok? ==> Follows(lx, r.value.rest)
    ensures r.Err? ==> r.error != Diverges
    decreases L.Measure(lx), 3
  {
    var body :- ReadList(next);
    var after :- L.Next(body.rest);
    if !after.isEnd then Ok(Parsed(body.node, after))
    else if Count(after.history, Close) != Count(after.history, Open) then Err(SyntaxError)
    else
      var _ :- QuoteCheck(after.history);
      Ok(Parsed(body.node, after))
  }

  /** `ReadList`: the body of a list after its opening bracket. */
  function ReadList(lx: L.Lexer): (r: Result<Parsed>)
    requires L.Valid(lx)
    ensures r.Ok? ==> Follows(lx, r.value.rest)
    ensures r.Err? ==> r.error != Diverges
    decreases L.Measure(lx), if lx.isEnd then 2 else 6
  {
    if lx.isEnd && lx.token != Close then Err(SyntaxError)
    else if lx.token == Close then Read(lx)
    else if lx.token == DotMark then
      if |lx.history| < 3 then Err(SyntaxError)
      else
        var next :- L.Next(lx);
        if next.token.Const? && !(next.pos < |next.input| && next.input[next.pos] == ')') then Err(SyntaxError)
        else if next.token == Close then Err(SyntaxError)
        else Read(next)
    else
      var head :- Read(lx);
      var tail :- ReadList(head.rest);
      Ok(Parsed(Some(Cell(head.node, tail.node)), tail.rest))
  }

  /** Builds the tokenizer over `input` and reads one form, as `Run` does. */
  function Parse(input: string): (r: Result<Parsed>)
    ensures r.Ok? ==> L.Valid(r.value.rest) && r.value.rest.input == input
  {
    var lx :- L.Init(input);
    Read(lx)
  }

  /** Input with nothing but blanks holds no form: the current token is
      still the uninitialised literal, which `Read` refuses. */
  lemma {:induction false} ParseBlank(input: string)
    requires AllSpace(input)
    ensures Parse(input) == Err(SyntaxError)
  {
    var lx := L.Lexer(input, |input|, true, Uninit, []);
    assert L.Init(input) == Ok(lx);
    assert L.Next(lx) == Ok(lx);
  }

  /** A list that runs to the end of input is only accepted with balanced
      brackets. */
  lemma {:induction false} ListAtEndBalanced(lx: L.Lexer)
    requires L.Valid(lx) && lx.token == Open
    requires Read(lx).Ok? && Read(lx).value.rest.isEnd
    ensures var h := Read(lx).value.rest.history; Count(h, Close) == Count(h, Open)
  {
    var next := L.Next(lx).value;
    assert Read(lx) == ReadOpened(lx, next);
  }

  /** A list that runs to the end of input is only accepted when nothing
      follows the first quoted form in it. */
  lemma {:induction false} ListAtEndQuoteChecked(lx: L.Lexer)
    requires L.Valid(lx) && lx.token == Open
    requires Read(lx).Ok? && Read(lx).value.rest.isEnd
    ensures QuoteCheck(Read(lx).value.rest.history).Ok?
  {
    var next := L.Next(lx).value;
    assert Read(lx) == ReadOpened(lx, next);
  }

  /** More closing than opening brackets so far: no form is read at all. */
  lemma {:induction false} ExcessCloseRejected(lx: L.Lexer)
    requires L.Valid(lx) && Count(lx.history, Close) > Count(lx.history, Open)
    ensures Read(lx) == Err(SyntaxError)
  {
  }

  /** A literal token is read as the number it holds; the uninitialised
      literal is refused. */
  lemma {:induction false} ReadLiteral(lx: L.Lexer, next: L.Lexer)
    requires L.Valid(lx) && lx.token.Const? && Count(lx.history, Close) <= Count(lx.history, Open)
    requires L.Next(lx) == Ok(next)
    ensures Read(lx) == if lx.token.isInit then Ok(Parsed(Some(Number(lx.token.value)), next)) else Err(SyntaxError)
  {
  }

  /** A closing bracket reads as null, except that a literal right after it
      is answered as a number while staying the current token: this is how
      `(a b) 5` hands 5 to the list that was closed. */
  lemma {:induction false} ReadClose(lx: L.Lexer, next: L.Lexer)
    requires L.Valid(lx) && lx.token == Close && Count(lx.history, Close) <= Count(lx.history, Open)
    requires L.Next(lx) == Ok(next)
    ensures Read(lx) == Ok(Parsed(if next.token.Const? then Some(Number(next.token.value)) else None, next))
  {
  }

  /** A quote wraps the one form after it as `(quote form)`; a quote with
      nothing after it is a syntax error. */
  lemma {:induction false} ReadQuote(lx: L.Lexer, next: L.Lexer)
    requires L.Valid(lx) && lx.token == QuoteMark && Count(lx.history, Close) <= Count(lx.history, Open)
    requires L.Next(lx) == Ok(next)
    ensures next.isEnd ==> Read(lx) == Err(SyntaxError)
    ensures !next.isEnd && Read(next).Ok? ==>
              Read(lx) == Ok(Parsed(Some(Cell(Some(Symbol("quote")), Read(next).value.node)), Read(next).value.rest))
    ensures !next.isEnd && Read(next).Err? ==> Read(lx) == Err(Read(next).error)
  {
  }

  /** A dot in a list body is refused when fewer than two tokens come
      before it, when a closing bracket follows it, or when a literal
      follows it that is not immediately followed by `)`. Otherwise the one
      form after the dot is the rest of the list. */
  lemma {:induction false} ListDot(lx: L.Lexer, next: L.Lexer)
    requires L.Valid(lx) && !lx.isEnd && lx.token == DotMark
    requires L.Next(lx) == Ok(next)
    ensures |lx.history| < 3 ==> ReadList(lx) == Err(SyntaxError)
    ensures |lx.history| >= 3 && next.token == Close ==> ReadList(lx) == Err(SyntaxError)
    ensures |lx.history| >= 3 && next.token.Const? && !(next.pos < |next.input| && next.input[next.pos] == ')') ==>
              ReadList(lx) == Err(SyntaxError)
    ensures |lx.history| >= 3 && next.token != Close &&
            !(next.token.Const? && !(next.pos < |next.input| && next.input[next.pos] == ')')) ==>
              ReadList(lx) == Read(next)
  {
  }

  /** A list body that starts with neither `)` nor `.` is the form read
      first consed onto the rest of the body; an error in either part is the
      error of the body. */
  lemma {:induction false} ListBody(lx: L.Lexer)
    requires L.Valid(lx) && !lx.isEnd && lx.token != Close && lx.token != DotMark
    ensures Read(lx).Err? ==> ReadList(lx) == Err(Read(lx).error)
    ensures Read(lx).Ok? && ReadList(Read(lx).value.rest).Err? ==>
              ReadList(lx) == Err(ReadList(Read(lx).value.rest).error)
    ensures Read(lx).Ok? && ReadList(Read(lx).value.rest).Ok? ==>
              var head := Read(lx).value;
              var tail := ReadList(head.rest).value;
              ReadList(lx) == Ok(Parsed(Some(Cell(head.node, tail.node)), tail.rest))
  {
  }

  /** A list body that meets the end of input before its `)` is a syntax
      error. */
  lemma {:induction false} ListAtEnd(lx: L.Lexer)
    requires L.Valid(lx) && lx.isEnd && lx.token != Close
    ensures ReadList(lx) == Err(SyntaxError)
  {
  }

  /** Tokens that read as one leaf: an initialised literal or a symbol. */
  predicate IsLeafToken(t: Token) {
    (t.Const? && t.isInit) || t.Sym?
  }

  /** The object a leaf token reads as. */
  function Leaf(t: Token): Value
    requires IsLeafToken(t)
  {
    if t.Const? then Number(t.value) else Symbol(t.name)
  }

  /** Successive states of one lexer over the inside of a flat list: each
      state is what `Next` makes of the one before, every state but the last
      holds a leaf token before the end of input, and the last holds `)`. */
  predicate LeavesThenClose(steps: seq<L.Lexer>) {
    && |steps| > 0
    && (forall i :: 0 <= i < |steps| ==> L.Valid(steps[i]))
    && (forall i :: 0 <= i < |steps| - 1 ==>
          !steps[i].isEnd && IsLeafToken(steps[i].token) && L.Next(steps[i]) == Ok(steps[i + 1]))
    && steps[|steps| - 1].token == Close
  }

  lemma {:induction false} LeavesThenCloseRest(steps: seq<L.Lexer>)
    requires LeavesThenClose(steps) && |steps| > 1
    ensures LeavesThenClose(steps[1..])
  {
    var rest := steps[1..];
    forall i | 0 <= i < |rest| ensures L.Valid(rest[i]) {
      assert rest[i] == steps[i + 1];
    }
    forall i | 0 <= i < |rest| - 1
      ensures !rest[i].isEnd && IsLeafToken(rest[i].token) && L.Next(rest[i]) == Ok(rest[i + 1])
    {
      assert rest[i] == steps[i + 1] && rest[i + 1] == steps[i + 2];
    }
  }

  /** The leaves such a run of states holds, in order. */
  function LeavesOf(steps: seq<L.Lexer>): (xs: seq<Node>)
    requires LeavesThenClose(steps)
    ensures |xs| == |steps| - 1
    decreases |steps|
  {
    if |steps| == 1 then []
    else
      LeavesThenCloseRest(steps);
      [Some(Leaf(steps[0].token))] + LeavesOf(steps[1..])
  }

  /** What a `)` reads as, given the lexer state after it: a literal right
      after the bracket is answered as a number, anything else as null. */
  function Closing(after: L.Lexer): (n: Node)
    ensures n.Some? <==> after.token.Const?
  {
    if after.token.Const? then Some(Number(after.token.value)) else None
  }

  /** Along a run of leaves up to `)` the history gains exactly the one
      closing bracket and no opening bracket. */
  lemma {:induction false} CloseCountedOnce(steps: seq<L.Lexer>)
    requires LeavesThenClose(steps) && |steps| > 1
    ensures Count(steps[0].history, Close) + 1 == Count(steps[|steps| - 1].history, Close)
    ensures Count(steps[0].history, Open) == Count(steps[|steps| - 1].history, Open)
    decreases |steps|
  {
    var t := steps[1].token;
    assert L.Next(steps[0]) == Ok(steps[1]);
    assert steps[1].history == steps[0].history + [t];
    CountAppend(steps[0].history, [t], Close);
    CountAppend(steps[0].history, [t], Open);
    assert [t][..0] == [];
    if |steps| > 2 {
      assert IsLeafToken(steps[1].token);
      LeavesThenCloseRest(steps);
      CloseCountedOnce(steps[1..]);
    }
  }

  /** A literal or a symbol reads as the leaf it holds. */
  lemma {:induction false} ReadLeaf(lx: L.Lexer, next: L.Lexer)
    requires L.Valid(lx) && IsLeafToken(lx.token) && L.Next(lx) == Ok(next)
    requires Count(lx.history, Close) <= Count(lx.history, Open)
    ensures Read(lx) == Ok(Parsed(Some(Leaf(lx.token)), next))
  {
  }

  /** The partner of `ReadList` on flat lists: a run of literals and symbols
      up to `)` reads as the list of those leaves in order, and reading stops
      with the lexer just past the `)`. With no literal after the `)` the
      list is nil-terminated, the chain `list` builds. The guard against
      excess closing brackets is met when the `)` closes no more than was
      opened. */
  lemma {:induction false} ReadsLeaves(steps: seq<L.Lexer>, after: L.Lexer)
    requires LeavesThenClose(steps)
    requires L.Next(steps[|steps| - 1]) == Ok(after)
    requires Count(steps[|steps| - 1].history, Close) <= Count(steps[|steps| - 1].history, Open)
    ensures ReadList(steps[0]) == Ok(Parsed(ListOnto(LeavesOf(steps), Closing(after)), after))
    ensures !after.token.Const? ==> ReadList(steps[0]) == Ok(Parsed(Chain(LeavesOf(steps)), after))
    decreases |steps|
  {
    if |steps| == 1 {
      assert Read(steps[0]) == Ok(Parsed(Closing(after), after));
    } else {
      LeavesThenCloseRest(steps);
      var rest := steps[1..];
      assert rest[|rest| - 1] == steps[|steps| - 1];
      ReadsLeaves(rest, after);
      CloseCountedOnce(steps);
      assert L.Next(steps[0]) == Ok(steps[1]);
      ReadLeaf(steps[0], steps[1]);
      ListBody(steps[0]);
      assert LeavesOf(steps) == [Some(Leaf(steps[0].token))] + LeavesOf(rest);
    }
  }
}
