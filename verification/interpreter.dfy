/** `Interpreter::Run` of basic/scheme.cpp: read one form, flatten it, pass
    it through the five checkers, evaluate it and print the answer. */
module Interpreter {
  import opened Common
  import opened Tokens
  import opened Values
  import opened Reducers
  import opened ReducerLaws
  import opened Registry
  import opened Checkers
  import opened Evaluator
  import opened Printer
  import Reader

  /** The test `Run` makes with a fresh `list?` object: true for null, for
      the symbol `quote` and for a chain of cells that ends in null. */
  predicate ListCheck(n: Node) {
    IsSymbolNamed(n, "quote") || ListLike(n)
  }

  /** `ListCheck` is what a fresh `list?` object answers, so it holds for
      null and for `quote` and fails for a number. */
  lemma {:induction false} ListCheckIsListTest(n: Node)
    ensures Step(ListTest, n) == Ok(Stepped(ListTest, Some(Bool(ListCheck(n)))))
    ensures n.None? || IsSymbolNamed(n, "quote") ==> ListCheck(n)
    ensures n.Some? && n.value.Number? ==> !ListCheck(n)
  {
  }

  /** The operations before which `IntegerTypeChecker` is skipped. */
  predicate SkipsIntegerCheck(v: Value) {
    v.Symbol? && v.name in {"not", "boolean?", "number?", "and", "or"}
  }

  /** The checks `Run` makes before evaluating: a lone symbol must be a
      boolean literal or an operation; otherwise the token checker runs
      unless the form starts with one of five operations; then the three
      leaf checkers and the bracket check, in that order. */
  function Guard(v: seq<Value>, tokens: seq<Token>): (r: Result<()>)
    ensures r.Err? ==> r.error == RuntimeError
    ensures r.Ok? ==> BinaryOperationsChecker(v).Ok? && UnaryOperationChecker(v).Ok?
                      && RequiresOnlyOneArgumentChecker(v).Ok? && ListsAreNotSelfEvaluating(tokens).Ok?
    ensures r.Ok? && |v| == 1 && v[0].Symbol? ==> v[0].name in {"#t", "#f"} || IsOperator(v[0].name)
    ensures r.Ok? && !(|v| == 1 && v[0].Symbol?) && !(|v| > 0 && SkipsIntegerCheck(v[0])) ==>
              IntegerTypeChecker(tokens).Ok?
  {
    var _ :-
      if |v| == 1 && v[0].Symbol? then
        if v[0].name != "#t" && v[0].name != "#f" && !IsOperator(v[0].name) then Err(RuntimeError) else Ok(())
      else if |v| > 0 && SkipsIntegerCheck(v[0]) then Ok(())
      else IntegerTypeChecker(tokens);
    var _ :- BinaryOperationsChecker(v);
    var _ :- UnaryOperationChecker(v);
    var _ :- RequiresOnlyOneArgumentChecker(v);
    ListsAreNotSelfEvaluating(tokens)
  }

  /** `and` and `or` forms go to their own loops; everything else, the
      empty form included, to `Evaluate`. */
  function EvaluateForm(v: seq<Value>): (r: Result<Node>)
    ensures r.Err? ==> r.error in {RuntimeError, Undefined, Diverges}
    ensures r.Err? && r.error == Diverges ==> exists k :: 1 <= k < |v| && v[k].Cell?
  {
    if |v| > 0 && v[0] == Symbol("and") then AndEvaluate(v)
    else if |v| > 0 && v[0] == Symbol("or") then OrEvaluate(v)
    else Evaluate(v)
  }

  /** Printing the answer: an improper chain prints in list notation; so
      does a proper list (null included) when the form starts with an
      operation other than `quote`; anything else goes through `Serialize`
      with the flattened answer and the original form. */
  function Print(evaluated: Node, v: seq<Value>): (r: Result<string>)
    ensures r.Err? ==> r.error == Undefined
    ensures IsCell(evaluated) && evaluated.value.second.Some? && !ListCheck(evaluated) ==>
              r.Ok? && |r.value| > 0 && r.value[0] == '('
    ensures |v| > 0 && v[0].Symbol? && v[0].name != "quote" && ListCheck(evaluated) ==>
              r.Ok? && |r.value| > 0 && r.value[0] == '('
  {
    if IsCell(evaluated) && evaluated.value.second.Some? && !ListCheck(evaluated) then
      OpenedQuote(evaluated)
    else if |v| > 0 && v[0].Symbol? && v[0].name != "quote" && ListCheck(evaluated) then
      OpenedQuote(evaluated)
    else SerializeResult(Flatten(evaluated), v)
  }

  /** A tree written in list notation after an opening bracket: with the
      bracket already written the writing cannot fail. */
  function OpenedQuote(n: Node): (r: Result<string>)
    ensures r.Ok? && |r.value| > 0 && r.value[0] == '('
  {
    var r := SerializeQuote(n, "(");
    assert r.Ok? && |r.value| >= 1;
    var s := r.value;
    assert s[0] == '(' by {
      SerializeQuoteKeepsFirst(n, "(");
    }
    r
  }

  /** `Run` once the form has been read: `tokens` is everything the lexer
      produced. The reader is the only source of syntax errors, and an
      answer is only printed for a form every checker accepted. */
  function RunTree(ast: Node, tokens: seq<Token>): (r: Result<string>)
    ensures r.Err? ==> r.error in {RuntimeError, Undefined, Diverges}
    ensures r.Ok? ==> Guard(Flatten(ast), tokens).Ok?
    ensures r.Ok? ==> EvaluateForm(Flatten(ast)).Ok?
  {
    var v := Flatten(ast);
    var _ :- Guard(v, tokens);
    var evaluated :- EvaluateForm(v);
    Print(evaluated, v)
  }

  /** `Interpreter::Run`: reads one form from `input`, then evaluates and
      prints it. A syntax error can only come from reading. */
  function Run(input: string): (r: Result<string>)
    ensures r.Err? && r.error == SyntaxError ==> Reader.Parse(input).Err?
    ensures r.Ok? ==> Reader.Parse(input).Ok?
  {
    var p :- Reader.Parse(input);
    RunTree(p.node, p.rest.history)
  }

  // Forms as the reader builds them, and the tokens the lexer records for them.

  /** `(name a1 .. ak)`: the chain the reader builds for a call. */
  function Call(name: string, args: seq<Value>): (n: Node)
    ensures IsCell(n) && n.value.first == Some(Symbol(name))
  {
    Chain(Present([Symbol(name)] + args))
  }

  /** The literal tokens of a run of integers. */
  function Literals(ns: seq<int>): (ts: seq<Token>)
    ensures |ts| == |ns| && forall i :: 0 <= i < |ns| ==> ts[i] == Int(ns[i])
  {
    if |ns| == 0 then [] else [Int(ns[0])] + Literals(ns[1..])
  }

  /** The tokens of `(name n1 .. nk)`. */
  function CallTokens(name: string, ns: seq<int>): seq<Token> {
    [Open, Sym(name)] + Literals(ns) + [Close]
  }

  /** The tokens of `'(n1 .. nk)`. */
  function QuotedTokens(ns: seq<int>): seq<Token> {
    [QuoteMark, Open] + Literals(ns) + [Close]
  }

  /** What the two token checkers accept. */
  predicate Accepted(tokens: seq<Token>) {
    IntegerTypeChecker(tokens).Ok? && ListsAreNotSelfEvaluating(tokens).Ok?
  }

  /** The tokens of a call to an operation with integer arguments pass both
      token checkers, provided the name has no `?`. */
  lemma {:induction false} CallTokensAccepted(name: string, ns: seq<int>)
    requires IsOperator(name) && name != "quote" && !EndsWithQuestion(name)
    ensures Accepted(CallTokens(name, ns))
  {
    var ts := CallTokens(name, ns);
    forall k | 0 <= k < |ts| ensures (ts[k] == Open || ts[k] == Close || ts[k] == Sym(name) || ts[k].Const?) {
      if 2 <= k < |ts| - 1 {
        assert ts[k] == Literals(ns)[k - 2];
      }
    }
    assert Unqualified(ts);
    forall k | 0 <= k < |ts| ensures ArithmeticToken(ts, k) {
      if k == |ts| - 1 {
        assert ts[k - 1] != Open;
      }
    }
    IntegerTypeCheckerUnqualified(ts);
    assert IsOperatorToken(ts[1]);
  }

  /** The tokens of a quoted list of integers pass both token checkers. */
  lemma {:induction false} QuotedTokensAccepted(ns: seq<int>)
    ensures Accepted(QuotedTokens(ns))
  {
    var ts := QuotedTokens(ns);
    forall k | 0 <= k < |ts| ensures !ts[k].Sym? {
      if 2 <= k < |ts| - 1 {
        assert ts[k] == Literals(ns)[k - 2];
      }
    }
    IntegerScanAfterQuote(ts, 1, QuoteMark);
    assert IntegerTypeChecker(ts) == IntegerScan(ts, 1, false, true, QuoteMark);
    assert ts[0] == QuoteMark;
  }

  /** A call whose arguments are integers flattens back to its leaves. */
  lemma {:induction false} CallFlattens(name: string, ns: seq<int>)
    requires name != "quote"
    ensures Flatten(Call(name, Nums(ns))) == [Symbol(name)] + Nums(ns)
  {
    var v := [Symbol(name)] + Nums(ns);
    NumsAt(ns);
    forall k | 0 <= k < |v| ensures IsAtom(v[k]) && v[k] != Symbol("quote") {
      if k > 0 {
        assert v[k] == Nums(ns)[k - 1];
      }
    }
    FlattenChainOfAtoms(v);
  }

  /** A call with integer arguments passes the checks when the operation gets
      the number of arguments the leaf checkers ask for and the tokens pass
      the token checkers. */
  lemma {:induction false} GuardOfNumbers(name: string, ns: seq<int>, tokens: seq<Token>)
    requires IsOperator(name) && Accepted(tokens)
    requires IsBinary(Symbol(name)) ==> |ns| >= 2
    requires IsUnary(Symbol(name)) ==> |ns| >= 1
    requires TakesOne(Symbol(name)) ==> |ns| <= 1
    ensures Guard([Symbol(name)] + Nums(ns), tokens) == Ok(())
  {
    var v := [Symbol(name)] + Nums(ns);
    NumsAt(ns);
    assert forall k :: 1 <= k < |v| ==> v[k] == Number(ns[k - 1]) by {
      forall k | 1 <= k < |v| ensures v[k] == Number(ns[k - 1]) {
        assert v[k] == Nums(ns)[k - 1];
      }
    }
    assert BinaryOperationsChecker(v).Ok?;
    assert UnaryOperationChecker(v).Ok?;
    assert RequiresOnlyOneArgumentChecker(v).Ok? by {
      if TakesOne(v[0]) {
        assert !TooManyArguments(v, 0);
      }
    }
  }

  /** How the leaf checkers and the table treat the operations the lemmas
      below call. */
  lemma {:induction false} CallableFacts(name: string)
    requires name in {"+", "-", "*", "list", "cons", "=", "<", "<=", ">", ">="}
    ensures IsOperator(name) && name != "quote" && name != "and" && name != "or"
    ensures !IsUnary(Symbol(name)) && !TakesOne(Symbol(name))
    ensures IsBinary(Symbol(name)) <==> name == "-"
  {
    CallableRegistered(name);
  }

  /** The operations the lemmas below call are in the table. */
  lemma {:induction false} CallableRegistered(name: string)
    requires name in {"+", "-", "*", "list", "cons", "=", "<", "<=", ">", ">="}
    ensures IsOperator(name)
  {
  }

  /** A call of one of those operations on integers, `-` with at least two
      of them, flattens back to its leaves, passes the checks and goes to
      `Evaluate`. */
  lemma {:induction false} NumberCall(name: string, ns: seq<int>, tokens: seq<Token>)
    requires name in {"+", "-", "*", "list", "cons", "=", "<", "<=", ">", ">="}
    requires name == "-" ==> |ns| >= 2
    requires Accepted(tokens)
    ensures var v := [Symbol(name)] + Nums(ns);
            Flatten(Call(name, Nums(ns))) == v && Guard(v, tokens) == Ok(()) && EvaluateForm(v) == Evaluate(v)
  {
    CallableFacts(name);
    CallFlattens(name, ns);
    GuardOfNumbers(name, ns, tokens);
  }

  /** An atom that is not `quote`, answered by a form that starts with
      another symbol, prints as itself. */
  lemma {:induction false} PrintAtom(x: Value, v: seq<Value>)
    requires IsAtom(x) && x != Symbol("quote")
    requires |v| > 0 && v[0].Symbol? && v[0] != Symbol("quote")
    ensures Print(Some(x), v) == Ok(Text(x))
  {
    assert !ListCheck(Some(x));
    PrintLoneAtom(x, v);
  }

  // End to end: from the tree that was read to the printed answer.

  /** Once the checks pass and evaluation answers, `Run` prints that answer. */
  lemma {:induction false} RunTreeSteps(ast: Node, tokens: seq<Token>, v: seq<Value>, evaluated: Node)
    requires Flatten(ast) == v && Guard(v, tokens) == Ok(()) && EvaluateForm(v) == Ok(evaluated)
    ensures RunTree(ast, tokens) == Print(evaluated, v)
  {
  }

  /** A form headed by a symbol other than `quote` whose answer is an atom
      other than `quote` prints that atom. */
  lemma {:induction false} RunAnswer(ast: Node, tokens: seq<Token>, v: seq<Value>, x: Value)
    requires Flatten(ast) == v && Guard(v, tokens) == Ok(()) && EvaluateForm(v) == Ok(Some(x))
    requires IsAtom(x) && x != Symbol("quote")
    requires |v| > 0 && v[0].Symbol? && v[0] != Symbol("quote")
    ensures RunTree(ast, tokens) == Ok(Text(x))
  {
    RunTreeSteps(ast, tokens, v, Some(x));
    PrintAtom(x, v);
  }

  /** A call of one of the operations above on integers whose evaluation
      answers an atom other than `quote` prints that atom. */
  lemma {:induction false} NumberCallAnswer(name: string, ns: seq<int>, tokens: seq<Token>, x: Value)
    requires name in {"+", "-", "*", "list", "cons", "=", "<", "<=", ">", ">="}
    requires name == "-" ==> |ns| >= 2
    requires Accepted(tokens) && IsAtom(x) && x != Symbol("quote")
    requires Evaluate([Symbol(name)] + Nums(ns)) == Ok(Some(x))
    ensures RunTree(Call(name, Nums(ns)), tokens) == Ok(Text(x))
  {
    NumberCall(name, ns, tokens);
    RunAnswer(Call(name, Nums(ns)), tokens, [Symbol(name)] + Nums(ns), x);
  }

  /** The same for a numeric answer, which prints in decimal. */
  lemma {:induction false} NumberCallPrints(name: string, ns: seq<int>, tokens: seq<Token>, d: int)
    requires name in {"+", "-", "*"}
    requires name == "-" ==> |ns| >= 2
    requires Accepted(tokens)
    requires Evaluate([Symbol(name)] + Nums(ns)) == Ok(Some(Number(d)))
    ensures RunTree(Call(name, Nums(ns)), tokens) == Ok(IntToString(d))
  {
    NumberCallAnswer(name, ns, tokens, Number(d));
  }

  /** `(+ n1 .. nk)` prints the sum. */
  lemma {:induction false} RunSum(ns: seq<int>, tokens: seq<Token>)
    requires MagnitudeSum(ns) <= INT64_MAX && Accepted(tokens)
    ensures RunTree(Call("+", Nums(ns)), tokens) == Ok(IntToString(Sum(ns)))
  {
    EvaluateSum(ns);
    NumberCallPrints("+", ns, tokens, Sum(ns));
  }

  /** `(- n1 n2 .. nk)` with at least two numbers prints the first minus the
      others. */
  lemma {:induction false} RunDifference(ns: seq<int>, tokens: seq<Token>)
    requires |ns| >= 2 && MagnitudeSum(ns) <= INT64_MAX && Accepted(tokens)
    ensures RunTree(Call("-", Nums(ns)), tokens) == Ok(IntToString(ns[0] - Sum(ns[1..])))
  {
    EvaluateDifference(ns);
    NumberCallPrints("-", ns, tokens, ns[0] - Sum(ns[1..]));
  }

  /** `(* n1 .. nk)`, when it prints anything, prints the product. */
  lemma {:induction false} RunProduct(ns: seq<int>, tokens: seq<Token>)
    requires Accepted(tokens)
    ensures var r := RunTree(Call("*", Nums(ns)), tokens);
            r.Ok? ==> r.value == IntToString(Product(ns))
  {
    var v := [Symbol("*")] + Nums(ns);
    NumberCall("*", ns, tokens);
    EvaluateProduct(ns);
    if Evaluate(v).Ok? {
      RunAnswer(Call("*", Nums(ns)), tokens, v, Number(Product(ns)));
    }
  }

  /** `(< n1 .. nk)` and the other comparisons print `#t` exactly when every
      neighbouring pair stands in the relation, and `#f` otherwise. */
  lemma {:induction false} RunCompare(rel: Relation, ns: seq<int>, tokens: seq<Token>)
    requires Accepted(tokens)
    ensures RunTree(Call(RelationName(rel), Nums(ns)), tokens) == Ok(if Chained(rel, ns) then "#t" else "#f")
  {
    var name := RelationName(rel);
    EvaluateCompare(rel, ns);
    NumberCallAnswer(name, ns, tokens, Bool(Chained(rel, ns)));
  }

  /** A chain of numbers printed after an opening bracket: the numbers in
      brackets, and `()` for none. */
  lemma {:induction false} PrintList(ns: seq<int>, v: seq<Value>)
    requires |v| > 0 && v[0].Symbol? && v[0].name != "quote"
    ensures Print(Chain(Present(Nums(ns))), v) == Ok("(" + Spaced(Nums(ns)) + ")")
  {
    var xs := Nums(ns);
    var evaluated := Chain(Present(xs));
    assert ListCheck(evaluated);
    assert Print(evaluated, v) == OpenedQuote(evaluated);
    if |ns| > 0 {
      assert AllPrintable(xs);
      QuoteChainOfAtoms(xs, "(");
    } else {
      assert evaluated == None && Spaced(xs) == "";
      assert "(" + "" + ")" == "(" + ")";
    }
  }

  /** `(list n1 .. nk)` prints the numbers in brackets, and `(list)` prints `()`. */
  lemma {:induction false} RunList(ns: seq<int>, tokens: seq<Token>)
    requires Accepted(tokens)
    ensures RunTree(Call("list", Nums(ns)), tokens) == Ok("(" + Spaced(Nums(ns)) + ")")
  {
    var xs := Nums(ns);
    var v := [Symbol("list")] + xs;
    NumberCall("list", ns, tokens);
    EvaluateList(xs);
    RunTreeSteps(Call("list", xs), tokens, v, Chain(Present(xs)));
    PrintList(ns, v);
  }

  /** `(cons a b)` prints the dotted pair. */
  lemma {:induction false} RunCons(a: int, b: int, tokens: seq<Token>)
    requires Accepted(tokens)
    ensures RunTree(Call("cons", Nums([a, b])), tokens) ==
              Ok("(" + IntToString(a) + " . " + IntToString(b) + ")")
  {
    var ns := [a, b];
    assert Nums(ns) == [Number(a), Number(b)] by {
      assert ns[1..] == [b];
    }
    var v := [Symbol("cons"), Number(a), Number(b)];
    assert v == [Symbol("cons")] + Nums(ns);
    NumberCall("cons", ns, tokens);
    EvaluateCons(Number(a), Number(b));
    var evaluated := Some(Cell(Some(Number(a)), Some(Number(b))));
    RunTreeSteps(Call("cons", Nums(ns)), tokens, v, evaluated);
    PrintPair(a, b, v);
  }

  /** A pair of numbers prints in dotted notation. */
  lemma {:induction false} PrintPair(a: int, b: int, v: seq<Value>)
    ensures Print(Some(Cell(Some(Number(a)), Some(Number(b)))), v) ==
              Ok("(" + IntToString(a) + " . " + IntToString(b) + ")")
  {
    var evaluated := Some(Cell(Some(Number(a)), Some(Number(b))));
    assert !ListLike(Some(Number(b)));
    assert !ListCheck(evaluated);
    QuoteDottedNumbers(a, b, "(");
  }

  /** `(- n)` and `(/ n)` are rejected whatever the tokens were. */
  lemma {:induction false} RunMissingOperand(name: string, n: int, tokens: seq<Token>)
    requires name == "-" || name == "/"
    ensures RunTree(Call(name, [Number(n)]), tokens) == Err(RuntimeError)
  {
    var v := [Symbol(name), Number(n)];
    assert Nums([n]) == [Number(n)];
    CallFlattens(name, [n]);
    assert IsBinary(v[0]);
    assert BinaryOperationsChecker(v).Err?;
  }

  /** A lone symbol that is neither a boolean literal nor an operation is
      rejected. */
  lemma {:induction false} RunUnknownSymbol(name: string, tokens: seq<Token>)
    requires name != "#t" && name != "#f" && !IsOperator(name)
    ensures RunTree(Some(Symbol(name)), tokens) == Err(RuntimeError)
  {
  }

  /** A lone number prints in decimal. */
  lemma {:induction false} RunLoneNumber(n: int, tokens: seq<Token>)
    requires Accepted(tokens)
    ensures RunTree(Some(Number(n)), tokens) == Ok(IntToString(n))
  {
    var v := [Number(n)];
    assert Guard(v, tokens) == Ok(());
    assert EvaluateForm(v) == Ok(Some(Number(n)));
    assert !ListCheck(Some(Number(n)));
    PrintLoneAtom(Number(n), v);
  }

  /** `'(n1 .. nk)` prints the list. */
  lemma {:induction false} RunQuotedList(ns: seq<int>, tokens: seq<Token>)
    requires |ns| > 0 && Accepted(tokens)
    ensures RunTree(Some(Cell(Some(Symbol("quote")), Chain(Present(Nums(ns))))), tokens) ==
              Ok("(" + Spaced(Nums(ns)) + ")")
  {
    var xs := Nums(ns);
    var payload := Chain(Present(xs)).value;
    var v := [Symbol("quote"), payload];
    assert Flatten(Some(Cell(Some(Symbol("quote")), Some(payload)))) == v;
    assert Guard(v, tokens) == Ok(()) by {
      assert forall i :: 0 <= i < |v| ==> !IsBinary(v[i]) && !IsUnary(v[i]) && !TakesOne(v[i]);
    }
    QuoteEvaluates(payload);
    assert EvaluateForm(v) == Ok(Some(payload));
    RunTreeSteps(Some(Cell(Some(Symbol("quote")), Some(payload))), tokens, v, Some(payload));
    assert AllPrintable(xs);
    PrintQuotedList(xs, Flatten(Some(payload)));
  }

  /** `'n` keeps a stray blank and closes a bracket it never opened: it
      prints the number, a blank and `)`. */
  lemma {:induction false} RunQuotedNumber(n: int, tokens: seq<Token>)
    requires Accepted(tokens)
    ensures RunTree(Some(Cell(Some(Symbol("quote")), Some(Number(n)))), tokens) == Ok(IntToString(n) + " )")
  {
    var v := [Symbol("quote"), Number(n)];
    assert Guard(v, tokens) == Ok(()) by {
      assert forall i :: 0 <= i < |v| ==> !IsBinary(v[i]) && !IsUnary(v[i]) && !TakesOne(v[i]);
    }
    QuoteEvaluates(Number(n));
    RunTreeSteps(Some(Cell(Some(Symbol("quote")), Some(Number(n)))), tokens, v, Some(Number(n)));
    assert !ListCheck(Some(Number(n)));
    PrintQuotedNumber(n, [Number(n)]);
  }

  /** `(quote x)` evaluates to `x`. */
  lemma {:induction false} QuoteEvaluates(x: Value)
    ensures Evaluate([Symbol("quote"), x]) == Ok(Some(x))
  {
    var nodes := [Symbol("quote"), x];
    assert nodes[1..] == [x] && [x][1..] == [];
    assert Fresh("quote") == Some(Quote) && Seed("quote") == None;
    var first := Stepped(Quote, None);
    assert Step(Quote, None) == Ok(first);
    assert Step(Quote, Some(x)) == Ok(Stepped(Quote, Some(x)));
    assert Feed(first, [x]) == Feed(Stepped(Quote, Some(x)), []);
  }

  /** `(and x1 .. xk)` over plain atoms prints `#f` when `#f` is among them,
      otherwise the last of them, and `#t` when there are none. */
  lemma {:induction false} RunAnd(xs: seq<Value>, tokens: seq<Token>)
    requires PlainAtoms(xs) && ListsAreNotSelfEvaluating(tokens).Ok?
    ensures RunTree(Call("and", xs), tokens) ==
              Ok(if Symbol("#f") in xs then "#f" else if |xs| == 0 then "#t" else Text(xs[|xs| - 1]))
  {
    var v := [Symbol("and")] + xs;
    JunctionFormGuarded(v, tokens);
    AndOfAtoms(xs);
    var answer := if Symbol("#f") in xs then Bool(false) else if |xs| == 0 then Bool(true) else xs[|xs| - 1];
    assert EvaluateForm(v) == Ok(Some(answer));
    RunTreeSteps(Chain(Present(v)), tokens, v, Some(answer));
    PrintAtom(answer, v);
  }

  /** `(or x1 .. xk)` over plain atoms prints `#t` when `#t` is among them,
      otherwise the last of them, and `#f` when there are none. */
  lemma {:induction false} RunOr(xs: seq<Value>, tokens: seq<Token>)
    requires PlainAtoms(xs) && ListsAreNotSelfEvaluating(tokens).Ok?
    ensures RunTree(Call("or", xs), tokens) ==
              Ok(if Symbol("#t") in xs then "#t" else if |xs| == 0 then "#f" else Text(xs[|xs| - 1]))
  {
    var v := [Symbol("or")] + xs;
    JunctionFormGuarded(v, tokens);
    OrOfAtoms(xs);
    var answer := if Symbol("#t") in xs then Bool(true) else if |xs| == 0 then Bool(false) else xs[|xs| - 1];
    assert EvaluateForm(v) == Ok(Some(answer));
    RunTreeSteps(Chain(Present(v)), tokens, v, Some(answer));
    PrintAtom(answer, v);
  }

  /** An `and` or `or` form over plain atoms flattens back to its leaves and
      passes the checks without the token checker. */
  lemma {:induction false} JunctionFormGuarded(v: seq<Value>, tokens: seq<Token>)
    requires |v| > 0 && (v[0] == Symbol("and") || v[0] == Symbol("or"))
    requires PlainAtoms(v[1..]) && ListsAreNotSelfEvaluating(tokens).Ok?
    ensures Flatten(Chain(Present(v))) == v
    ensures Guard(v, tokens) == Ok(())
  {
    forall k | 0 <= k < |v| ensures IsAtom(v[k]) && v[k] != Symbol("quote") && !IsBinary(v[k]) && !IsUnary(v[k]) && !TakesOne(v[k]) {
      if k > 0 {
        assert v[k] == v[1..][k - 1];
        CheckedNamesAreOperators(v[k]);
      }
    }
    FlattenChainOfAtoms(v);
  }

  /** `quote` and every name the leaf checkers look for name operations. */
  lemma {:induction false} CheckedNamesAreOperators(x: Value)
    ensures x == Symbol("quote") || IsBinary(x) || IsUnary(x) || TakesOne(x) ==> IsOperatorSymbol(x)
  {
  }
}
