/** The five checks `Interpreter::Run` makes before it evaluates (basic/scheme.cpp):
    two over the tokens the lexer produced and three over the flattened leaves. */
module Checkers {
  import opened Common
  import opened Tokens
  import opened Values
  import opened Registry

  /** Does a symbol name end in a question mark? */
  predicate EndsWithQuestion(name: string) {
    |name| > 0 && name[|name| - 1] == '?'
  }

  /** Is `t` an operation name? */
  predicate IsOperatorToken(t: Token) {
    t.Sym? && IsOperator(t.name)
  }

  /** The loop of `IntegerTypeChecker` from token `i`. `haveQuestion` says a
      symbol ending in `?` has been seen, `quoted` that a quote has been
      seen, and `prev` is the token before `i`. */
  function IntegerScan(ts: seq<Token>, i: nat, haveQuestion: bool, quoted: bool, prev: Token): (r: Result<()>)
    ensures r.Err? ==> r.error == RuntimeError
    ensures haveQuestion && quoted ==> r.Ok?
    decreases |ts| - i
  {
    if i >= |ts| then Ok(())
    else
      var t := ts[i];
      var haveQuestion' := haveQuestion || (t.Sym? && EndsWithQuestion(t.name));
      var quoted' := quoted || (t.Sym? && t.name == "quote") || t == QuoteMark;
      if t.Sym? && !IsOperator(t.name) && !haveQuestion' then Err(RuntimeError)
      else if t.Const? then IntegerScan(ts, i + 1, haveQuestion', quoted', t)
      else if !quoted' && t == Close && prev == Open then Err(RuntimeError)
      else if !IsOperatorToken(t) && !quoted' && !haveQuestion' && t != Open && t != Close then
        Err(RuntimeError)
      else IntegerScan(ts, i + 1, haveQuestion', quoted', t)
  }

  /** `IntegerTypeChecker`: rejects a symbol that names no operation, an
      empty pair of brackets and a dot, each until a symbol ending in `?` or
      a quote has been seen. The token before the first is the literal 0. */
  function IntegerTypeChecker(ts: seq<Token>): (r: Result<()>)
    ensures r.Err? ==> r.error == RuntimeError
    ensures |ts| == 0 ==> r.Ok?
  {
    IntegerScan(ts, 0, false, false, Int(0))
  }

  /** Tokens with no quote and no symbol ending in `?`: the checker's two
      escape hatches stay shut. */
  predicate Unqualified(ts: seq<Token>) {
    forall k :: 0 <= k < |ts| ==>
      ts[k] != QuoteMark && !(ts[k].Sym? && (ts[k].name == "quote" || EndsWithQuestion(ts[k].name)))
  }

  /** What `IntegerTypeChecker` accepts at position `k` of unqualified tokens:
      an operation name or no symbol at all, no dot, and no closing bracket
      right after an opening one. */
  predicate ArithmeticToken(ts: seq<Token>, k: int)
    requires 0 <= k < |ts|
  {
    && (ts[k].Sym? ==> IsOperator(ts[k].name))
    && ts[k] != DotMark
    && !(k > 0 && ts[k] == Close && ts[k - 1] == Open)
  }

  lemma {:induction false} IntegerScanUnqualified(ts: seq<Token>, i: nat, prev: Token)
    requires i <= |ts| && Unqualified(ts)
    requires i == 0 ==> prev != Open
    requires i > 0 ==> prev == ts[i - 1]
    ensures IntegerScan(ts, i, false, false, prev).Ok? <==>
              forall k :: i <= k < |ts| ==> ArithmeticToken(ts, k)
    decreases |ts| - i
  {
    if i < |ts| {
      var t := ts[i];
      assert t != QuoteMark && !(t.Sym? && (t.name == "quote" || EndsWithQuestion(t.name)));
      IntegerScanUnqualified(ts, i + 1, t);
      var r := IntegerScan(ts, i, false, false, prev);
      if r.Ok? {
        assert ArithmeticToken(ts, i);
      } else {
        assert !ArithmeticToken(ts, i) || !IntegerScan(ts, i + 1, false, false, t).Ok?;
      }
    }
  }

  /** Without quotes and `?` names, `IntegerTypeChecker` accepts exactly the
      token sequences in which every symbol names an operation, no dot
      occurs and no `(` is followed at once by `)`. */
  lemma {:induction false} IntegerTypeCheckerUnqualified(ts: seq<Token>)
    requires Unqualified(ts)
    ensures IntegerTypeChecker(ts).Ok? <==> forall k :: 0 <= k < |ts| ==> ArithmeticToken(ts, k)
  {
    IntegerScanUnqualified(ts, 0, Int(0));
  }

  /** Once a quote has been seen, and with no `?` names about, the token
      checker rejects exactly the symbols that name no operation. */
  lemma {:induction false} IntegerScanAfterQuote(ts: seq<Token>, i: nat, prev: Token)
    requires i <= |ts|
    requires forall k :: i <= k < |ts| && ts[k].Sym? ==> !EndsWithQuestion(ts[k].name)
    ensures IntegerScan(ts, i, false, true, prev).Ok? <==>
              forall k :: i <= k < |ts| && ts[k].Sym? ==> IsOperator(ts[k].name)
    decreases |ts| - i
  {
    if i < |ts| {
      IntegerScanAfterQuote(ts, i + 1, ts[i]);
    }
  }

  /** The outer loop the three leaf checks share: a RuntimeError at the
      first position `bad` flags. */
  function Scan(nodes: seq<Value>, i: nat, bad: (seq<Value>, nat) -> bool): (r: Result<()>)
    ensures r.Ok? <==> forall k :: i <= k < |nodes| ==> !bad(nodes, k)
    ensures r.Err? ==> r.error == RuntimeError
    decreases |nodes| - i
  {
    if i >= |nodes| then Ok(())
    else if bad(nodes, i) then Err(RuntimeError)
    else Scan(nodes, i + 1, bad)
  }

  /** The inner loop of `BinaryOperationsChecker`: how many numbers follow
      in a row from `j`. */
  function NumberRun(nodes: seq<Value>, j: nat): (c: nat)
    ensures c <= |nodes| - j || (j >= |nodes| && c == 0)
    ensures c >= 1 <==> j < |nodes| && nodes[j].Number?
    ensures c >= 2 <==> j + 1 < |nodes| && nodes[j].Number? && nodes[j + 1].Number?
    decreases |nodes| - j
  {
    if j < |nodes| && nodes[j].Number? then 1 + NumberRun(nodes, j + 1) else 0
  }

  /** `/` and `-`, the operations the source calls binary. */
  predicate IsBinary(v: Value) {
    v == Symbol("/") || v == Symbol("-")
  }

  predicate BinaryViolation(nodes: seq<Value>, i: nat) {
    i < |nodes| && IsBinary(nodes[i]) && NumberRun(nodes, i + 1) < 2
  }

  /** `BinaryOperationsChecker`: `/` and `-` must be followed at once by two
      numbers. */
  function BinaryOperationsChecker(nodes: seq<Value>): (r: Result<()>)
    ensures r.Err? ==> r.error == RuntimeError
    ensures r.Ok? <==> forall i :: 0 <= i < |nodes| && IsBinary(nodes[i]) ==>
                         i + 2 < |nodes| && nodes[i + 1].Number? && nodes[i + 2].Number?
  {
    var r := Scan(nodes, 0, BinaryViolation);
    assert forall i :: 0 <= i < |nodes| ==>
             (BinaryViolation(nodes, i) <==> IsBinary(nodes[i]) && NumberRun(nodes, i + 1) < 2);
    r
  }

  /** The inner loop of the unary checks: how many numbers and symbols
      follow in a row from `j`. */
  function AtomRun(nodes: seq<Value>, j: nat): (c: nat)
    ensures c >= 1 <==> j < |nodes| && IsAtom(nodes[j])
    decreases |nodes| - j
  {
    if j < |nodes| && IsAtom(nodes[j]) then 1 + AtomRun(nodes, j + 1) else 0
  }

  /** `max`, `min`, `abs`, `not`, `car` and `cdr`: the operations checked
      for a missing argument. */
  predicate IsUnary(v: Value) {
    v.Symbol? && v.name in {"max", "min", "abs", "not", "car", "cdr"}
  }

  predicate UnaryViolation(nodes: seq<Value>, i: nat) {
    i < |nodes| && IsUnary(nodes[i]) && AtomRun(nodes, i + 1) < 1
  }

  /** `UnaryOperationChecker`: each of the six unary operations must be
      followed at once by a number or a symbol. */
  function UnaryOperationChecker(nodes: seq<Value>): (r: Result<()>)
    ensures r.Err? ==> r.error == RuntimeError
    ensures r.Ok? <==> forall i :: 0 <= i < |nodes| && IsUnary(nodes[i]) ==>
                         i + 1 < |nodes| && IsAtom(nodes[i + 1])
  {
    var r := Scan(nodes, 0, UnaryViolation);
    assert forall i :: 0 <= i < |nodes| ==>
             (UnaryViolation(nodes, i) <==> IsUnary(nodes[i]) && AtomRun(nodes, i + 1) < 1);
    r
  }

  /** The inner loop of `RequiresOnlyOneArgumentChecker`: the numbers and
      symbols that follow from `j`, stopping after the first operation name. */
  function ArgumentRun(nodes: seq<Value>, j: nat): (c: nat)
    ensures j + c <= |nodes| || c == 0
    ensures c >= 1 <==> j < |nodes| && IsAtom(nodes[j])
    ensures c >= 2 <==> j + 1 < |nodes| && IsAtom(nodes[j]) && !IsOperatorSymbol(nodes[j]) && IsAtom(nodes[j + 1])
    decreases |nodes| - j
  {
    if j < |nodes| && IsAtom(nodes[j]) then
      if IsOperatorSymbol(nodes[j]) then 1 else 1 + ArgumentRun(nodes, j + 1)
    else 0
  }

  /** `abs`, `not`, `car` and `cdr`: the operations that take one argument. */
  predicate TakesOne(v: Value) {
    v.Symbol? && v.name in {"abs", "not", "car", "cdr"}
  }

  predicate OneArgumentViolation(nodes: seq<Value>, i: nat) {
    i < |nodes| && TakesOne(nodes[i]) &&
    var c := ArgumentRun(nodes, i + 1);
    var j := i + 1 + c;
    c > 1 || (nodes[i].name != "not" && c == 1 && nodes[j - 1] == Symbol("quote") && j == |nodes|)
  }

  /** Two arguments in a row after an operation that takes one; or, for all
      of them but `not`, a `quote` as the very last leaf right after it. */
  predicate TooManyArguments(nodes: seq<Value>, i: int)
    requires 0 <= i < |nodes| && TakesOne(nodes[i])
  {
    || (i + 2 < |nodes| && IsAtom(nodes[i + 1]) && !IsOperatorSymbol(nodes[i + 1]) && IsAtom(nodes[i + 2]))
    || (nodes[i].name != "not" && i + 2 == |nodes| && nodes[i + 1] == Symbol("quote"))
  }

  /** `RequiresOnlyOneArgumentChecker`. */
  function RequiresOnlyOneArgumentChecker(nodes: seq<Value>): (r: Result<()>)
    ensures r.Err? ==> r.error == RuntimeError
    ensures r.Ok? <==> forall i :: 0 <= i < |nodes| && TakesOne(nodes[i]) ==> !TooManyArguments(nodes, i)
  {
    var r := Scan(nodes, 0, OneArgumentViolation);
    assert forall i :: 0 <= i < |nodes| && TakesOne(nodes[i]) ==>
             (OneArgumentViolation(nodes, i) <==> TooManyArguments(nodes, i));
    r
  }

  /** The loop of `ListsAreNotSelfEvaluating` from token `i`: whether an
      opening bracket, and whether an operation name or a quote, occur. */
  function SelfEvaluationFlags(ts: seq<Token>, i: nat): (flags: (bool, bool))
    ensures flags.0 <==> exists k :: i <= k < |ts| && ts[k] == Open
    ensures flags.1 <==> exists k :: i <= k < |ts| && (IsOperatorToken(ts[k]) || ts[k] == QuoteMark)
    decreases |ts| - i
  {
    if i >= |ts| then (false, false)
    else
      var rest := SelfEvaluationFlags(ts, i + 1);
      (rest.0 || ts[i] == Open, rest.1 || IsOperatorToken(ts[i]) || ts[i] == QuoteMark)
  }

  /** `ListsAreNotSelfEvaluating`: brackets with no operation name and no
      quote anywhere in the input are a RuntimeError. */
  function ListsAreNotSelfEvaluating(ts: seq<Token>): (r: Result<()>)
    ensures r.Err? ==> r.error == RuntimeError
    ensures r.Err? <==> Open in ts && forall k :: 0 <= k < |ts| ==> !IsOperatorToken(ts[k]) && ts[k] != QuoteMark
  {
    var (brackets, operation) := SelfEvaluationFlags(ts, 0);
    if brackets && !operation then Err(RuntimeError) else Ok(())
  }
}
