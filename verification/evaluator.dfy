/** `Interpreter::Evaluate`, `AndEvaluate` and `OrEvaluate` of basic/scheme.cpp.
    Evaluation works on the flattened leaves of the tree that was read: the
    first leaf names an operation, a fresh object of that operation is
    created, and every later leaf is fed to it in order. */
module Evaluator {
  import opened Common
  import opened Values
  import opened Reducers
  import opened ReducerLaws
  import opened Registry

  /** The operand a fresh operation object is first called with: `car` and
      `cdr` get the symbol `nullptr`, every other operation gets null. */
  function Seed(name: string): (x: Node)
    ensures x.None? <==> name != "car" && name != "cdr"
  {
    if name == "car" || name == "cdr" then Some(Symbol("nullptr")) else None
  }

  /** `Evaluate`. A lone number or a lone symbol that names no operation
      evaluates to itself; otherwise the first leaf must name an operation,
      and the answer is what its object returns on the last call. */
  function Evaluate(nodes: seq<Value>): (r: Result<Node>)
    ensures r.Err? ==> r.error == RuntimeError || r.error == Undefined
    ensures |nodes| == 1 && !IsOperatorSymbol(nodes[0]) ==>
              (r.Ok? <==> IsAtom(nodes[0])) && (r.Ok? ==> r.value == Some(nodes[0]))
    ensures |nodes| == 0 ==> r == Err(RuntimeError)
    ensures |nodes| > 1 && r.Ok? ==> IsOperatorSymbol(nodes[0])
    ensures |nodes| > 0 && !IsOperatorSymbol(nodes[0]) && !(|nodes| == 1 && IsAtom(nodes[0])) ==>
              r == Err(RuntimeError)
  {
    if |nodes| == 1 && (nodes[0].Number? || (nodes[0].Symbol? && !IsOperator(nodes[0].name))) then
      Ok(Some(nodes[0]))
    else if |nodes| == 0 || !IsOperatorSymbol(nodes[0]) then Err(RuntimeError)
    else
      var name := nodes[0].name;
      var first :- Step(Fresh(name).value, Seed(name));
      var last :- Feed(first, nodes[1..]);
      Ok(last.out)
  }

  /** `(+ n1 .. nk)` is the sum of the numbers when no partial sum can
      overflow; `(+)` is 0. */
  lemma {:induction false} EvaluateSum(ns: seq<int>)
    requires MagnitudeSum(ns) <= INT64_MAX
    ensures Evaluate([Symbol("+")] + Nums(ns)) == Ok(Some(Number(Sum(ns))))
  {
    var nodes := [Symbol("+")] + Nums(ns);
    assert nodes[0] == Symbol("+") && nodes[1..] == Nums(ns);
    var first := Stepped(Add(0), Some(Number(0)));
    assert Step(Fresh("+").value, Seed("+")) == Ok(first);
    NumbersOfNums(ns);
    AddDefined(0, first.out, Nums(ns));
    AddSums(0, first.out, Nums(ns));
  }

  /** A nested call is not evaluated on its own: every leaf after `+`,
      operation names included, goes to the one `+` object, which adds the
      numbers among them and passes over the rest. So `(+ (- 5 3) 1)` adds
      5, 3 and 1. */
  lemma {:induction false} EvaluateSumOfLeaves(xs: seq<Value>)
    requires MagnitudeSum(Numbers(xs)) <= INT64_MAX
    ensures Evaluate([Symbol("+")] + xs) == Ok(Some(Number(Sum(Numbers(xs)))))
  {
    var nodes := [Symbol("+")] + xs;
    assert nodes[0] == Symbol("+") && nodes[1..] == xs;
    var first := Stepped(Add(0), Some(Number(0)));
    assert Step(Fresh("+").value, Seed("+")) == Ok(first);
    AddDefined(0, first.out, xs);
    AddSums(0, first.out, xs);
  }

  /** `(- n1 n2 .. nk)` is the first number minus the sum of the others, and
      is defined when the magnitudes add up to no more than `int64_t` holds. */
  lemma {:induction false} EvaluateDifference(ns: seq<int>)
    requires |ns| > 0 && MagnitudeSum(ns) <= INT64_MAX
    ensures Evaluate([Symbol("-")] + Nums(ns)) == Ok(Some(Number(ns[0] - Sum(ns[1..]))))
  {
    var nodes := [Symbol("-")] + Nums(ns);
    assert nodes[0] == Symbol("-") && nodes[1..] == Nums(ns);
    var first := Stepped(Subtract(false, 0), Some(Number(0)));
    assert Step(Fresh("-").value, Seed("-")) == Ok(first);
    NumbersOfNums(ns);
    SubtractDefined(first.out, Nums(ns));
    SubtractDifference(first.out, Nums(ns));
  }

  /** `(* n1 .. nk)`, when it is defined, is the product of the numbers. */
  lemma {:induction false} EvaluateProduct(ns: seq<int>)
    ensures var r := Evaluate([Symbol("*")] + Nums(ns));
            r.Ok? ==> r.value == Some(Number(Product(ns)))
  {
    var nodes := [Symbol("*")] + Nums(ns);
    assert nodes[0] == Symbol("*") && nodes[1..] == Nums(ns);
    var first := Stepped(Multiply(1), Some(Number(1)));
    assert Step(Fresh("*").value, Seed("*")) == Ok(first);
    NumbersOfNums(ns);
    MultiplyMultiplies(1, first.out, Nums(ns));
  }

  /** `(/ n1 n2 .. nk)` divides the first number by each of the others in
      turn, truncating toward zero. With the first number inside `int64_t`
      it is defined exactly when no later number is zero. */
  lemma {:induction false} EvaluateQuotient(ns: seq<int>)
    requires |ns| > 0
    ensures var r := Evaluate([Symbol("/")] + Nums(ns));
            r.Ok? ==> r.value == Some(Number(Quotient(ns[0], ns[1..])))
    ensures Magnitude(ns[0]) <= INT64_MAX ==>
              (Evaluate([Symbol("/")] + Nums(ns)).Ok? <==> 0 !in ns[1..])
    ensures 0 in ns[1..] ==> Evaluate([Symbol("/")] + Nums(ns)) == Err(Undefined)
  {
    var xs := Nums(ns);
    var nodes := [Symbol("/")] + xs;
    assert nodes[0] == Symbol("/") && nodes[1..] == xs;
    var first := Stepped(Divide(false, 1), Some(Number(1)));
    assert Step(Fresh("/").value, Seed("/")) == Ok(first);
    assert xs[0] == Number(ns[0]) && xs[1..] == Nums(ns[1..]);
    var started := Stepped(Divide(true, ns[0]), Some(Number(ns[0])));
    assert Step(first.next, Some(xs[0])) == Ok(started);
    assert Feed(first, xs) == Feed(started, Nums(ns[1..]));
    NumbersOfNums(ns[1..]);
    DivideQuotient(ns[0], started.out, Nums(ns[1..]));
    if |ns| == 1 {
      assert Nums(ns[1..]) == [];
    }
    if 0 in ns[1..] {
      DivideZeroAnywhere(ns[0], started.out, Nums(ns[1..]));
    }
    if Magnitude(ns[0]) <= INT64_MAX {
      DivideDefined(ns[0], started.out, Nums(ns[1..]));
    }
  }

  /** The name of the comparison operation for each relation. */
  function RelationName(rel: Relation): (name: string)
    ensures IsOperator(name)
    ensures Fresh(name) == Some(Compare(rel, false, 0, false))
  {
    match rel
    case Eq => "="
    case Lt => "<"
    case Le => "<="
    case Gt => ">"
    case Ge => ">="
  }

  /** `(= n1 .. nk)` and its four siblings answer whether every neighbouring
      pair of numbers stands in the relation; with no numbers they answer `#t`. */
  lemma {:induction false} EvaluateCompare(rel: Relation, ns: seq<int>)
    ensures Evaluate([Symbol(RelationName(rel))] + Nums(ns)) == Ok(Some(Bool(Chained(rel, ns))))
  {
    var name := RelationName(rel);
    var nodes := [Symbol(name)] + Nums(ns);
    assert nodes[0] == Symbol(name) && nodes[1..] == Nums(ns);
    assert Seed(name) == None;
    if |ns| > 0 {
      CompareFromStart(rel, ns);
    } else {
      assert nodes == [Symbol(name)];
    }
  }

  /** `(max n1 .. nk)` with at least one number is an upper bound of the
      numbers that is one of them, unless every number is the least
      `int64_t`. */
  lemma {:induction false} EvaluateMaximum(ns: seq<int>)
    requires |ns| > 0
    ensures var r := Evaluate([Symbol("max")] + Nums(ns));
            r.Ok? && r.value.Some? && r.value.value.Number?
            && var m := r.value.value.n;
               (forall i :: 0 <= i < |ns| ==> ns[i] <= m)
               && (m == INT64_MIN || exists i :: 0 <= i < |ns| && ns[i] == m)
  {
    var xs := Nums(ns);
    var nodes := [Symbol("max")] + xs;
    assert nodes[0] == Symbol("max") && nodes[1..] == xs;
    var first := Stepped(Maximum(INT64_MIN), Some(Number(INT64_MIN)));
    assert Step(Fresh("max").value, Seed("max")) == Ok(first);
    MaximumIsMaximum(INT64_MIN, first.out, xs);
    NumsAt(ns);
    var m := Feed(first, xs).value.next.max;
    forall i | 0 <= i < |ns| ensures ns[i] <= m {
      assert xs[i] == Number(ns[i]);
    }
    if m != INT64_MIN {
      var k :| 0 <= k < |xs| && xs[k] == Number(m);
      assert ns[k] == m;
    }
  }

  /** `(min n1 .. nk)` with at least one number is a lower bound of the
      numbers that is one of them, unless every number is the largest
      `int64_t`. */
  lemma {:induction false} EvaluateMinimum(ns: seq<int>)
    requires |ns| > 0
    ensures var r := Evaluate([Symbol("min")] + Nums(ns));
            r.Ok? && r.value.Some? && r.value.value.Number?
            && var m := r.value.value.n;
               (forall i :: 0 <= i < |ns| ==> m <= ns[i])
               && (m == INT64_MAX || exists i :: 0 <= i < |ns| && ns[i] == m)
  {
    var xs := Nums(ns);
    var nodes := [Symbol("min")] + xs;
    assert nodes[0] == Symbol("min") && nodes[1..] == xs;
    var first := Stepped(Minimum(INT64_MAX), Some(Number(INT64_MAX)));
    assert Step(Fresh("min").value, Seed("min")) == Ok(first);
    MinimumIsMinimum(INT64_MAX, first.out, xs);
    NumsAt(ns);
    var m := Feed(first, xs).value.next.min;
    forall i | 0 <= i < |ns| ensures m <= ns[i] {
      assert xs[i] == Number(ns[i]);
    }
    if m != INT64_MAX {
      var k :| 0 <= k < |xs| && xs[k] == Number(m);
      assert ns[k] == m;
    }
  }

  /** `(list x1 .. xk)` is the nil-terminated chain of the leaves after
      `list`; `(list)` is null. */
  lemma {:induction false} EvaluateList(xs: seq<Value>)
    ensures var r := Evaluate([Symbol("list")] + xs);
            r.Ok? && r.value == Chain(Present(xs)) && Elements(r.value) == Present(xs)
  {
    var nodes := [Symbol("list")] + xs;
    assert nodes[0] == Symbol("list") && nodes[1..] == xs;
    var first := Stepped(List([]), None);
    assert Fresh("list") == Some(List([])) && Seed("list") == None;
    assert Step(List([]), None) == Ok(first);
    if |xs| > 0 {
      ListBuildsList([], None, xs);
      assert [] + xs == xs;
      var r := Feed(first, xs);
      assert r.Ok? && r.value.out == Chain(Present(xs));
      assert Evaluate(nodes) == Ok(r.value.out);
    } else {
      assert nodes == [Symbol("list")];
    }
  }

  /** `(cons a b)` is the pair of `a` and `b`. */
  lemma {:induction false} EvaluateCons(a: Value, b: Value)
    ensures Evaluate([Symbol("cons"), a, b]) == Ok(Some(Cell(Some(a), Some(b))))
  {
    var nodes := [Symbol("cons"), a, b];
    assert nodes[1..] == [a, b] && [a, b][1..] == [b] && [b][1..] == [];
    assert Fresh("cons") == Some(Cons(None)) && Seed("cons") == None;
    var first := Stepped(Cons(None), None);
    assert Step(Cons(None), None) == Ok(first);
    var second := Stepped(Cons(Some(a)), Some(a));
    assert Step(Cons(None), Some(a)) == Ok(second);
    var third := Stepped(Cons(Some(a)), Some(Cell(Some(a), Some(b))));
    assert Step(Cons(Some(a)), Some(b)) == Ok(third);
    assert Feed(second, [b]) == Feed(third, []) == Ok(third);
    assert Feed(first, [a, b]) == Feed(second, [b]);
    assert IsOperatorSymbol(nodes[0]);
    assert Evaluate(nodes) == Ok(third.out);
  }

  /** The first index at or after `j` that holds an operator symbol, or the
      end: the operands the inner loop of `AndEvaluate` gathers. */
  function OperandsEnd(nodes: seq<Value>, j: nat): (k: nat)
    requires j <= |nodes|
    ensures j <= k <= |nodes|
    ensures forall m :: j <= m < k ==> !IsOperatorSymbol(nodes[m])
    ensures k < |nodes| ==> IsOperatorSymbol(nodes[k])
    decreases |nodes| - j
  {
    if j == |nodes| || IsOperatorSymbol(nodes[j]) then j else OperandsEnd(nodes, j + 1)
  }

  /** The loop shared by `AndEvaluate` and `OrEvaluate` from leaf `i`, with
      `last` the latest result. An operator symbol and the leaves up to the
      next operator symbol form one test; a number or another symbol is a
      test on its own. The loop stops at the first test that evaluates to
      the symbol `stop`. A cell where a test should start is never consumed,
      so the loop never ends. */
  function Junction(nodes: seq<Value>, i: nat, stop: string, last: Node): (r: Result<Node>)
    ensures r.Err? ==> r.error in {RuntimeError, Undefined, Diverges}
    ensures r.Err? && r.error == Diverges ==> exists k :: i <= k < |nodes| && nodes[k].Cell?
    ensures r.Ok? && i >= |nodes| ==> r.value == last
    decreases |nodes| - i
  {
    if i >= |nodes| then Ok(last)
    else if IsOperatorSymbol(nodes[i]) then
      var j := OperandsEnd(nodes, i + 1);
      var res :- Evaluate(nodes[i..j]);
      if IsSymbolNamed(res, stop) then Ok(res) else Junction(nodes, j, stop, res)
    else if nodes[i].Symbol? then
      var res := Evaluate([nodes[i]]).value;
      if IsSymbolNamed(res, stop) then Ok(res) else Junction(nodes, i + 1, stop, res)
    else if nodes[i].Number? then
      var res := Evaluate([nodes[i]]).value;
      Junction(nodes, i + 1, stop, res)
    else Err(Diverges)
  }

  /** `AndEvaluate`: the leaves after `and`, stopping at the first `#f`;
      `(and)` is `#t`. */
  function AndEvaluate(nodes: seq<Value>): (r: Result<Node>)
    ensures r.Err? ==> r.error in {RuntimeError, Undefined, Diverges}
    ensures r.Err? && r.error == Diverges ==> exists k :: 1 <= k < |nodes| && nodes[k].Cell?
    ensures |nodes| == 0 ==> r == Ok(None)
  {
    if |nodes| == 1 then Ok(Some(Bool(true))) else Junction(nodes, 1, "#f", None)
  }

  /** `OrEvaluate`: the leaves after `or`, stopping at the first `#t`;
      `(or)` is `#f`. */
  function OrEvaluate(nodes: seq<Value>): (r: Result<Node>)
    ensures r.Err? ==> r.error in {RuntimeError, Undefined, Diverges}
    ensures r.Err? && r.error == Diverges ==> exists k :: 1 <= k < |nodes| && nodes[k].Cell?
    ensures |nodes| == 0 ==> r == Ok(None)
  {
    if |nodes| == 1 then Ok(Some(Bool(false))) else Junction(nodes, 1, "#t", None)
  }

  /** Leaves that are numbers or symbols naming no operation. */
  predicate PlainAtoms(xs: seq<Value>) {
    forall k :: 0 <= k < |xs| ==> IsAtom(xs[k]) && !IsOperatorSymbol(xs[k])
  }

  /** Over plain atoms the loop answers the symbol `stop` when it occurs, and
      otherwise the last atom. */
  lemma {:induction false} JunctionOfAtoms(nodes: seq<Value>, i: nat, stop: string, last: Node)
    requires i <= |nodes| && PlainAtoms(nodes[i..])
    ensures var r := Junction(nodes, i, stop, last);
            if Symbol(stop) in nodes[i..] then r == Ok(Some(Symbol(stop)))
            else if i == |nodes| then r == Ok(last)
            else r == Ok(Some(nodes[|nodes| - 1]))
    decreases |nodes| - i
  {
    if i < |nodes| {
      var x := nodes[i];
      assert nodes[i..][0] == x;
      assert IsAtom(x) && !IsOperatorSymbol(x);
      assert Evaluate([x]) == Ok(Some(x));
      assert nodes[i..] == [x] + nodes[i + 1..];
      var rest := nodes[i + 1..];
      assert PlainAtoms(rest) by {
        forall k | 0 <= k < |rest| ensures IsAtom(rest[k]) && !IsOperatorSymbol(rest[k]) {
          assert rest[k] == nodes[i..][k + 1];
        }
      }
      if x == Symbol(stop) {
        assert Junction(nodes, i, stop, last) == Ok(Some(x));
      } else {
        assert !IsSymbolNamed(Some(x), stop);
        JunctionOfAtoms(nodes, i + 1, stop, Some(x));
      }
    }
  }

  /** `and` over plain atoms: `#f` when `#f` is among them, otherwise the
      last of them, and `#t` when there are none. */
  lemma {:induction false} AndOfAtoms(xs: seq<Value>)
    requires PlainAtoms(xs)
    ensures AndEvaluate([Symbol("and")] + xs) ==
              if Symbol("#f") in xs then Ok(Some(Bool(false)))
              else if |xs| == 0 then Ok(Some(Bool(true)))
              else Ok(Some(xs[|xs| - 1]))
  {
    var nodes := [Symbol("and")] + xs;
    assert nodes[1..] == xs;
    if |xs| > 0 {
      JunctionOfAtoms(nodes, 1, "#f", None);
      assert nodes[|nodes| - 1] == xs[|xs| - 1];
    }
  }

  /** `or` over plain atoms: `#t` when `#t` is among them, otherwise the
      last of them, and `#f` when there are none. */
  lemma {:induction false} OrOfAtoms(xs: seq<Value>)
    requires PlainAtoms(xs)
    ensures OrEvaluate([Symbol("or")] + xs) ==
              if Symbol("#t") in xs then Ok(Some(Bool(true)))
              else if |xs| == 0 then Ok(Some(Bool(false)))
              else Ok(Some(xs[|xs| - 1]))
  {
    var nodes := [Symbol("or")] + xs;
    assert nodes[1..] == xs;
    if |xs| > 0 {
      JunctionOfAtoms(nodes, 1, "#t", None);
      assert nodes[|nodes| - 1] == xs[|xs| - 1];
    }
  }

  /** Short circuit: when the first test after `and` is an operation whose
      value is `#f`, the answer is `#f` and nothing after that test is
      looked at, not even a cell that would make the loop run forever. */
  lemma {:induction false} AndShortCircuits(test: seq<Value>, rest: seq<Value>)
    requires |test| > 0 && IsOperatorSymbol(test[0])
    requires forall k :: 1 <= k < |test| ==> !IsOperatorSymbol(test[k])
    requires |rest| > 0 ==> IsOperatorSymbol(rest[0])
    requires Evaluate(test) == Ok(Some(Bool(false)))
    ensures AndEvaluate([Symbol("and")] + test + rest) == Ok(Some(Bool(false)))
  {
    var nodes := [Symbol("and")] + test + rest;
    var j := |test| + 1;
    assert nodes[1] == test[0];
    forall m | 2 <= m < j ensures !IsOperatorSymbol(nodes[m]) {
      assert nodes[m] == test[m - 1];
    }
    if |rest| > 0 {
      assert nodes[j] == rest[0];
    }
    OperandsEndIs(nodes, 2, j);
    assert nodes[1..j] == test;
  }

  /** Short circuit for `or`: a first test whose value is `#t` decides the
      answer whatever follows it. */
  lemma {:induction false} OrShortCircuits(test: seq<Value>, rest: seq<Value>)
    requires |test| > 0 && IsOperatorSymbol(test[0])
    requires forall k :: 1 <= k < |test| ==> !IsOperatorSymbol(test[k])
    requires |rest| > 0 ==> IsOperatorSymbol(rest[0])
    requires Evaluate(test) == Ok(Some(Bool(true)))
    ensures OrEvaluate([Symbol("or")] + test + rest) == Ok(Some(Bool(true)))
  {
    var nodes := [Symbol("or")] + test + rest;
    var j := |test| + 1;
    assert nodes[1] == test[0];
    forall m | 2 <= m < j ensures !IsOperatorSymbol(nodes[m]) {
      assert nodes[m] == test[m - 1];
    }
    if |rest| > 0 {
      assert nodes[j] == rest[0];
    }
    OperandsEndIs(nodes, 2, j);
    assert nodes[1..j] == test;
  }

  /** The operands end exactly where the next operator symbol stands. */
  lemma {:induction false} OperandsEndIs(nodes: seq<Value>, j: nat, k: nat)
    requires j <= k <= |nodes|
    requires forall m :: j <= m < k ==> !IsOperatorSymbol(nodes[m])
    requires k < |nodes| ==> IsOperatorSymbol(nodes[k])
    ensures OperandsEnd(nodes, j) == k
    decreases k - j
  {
    if j < k {
      OperandsEndIs(nodes, j + 1, k);
    }
  }
}
