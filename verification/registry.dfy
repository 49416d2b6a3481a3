/** The operation table of basic/scheme.h: the 27 names the interpreter
    knows, each bound to a factory for a fresh operation object. */
module Registry {
  import opened Common
  import opened Values
  import opened Reducers

  /** The registered names, in the order the table lists them. */
  const Names: seq<string> := [
    "quote", "number?", "=", "+", "<", "<=", ">", ">=", "-", "/", "*",
    "max", "min", "abs", "boolean?", "not", "and", "or", "null?", "list?",
    "pair?", "cons", "car", "cdr", "list", "list-ref", "list-tail"
  ]

  /** Looking a name up in the table and calling the factory found: a
      freshly constructed object of the class registered under `name`, or
      nothing for a name the table lacks. The table is looked up a third at
      a time. */
  function Fresh(name: string): (r: Option<Reducer>)
    ensures r.Some? ==> Initial(r.value) && NameOf(r.value) == name
  {
    var a := FreshFirstRows(name);
    if a.Some? then a
    else
      var b := FreshMiddleRows(name);
      if b.Some? then b else FreshLastRows(name)
  }

  /** Rows `quote` to `-` of the table. */
  function FreshFirstRows(name: string): (r: Option<Reducer>)
    ensures r.Some? ==> Initial(r.value) && NameOf(r.value) == name
  {
    if name == "quote" then Some(Quote)
    else if name == "number?" then Some(NumberTest(false))
    else if name == "=" then Some(Compare(Eq, false, 0, false))
    else if name == "+" then Some(Add(0))
    else if name == "<" then Some(Compare(Lt, false, 0, false))
    else if name == "<=" then Some(Compare(Le, false, 0, false))
    else if name == ">" then Some(Compare(Gt, false, 0, false))
    else if name == ">=" then Some(Compare(Ge, false, 0, false))
    else if name == "-" then Some(Subtract(false, 0))
    else None
  }

  /** Rows `/` to `or` of the table. */
  function FreshMiddleRows(name: string): (r: Option<Reducer>)
    ensures r.Some? ==> Initial(r.value) && NameOf(r.value) == name
  {
    if name == "/" then Some(Divide(false, 1))
    else if name == "*" then Some(Multiply(1))
    else if name == "max" then Some(Maximum(INT64_MIN))
    else if name == "min" then Some(Minimum(INT64_MAX))
    else if name == "abs" then Some(Absolute(0))
    else if name == "boolean?" then Some(BooleanTest(false))
    else if name == "not" then Some(Not)
    else if name == "and" then Some(And)
    else if name == "or" then Some(Or)
    else None
  }

  /** Rows `null?` to `list-tail` of the table. */
  function FreshLastRows(name: string): (r: Option<Reducer>)
    ensures r.Some? ==> Initial(r.value) && NameOf(r.value) == name
  {
    if name == "null?" then Some(NullTest(false))
    else if name == "list?" then Some(ListTest)
    else if name == "pair?" then Some(PairTest)
    else if name == "cons" then Some(Cons(None))
    else if name == "car" then Some(Car)
    else if name == "cdr" then Some(Cdr)
    else if name == "list" then Some(List([]))
    else if name == "list-ref" then Some(ListRef([]))
    else if name == "list-tail" then Some(ListTail([], []))
    else None
  }

  /** Does the table hold `name`? */
  predicate IsOperator(name: string) {
    Fresh(name).Some?
  }

  /** Is `v` a symbol naming a registered operation? */
  predicate IsOperatorSymbol(v: Value) {
    v.Symbol? && IsOperator(v.name)
  }

  /** Every name of the table is registered. */
  lemma {:induction false} NamesRegistered(i: nat)
    requires i < |Names|
    ensures IsOperator(Names[i])
  {
  }

  /** Only the names of the table are registered: lookup is by exact name. */
  lemma {:induction false} OnlyNamesRegistered(name: string)
    requires IsOperator(name)
    ensures name in Names
  {
  }

  /** Two different registered names give different objects. */
  lemma {:induction false} FreshInjective(a: string, b: string)
    requires IsOperator(a) && IsOperator(b) && a != b
    ensures Fresh(a).value != Fresh(b).value
  {
  }

  /** `define` and the boolean literals are not operations. */
  lemma {:induction false} NotOperators()
    ensures !IsOperator("define") && !IsOperator("#t") && !IsOperator("#f")
  {
  }
}
