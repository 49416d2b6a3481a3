/** The operation objects of basic/object.h. Each is a small state machine:
    `Apply` takes one operand (possibly null), may update the object's fields
    and returns a result. Here every class is one alternative of `Reducer`
    holding its fields, and `Step` is its `Apply`. */
module Reducers {
  import opened Common
  import opened Values

  /** The five chain comparisons. */
  datatype Relation = Eq | Lt | Le | Gt | Ge

  predicate Holds(rel: Relation, a: int, b: int) {
    match rel
    case Eq => a == b
    case Lt => a < b
    case Le => a <= b
    case Gt => a > b
    case Ge => a >= b
  }

  /** One operation object with its fields. */
  datatype Reducer =
    | Quote                                                   // QuoteOperation
    | Add(sum: int)                                           // AddOperation
    | Multiply(product: int)                                  // MultiplicationOperation
    | Subtract(started: bool, total: int)                     // MinusOperation
    | Divide(started: bool, total: int)                       // DivisionOperation
    | Maximum(max: int)                                       // MaxOperation
    | Minimum(min: int)                                       // MinOperation
    | Absolute(abs: int)                                      // AbsOperation
    | Compare(rel: Relation, started: bool, prev: int, broken: bool) // CheckIfEqual .. CheckIfGreaterOrEqual
    | NumberTest(started: bool)                               // CheckIfNumber
    | BooleanTest(started: bool)                              // CheckIfBoolean
    | NullTest(started: bool)                                 // CheckIfNull
    | ListTest                                                // CheckIfList
    | PairTest                                                // CheckIfPair
    | Not                                                     // NotOperation
    | And                                                     // AndOperation
    | Or                                                      // OrOperation
    | Cons(head: Node)                                        // ConstructOperation
    | Car                                                     // CarOperation
    | Cdr                                                     // CdrOperation
    | List(items: seq<Value>)                                 // ListOperation
    | ListRef(items: seq<Value>)                              // ListRefOperation
    | ListTail(cells: seq<Node>, leaves: seq<Value>)          // ListTailOperation

  /** The name each class is registered under. */
  function NameOf(r: Reducer): string {
    match r
    case Quote => "quote"
    case Add(_) => "+"
    case Multiply(_) => "*"
    case Subtract(_, _) => "-"
    case Divide(_, _) => "/"
    case Maximum(_) => "max"
    case Minimum(_) => "min"
    case Absolute(_) => "abs"
    case Compare(rel, _, _, _) =>
      (match rel case Eq => "=" case Lt => "<" case Le => "<=" case Gt => ">" case Ge => ">=")
    case NumberTest(_) => "number?"
    case BooleanTest(_) => "boolean?"
    case NullTest(_) => "null?"
    case ListTest => "list?"
    case PairTest => "pair?"
    case Not => "not"
    case And => "and"
    case Or => "or"
    case Cons(_) => "cons"
    case Car => "car"
    case Cdr => "cdr"
    case List(_) => "list"
    case ListRef(_) => "list-ref"
    case ListTail(_, _) => "list-tail"
  }

  /** The field values a freshly constructed object starts with. */
  predicate Initial(r: Reducer) {
    match r
    case Add(sum) => sum == 0
    case Multiply(product) => product == 1
    case Subtract(started, total) => !started && total == 0
    case Divide(started, total) => !started && total == 1
    case Maximum(max) => max == INT64_MIN
    case Minimum(min) => min == INT64_MAX
    case Absolute(abs) => abs == 0
    case Compare(_, started, prev, broken) => !started && prev == 0 && !broken
    case NumberTest(started) => !started
    case BooleanTest(started) => !started
    case NullTest(started) => !started
    case Cons(head) => head.None?
    case List(items) => items == []
    case ListRef(items) => items == []
    case ListTail(cells, leaves) => cells == [] && leaves == []
    case _ => true
  }

  /** The state after a call and the object it returned. */
  datatype Stepped = Stepped(next: Reducer, out: Node)

  /** Integer result of an `int64_t` computation, or Undefined on overflow. */
  function Checked(r: Reducer, v: int): (s: Result<Stepped>)
    ensures s.Ok? <==> IsInt64(v)
  {
    if IsInt64(v) then Ok(Stepped(r, Some(Number(v)))) else Err(Undefined)
  }

  /** `ListTailOperation::Normilize`: keeps the spine of second slots, cuts it
      at a number in a second slot, and drops the whole spine when a second
      slot holds a symbol. */
  function Normalize(n: Node): (m: Node)
    ensures ListLike(m)
  {
    match n
    case Some(Cell(first, second)) =>
      if second.None? || IsCell(second) then Some(Cell(first, Normalize(second)))
      else if IsNumber(second) then Some(Cell(first, None))
      else None
    case _ => None
  }

  /** `ListTailOperation::MakeList` on a list: every suffix of the spine,
      from the whole list down to null. */
  function Suffixes(n: Node): (ss: seq<Node>)
    requires ListLike(n)
    ensures |ss| == |Elements(n)| + 1 && ss[0] == n && ss[|ss| - 1] == None
  {
    match n
    case None => [None]
    case Some(Cell(_, second)) => [n] + Suffixes(second)
  }

  /** `Apply`: one call of an operation object on one operand. */
  function Step(r: Reducer, x: Node): (s: Result<Stepped>)
    ensures s.Ok? ==> NameOf(s.value.next) == NameOf(r)
    ensures s.Err? ==> s.error == RuntimeError || s.error == Undefined
    ensures s.Err? && s.error == RuntimeError ==> r.Car? || r.Cdr? || r.ListRef? || r.ListTail?
  {
    match r
    case Quote => Ok(Stepped(r, x))
    case Add(_) => ArithStep(r, x)
    case Multiply(_) => ArithStep(r, x)
    case Subtract(_, _) => ArithStep(r, x)
    case Divide(_, _) => ArithStep(r, x)
    case Maximum(_) => ArithStep(r, x)
    case Minimum(_) => ArithStep(r, x)
    case Absolute(_) => ArithStep(r, x)
    case Compare(_, _, _, _) => CompareStep(r, x)
    case NumberTest(started) =>
      if !started then Ok(Stepped(NumberTest(true), Some(Bool(true))))
      else Ok(Stepped(r, Some(Bool(x.None? || x.value.Number?))))
    case BooleanTest(started) =>
      if !started then Ok(Stepped(BooleanTest(true), Some(Bool(true))))
      else Ok(Stepped(r, Some(Bool(x.None? || IsSymbolNamed(x, "#t") || IsSymbolNamed(x, "#f")))))
    case NullTest(started) =>
      if !started then Ok(Stepped(NullTest(true), Some(Bool(true))))
      else Ok(Stepped(r, Some(Bool(x.None? || IsSymbolNamed(x, "quote")))))
    case ListTest => Ok(Stepped(r, Some(Bool(IsSymbolNamed(x, "quote") || ListLike(x)))))
    case PairTest => Ok(Stepped(r, Some(Bool(!(x.None? || IsSymbolNamed(x, "quote"))))))
    case Not => Ok(Stepped(r, Some(Bool(x.None? || IsSymbolNamed(x, "#f")))))
    case And => Ok(Stepped(r, if x.None? then Some(Bool(true)) else None))
    case Or => Ok(Stepped(r, if x.None? then Some(Bool(true)) else None))
    case Cons(head) =>
      if x.None? then Ok(Stepped(r, None))
      else if head.None? then Ok(Stepped(Cons(x), x))
      else Ok(Stepped(r, Some(Cell(head, x))))
    case Car =>
      if x.None? then Err(RuntimeError)
      else if x.value.Cell? then Ok(Stepped(r, x.value.first))
      else Ok(Stepped(r, x))
    case Cdr =>
      if x.None? then Err(RuntimeError)
      else if x.value.Cell? then Ok(Stepped(r, x.value.second))
      else Ok(Stepped(r, None))
    case List(items) =>
      if x.None? then Ok(Stepped(r, None))
      else Ok(Stepped(List(items + [x.value]), Chain(Present(items + [x.value]))))
    case ListRef(items) => RefStep(items, x)
    case ListTail(cells, leaves) => TailStep(cells, leaves, x)
  }

  /** A `list-ref` object's call is its own step function. */
  lemma {:induction false} StepOfListRef(items: seq<Value>, x: Node)
    ensures Step(ListRef(items), x) == RefStep(items, x)
  {
  }

  /** A `list-tail` object's call is its own step function. */
  lemma {:induction false} StepOfListTail(r: Reducer, x: Node)
    requires r.ListTail?
    ensures Step(r, x) == TailStep(r.cells, r.leaves, x)
  {
    assert r == ListTail(r.cells, r.leaves);
  }

  /** `Apply` of the arithmetic operations: null answers the neutral value,
      a number updates the state, any other object answers the state. */
  function ArithStep(r: Reducer, x: Node): (s: Result<Stepped>)
    requires r.Add? || r.Multiply? || r.Subtract? || r.Divide? || r.Maximum? || r.Minimum? || r.Absolute?
    ensures s.Ok? ==> NameOf(s.value.next) == NameOf(r)
    ensures s.Err? ==> s.error == Undefined
  {
    match r
    case Add(sum) =>
      if x.None? then Ok(Stepped(r, Some(Number(0))))
      else if x.value.Number? then Checked(Add(sum + x.value.n), sum + x.value.n)
      else Ok(Stepped(r, Some(Number(sum))))
    case Multiply(product) =>
      if x.None? then Ok(Stepped(r, Some(Number(1))))
      else if x.value.Number? then Checked(Multiply(product * x.value.n), product * x.value.n)
      else Ok(Stepped(r, Some(Number(product))))
    case Subtract(started, total) =>
      if x.None? then Ok(Stepped(r, Some(Number(0))))
      else if x.value.Number? then
        var t := if started then total - x.value.n else total + x.value.n;
        Checked(Subtract(true, t), t)
      else Ok(Stepped(r, Some(Number(total))))
    case Divide(started, total) =>
      if x.None? then Ok(Stepped(r, Some(Number(1))))
      else if x.value.Number? then
        if !started then Ok(Stepped(Divide(true, x.value.n), Some(Number(x.value.n))))
        else if x.value.n == 0 then Err(Undefined)
        else
          var q := TruncDiv(total, x.value.n);
          Checked(Divide(true, q), q)
      else Ok(Stepped(r, Some(Number(total))))
    case Maximum(max) =>
      if x.None? then Ok(Stepped(r, Some(Number(INT64_MIN))))
      else if x.value.Number? then
        var m := if x.value.n > max then x.value.n else max;
        Ok(Stepped(Maximum(m), Some(Number(m))))
      else Ok(Stepped(r, Some(Number(max))))
    case Minimum(min) =>
      if x.None? then Ok(Stepped(r, Some(Number(INT64_MAX))))
      else if x.value.Number? then
        var m := if x.value.n < min then x.value.n else min;
        Ok(Stepped(Minimum(m), Some(Number(m))))
      else Ok(Stepped(r, Some(Number(min))))
    case Absolute(abs) =>
      if x.None? then Ok(Stepped(r, Some(Number(0))))
      else if x.value.Number? then
        // `std::abs` of the most negative `int64_t` is undefined.
        if x.value.n == INT64_MIN then Err(Undefined)
        else Ok(Stepped(Absolute(Magnitude(x.value.n)), Some(Number(Magnitude(x.value.n)))))
      else Ok(Stepped(r, Some(Number(abs))))
  }

  /** `Apply` of the five chain comparisons: once a pair fails every later
      call answers `#f`; a later operand that is not a number answers null. */
  function CompareStep(r: Reducer, x: Node): (s: Result<Stepped>)
    requires r.Compare?
    ensures s.Ok? ==> s.value.next.Compare? && s.value.next.rel == r.rel
    ensures s.Err? ==> s.error == Undefined
  {
    var Compare(rel, started, prev, broken) := r;
    if broken then Ok(Stepped(r, Some(Bool(false))))
    else if !started then
      if x.None? then Ok(Stepped(r, Some(Bool(true))))
      // The first operand is read as a number whatever it is.
      else if !x.value.Number? then Err(Undefined)
      else Ok(Stepped(Compare(rel, true, x.value.n, false), Some(Bool(true))))
    else if IsNumber(x) then
      if Holds(rel, prev, x.value.n) then Ok(Stepped(Compare(rel, true, x.value.n, false), Some(Bool(true))))
      else Ok(Stepped(Compare(rel, true, prev, true), Some(Bool(false))))
    else Ok(Stepped(r, None))
  }

  /** `ListRefOperation::Apply`: every cell operand adds its leaves to those
      kept so far; the last leaf is the index into them. */
  function RefStep(items: seq<Value>, x: Node): (s: Result<Stepped>)
    ensures s.Ok? ==> s.value.next.ListRef?
    ensures s.Err? ==> s.error == RuntimeError || s.error == Undefined
  {
    if !IsCell(x) then Ok(Stepped(ListRef(items), None))
    else
      // The source's test for an empty element vector cannot succeed:
      // flattening a cell always yields at least one element.
      var all := items + Flatten(x);
      var last := all[|all| - 1];
      if !last.Number? then Err(Undefined)
      else if last.n >= |all| - 1 then Err(RuntimeError)
      else if last.n < 0 then Err(Undefined)
      else Ok(Stepped(ListRef(all), Some(all[last.n])))
  }

  /** `ListTailOperation::Apply`: every cell operand adds the suffixes of its
      normalised spine and its leaves to those kept so far; the last leaf is
      the index into the suffixes. */
  function TailStep(cells: seq<Node>, leaves: seq<Value>, x: Node): (s: Result<Stepped>)
    ensures s.Ok? ==> s.value.next.ListTail?
    ensures s.Err? ==> s.error == RuntimeError || s.error == Undefined
  {
    if !IsCell(x) then Ok(Stepped(ListTail(cells, leaves), None))
    else
      var allCells := cells + Suffixes(Normalize(x));
      var allLeaves := leaves + Flatten(x);
      var last := allLeaves[|allLeaves| - 1];
      if !last.Number? then Err(Undefined)
      else if last.n >= |allLeaves| then Err(RuntimeError)
      else if last.n < 0 || last.n >= |allCells| then Err(Undefined)
      else Ok(Stepped(ListTail(allCells, allLeaves), allCells[last.n]))
  }

  /** Feeds every object of `xs`, in order, to the reducer left in `s`; the
      result is the state after the last call and what that call returned. */
  function Feed(s: Stepped, xs: seq<Value>): (r: Result<Stepped>)
    ensures r.Ok? ==> NameOf(r.value.next) == NameOf(s.next)
    ensures r.Ok? && |xs| == 0 ==> r.value == s
    ensures r.Err? ==> r.error == RuntimeError || r.error == Undefined
    decreases |xs|
  {
    if |xs| == 0 then Ok(s)
    else
      var s' :- Step(s.next, Some(xs[0]));
      Feed(s', xs[1..])
  }
}
