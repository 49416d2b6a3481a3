/** The objects of basic/object.h the interpreter computes with: numbers,
    symbols and cons cells, together with the tree walks several stages share
    (the nil-terminated chain `list` builds, the chain test of `list?`, and the
    pre-order flattening `AstToVector`). */
module Values {
  import opened Common

  /** A Scheme object. A cell's slots may be null, so they hold a `Node`. */
  datatype Value =
    | Number(n: int)
    | Symbol(name: string)
    | Cell(first: Option<Value>, second: Option<Value>)

  /** A `shared_ptr<Object>`: an object or null (the empty list). */
  type Node = Option<Value>

  /** The cell whose two slots are both null. */
  const EmptyCell: Value := Cell(None, None)

  /** The symbols the reducers answer with. */
  function Bool(b: bool): (v: Value)
    ensures v.Symbol? && (v.name == "#t" <==> b) && (v.name == "#f" <==> !b)
  {
    if b then Symbol("#t") else Symbol("#f")
  }

  /** Is `n` the symbol with the given name? */
  predicate IsSymbolNamed(n: Node, name: string) {
    n.Some? && n.value.Symbol? && n.value.name == name
  }

  predicate IsNumber(n: Node) {
    n.Some? && n.value.Number?
  }

  predicate IsCell(n: Node) {
    n.Some? && n.value.Cell?
  }

  /** Numbers and symbols: the objects that are not cells. */
  predicate IsAtom(v: Value) {
    !v.Cell?
  }

  /** `Object::Serialize` and its overrides: a number prints in decimal with a
      trailing blank, a symbol as its name, and a cell according to which of
      its slots are set. */
  function Serialize(v: Value): (s: string)
    ensures v.Number? ==> s == IntToString(v.n) + " "
    ensures v.Symbol? ==> s == v.name
  {
    match v
    case Number(n) => IntToString(n) + " "
    case Symbol(name) => name
    case Cell(Some(a), Some(b)) => "(" + Serialize(a) + " " + Serialize(b) + ")"
    case Cell(None, Some(b)) => Serialize(b)
    case Cell(Some(a), None) => Serialize(a)
    case Cell(None, None) => "(())"
  }

  /** The walk of `CheckIfList::Helper`: following second slots from `n`
      reaches null. */
  predicate ListLike(n: Node) {
    match n
    case None => true
    case Some(Cell(_, rest)) => ListLike(rest)
    case Some(_) => false
  }

  /** The right-nested, nil-terminated chain of `xs`, as
      `ListOperation::MakeList` builds it. */
  function Chain(xs: seq<Node>): (n: Node)
    ensures ListLike(n)
    ensures n.None? <==> |xs| == 0
    ensures |xs| > 0 ==> n.value.Cell? && n.value.first == xs[0]
  {
    if |xs| == 0 then None else Some(Cell(xs[0], Chain(xs[1..])))
  }

  /** The first slots along a chain: the elements of a list. */
  function Elements(n: Node): (xs: seq<Node>)
    requires ListLike(n)
    ensures |xs| == 0 <==> n.None?
  {
    match n
    case None => []
    case Some(Cell(head, rest)) => [head] + Elements(rest)
  }

  /** Reading the elements back from a chain gives the sequence it was built from. */
  lemma {:induction false} ElementsOfChain(xs: seq<Node>)
    ensures Elements(Chain(xs)) == xs
    decreases |xs|
  {
    if |xs| > 0 {
      ElementsOfChain(xs[1..]);
    }
  }

  /** Every list is the chain of its own elements. */
  lemma {:induction false} ChainOfElements(n: Node)
    requires ListLike(n)
    ensures Chain(Elements(n)) == n
  {
    match n
    case None =>
    case Some(Cell(head, rest)) =>
      ChainOfElements(rest);
      assert ([head] + Elements(rest))[1..] == Elements(rest);
  }

  /** A pair with both slots set is written in brackets, and the cell with
      two null slots as `(())`. */
  lemma {:induction false} SerializeCells(v: Value)
    requires v.Cell?
    ensures v.first.Some? && v.second.Some? ==>
              var s := Serialize(v); |s| >= 2 && s[0] == '(' && s[|s| - 1] == ')'
    ensures v == EmptyCell ==> Serialize(v) == "(())"
  {
  }

  /** Distinct numbers are written differently: the text of a number
      determines it. */
  lemma {:induction false} SerializeNumberInjective(a: int, b: int)
    requires Serialize(Number(a)) == Serialize(Number(b))
    ensures a == b
  {
    assert IntToString(a) == Serialize(Number(a))[..|Serialize(Number(a))| - 1];
    assert IntToString(b) == Serialize(Number(b))[..|Serialize(Number(b))| - 1];
    IntToStringInjective(a, b);
  }

  /** The right-nested list of `xs` whose last second slot is `end` rather
      than null. */
  function ListOnto(xs: seq<Node>, end: Node): (n: Node)
    ensures end.None? ==> n == Chain(xs)
    ensures |xs| > 0 ==> n.Some? && n.value.Cell? && n.value.first == xs[0]
    decreases |xs|
  {
    if |xs| == 0 then end else Some(Cell(xs[0], ListOnto(xs[1..], end)))
  }

  /** The nodes of a sequence of objects, none of them null. */
  function Present(xs: seq<Value>): (ns: seq<Node>)
    ensures |ns| == |xs| && forall i :: 0 <= i < |xs| ==> ns[i] == Some(xs[i])
  {
    if |xs| == 0 then [] else [Some(xs[0])] + Present(xs[1..])
  }

  /** Every cell among flattened leaves is either the cell with two null
      slots or the quoted payload right after a `quote` symbol. */
  predicate CellsExplained(leaves: seq<Value>) {
    forall i {:trigger leaves[i]} :: 0 <= i < |leaves| && leaves[i].Cell? ==>
      leaves[i] == EmptyCell || (i > 0 && leaves[i - 1] == Symbol("quote"))
  }

  lemma {:induction false} CellsExplainedAppend(a: seq<Value>, b: seq<Value>)
    requires CellsExplained(a) && CellsExplained(b)
    ensures CellsExplained(a + b)
  {
    var ab := a + b;
    forall i | 0 <= i < |ab| && ab[i].Cell?
      ensures ab[i] == EmptyCell || (i > 0 && ab[i - 1] == Symbol("quote"))
    {
      if i >= |a| {
        assert ab[i] == b[i - |a|];
        if i - |a| > 0 {
          assert ab[i - 1] == b[i - |a| - 1];
        }
      } else {
        assert ab[i] == a[i];
        if i > 0 {
          assert ab[i - 1] == a[i - 1];
        }
      }
    }
  }

  /** `Interpreter::AstToVector`: the non-null leaves of a tree in pre-order.
      Two kinds of cell are kept whole: the cell with two null slots, and the
      payload after a `quote` symbol heading a cell. */
  function Flatten(n: Node): (leaves: seq<Value>)
    ensures n.None? <==> |leaves| == 0
    ensures n.Some? && IsAtom(n.value) ==> leaves == [n.value]
    ensures CellsExplained(leaves)
  {
    match n
    case None => []
    case Some(v) =>
      if !v.Cell? then [v]
      else if v.first.None? && v.second.None? then [EmptyCell]
      else if IsSymbolNamed(v.first, "quote") then
        [v.first.value] + (if v.second.Some? then [v.second.value] else [])
      else
        var left, right := Flatten(v.first), Flatten(v.second);
        CellsExplainedAppend(left, right);
        left + right
  }

  /** Flattening a chain of atoms, none of them the symbol `quote`, gives the
      atoms back in order. */
  lemma {:induction false} FlattenChainOfAtoms(xs: seq<Value>)
    requires forall i :: 0 <= i < |xs| ==> IsAtom(xs[i]) && xs[i] != Symbol("quote")
    ensures Flatten(Chain(Present(xs))) == xs
    decreases |xs|
  {
    if |xs| > 0 {
      var ns := Present(xs);
      assert ns[1..] == Present(xs[1..]);
      FlattenChainOfAtoms(xs[1..]);
    }
  }
}
