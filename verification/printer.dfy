/** The printer of basic/scheme.cpp: `SerializeQuote`, which writes a cell
    chain in list notation, and `Serialize`, which writes either the payload
    of a quote form or the flattened result of an evaluation. Both append to
    a string under construction; the functions here take that string and
    return the extended one. */
module Printer {
  import opened Common
  import opened Values
  import Checkers

  /** Drops one trailing whitespace character, if there is one. */
  function DropSpace(s: string): (t: string)
    requires |s| > 0
    ensures t == s || (IsSpace(s[|s| - 1]) && t == s[..|s| - 1])
    ensures !IsSpace(s[|s| - 1]) ==> t == s
  {
    if IsSpace(s[|s| - 1]) then s[..|s| - 1] else s
  }

  /** Written text less one trailing whitespace character: the part of it
      that later writing keeps. Closing a list may remove one blank that was
      already written, never more. */
  function Trimmed(s: string): (t: string)
    ensures t <= s && |s| - 1 <= |t|
  {
    if |s| == 0 then s else DropSpace(s)
  }

  /** Whatever is appended, the trimmed text is kept. */
  lemma {:induction false} TrimmedGrows(s: string, w: string)
    ensures Trimmed(s) <= Trimmed(s + w)
  {
    if |w| > 0 {
      assert s <= (s + w)[..|s + w| - 1];
    } else {
      assert s + w == s;
    }
  }

  /** Drops a trailing blank and closes the bracket. `back()` of an empty
      string is undefined. */
  function CloseList(s: string): (r: Result<string>)
    ensures r.Ok? <==> |s| > 0
    ensures r.Ok? ==> |r.value| > 0 && r.value[|r.value| - 1] == ')'
  {
    if |s| == 0 then Err(Undefined) else Ok(DropSpace(s) + ")")
  }

  /** `SerializeQuote`: a cell with a non-null first slot and an atom in its
      second prints as a dotted pair; one whose second slot is a cell
      prints its first element and goes on with the rest; one whose second
      slot is null prints its last element and closes the list. A cell with
      a null first slot prints `())`, an atom prints with a trailing blank,
      and null closes the list. */
  function SerializeQuote(n: Node, acc: string): (r: Result<string>)
    ensures r.Ok? ==> |r.value| >= |acc|
    ensures r.Ok? ==> Trimmed(acc) <= r.value
    ensures r.Err? ==> r.error == Undefined && |acc| == 0 && IsCell(n)
  {
    match n
    case None => Ok(acc + ")")
    case Some(v) =>
      if !v.Cell? then Ok(acc + Serialize(v) + " ")
      else if v.first.None? then Ok(acc + "())")
      else if v.second.Some? && !v.second.value.Cell? then
        var s := acc + Serialize(v.first.value) + ". " + Serialize(v.second.value);
        Ok(DropSpace(s) + ")")
      else if v.second.Some? then
        var s := acc + Serialize(v.first.value) + (if v.first.value.Symbol? then " " else "");
        TrimmedGrows(acc, s[|acc|..]);
        assert acc + s[|acc|..] == s;
        SerializeQuote(v.second, s)
      else
        var s := acc + Serialize(v.first.value);
        TrimmedGrows(acc, Serialize(v.first.value));
        if |s| == 0 then Err(Undefined) else Ok(DropSpace(s) + ")")
  }

  /** The trimmed text is all that is kept in general: a last element
      that writes nothing lets the closing bracket replace a blank that was
      already there. */
  lemma {:induction false} SerializeQuoteMayDropBlank()
    ensures SerializeQuote(Some(Cell(Some(Symbol("")), None)), "( ") == Ok("()")
  {
    var acc := "( ";
    var s := acc + Serialize(Symbol(""));
    assert s == acc;
    assert DropSpace(s) == "(";
    assert SerializeQuote(Some(Cell(Some(Symbol("")), None)), acc) == Ok(DropSpace(s) + ")");
    assert "(" + ")" == "()";
  }

  /** Once something that does not start with a blank has been written,
      `SerializeQuote` succeeds and never touches the first character. */
  lemma {:induction false} SerializeQuoteKeepsFirst(n: Node, acc: string)
    requires |acc| > 0 && !IsSpace(acc[0])
    ensures var r := SerializeQuote(n, acc); r.Ok? && |r.value| > 0 && r.value[0] == acc[0]
  {
    if n.Some? && n.value.Cell? && n.value.first.Some? && n.value.second.Some? && n.value.second.value.Cell? {
      var v := n.value;
      var s := acc + Serialize(v.first.value) + (if v.first.value.Symbol? then " " else "");
      assert s[0] == acc[0];
      SerializeQuoteKeepsFirst(v.second, s);
    }
  }

  /** How an atom is written inside a list: a number in decimal, a symbol as
      its name. A cell is written as `Serialize` writes it. */
  function Text(v: Value): (s: string) {
    if v.Number? then IntToString(v.n) else if v.Symbol? then v.name else Serialize(v)
  }

  /** An atom whose written form does not end in a blank: a number, or a
      symbol whose name is non-empty and does not end in a blank, as every
      lexed symbol is. */
  predicate Printable(v: Value) {
    IsAtom(v) && (v.Symbol? ==> |v.name| > 0 && !IsSpace(v.name[|v.name| - 1]))
  }

  predicate AllPrintable(xs: seq<Value>) {
    forall k :: 0 <= k < |xs| ==> IsAtom(xs[k]) && Printable(xs[k])
  }

  /** The written forms of `xs`, separated by single blanks. */
  function Spaced(xs: seq<Value>): string
    decreases |xs|
  {
    if |xs| == 0 then ""
    else if |xs| == 1 then Text(xs[0])
    else Text(xs[0]) + " " + Spaced(xs[1..])
  }

  /** A nil-terminated chain of atoms prints as the atoms separated by single
      blanks, with no blank before the closing bracket. */
  lemma {:induction false} QuoteChainOfAtoms(xs: seq<Value>, acc: string)
    requires |xs| > 0 && AllPrintable(xs)
    ensures SerializeQuote(Chain(Present(xs)), acc) == Ok(acc + Spaced(xs) + ")")
    decreases |xs|
  {
    var x := xs[0];
    var rest := xs[1..];
    assert IsAtom(x) && Printable(x);
    ChainOfPresent(xs);
    if |xs| == 1 {
      QuoteLastAtom(x, acc);
    } else {
      PrintableTail(xs);
      var s := acc + Text(x) + " ";
      QuoteChainOfAtoms(rest, s);
      QuoteAtomThen(x, Chain(Present(rest)), acc);
      SpacedCons(xs, acc);
    }
  }

  /** Writing the first atom and a blank, then the rest. */
  lemma {:induction false} SpacedCons(xs: seq<Value>, acc: string)
    requires |xs| > 1
    ensures acc + Spaced(xs) + ")" == acc + Text(xs[0]) + " " + Spaced(xs[1..]) + ")"
  {
  }

  /** The chain of present values starts with the first of them. */
  lemma {:induction false} ChainOfPresent(xs: seq<Value>)
    requires |xs| > 0
    ensures Chain(Present(xs)) == Some(Cell(Some(xs[0]), Chain(Present(xs[1..]))))
  {
    assert Present(xs)[1..] == Present(xs[1..]);
  }

  lemma {:induction false} PrintableTail(xs: seq<Value>)
    requires |xs| > 0 && AllPrintable(xs)
    ensures AllPrintable(xs[1..])
  {
    forall k | 0 <= k < |xs| - 1 ensures IsAtom(xs[1..][k]) && Printable(xs[1..][k]) {
      assert xs[1..][k] == xs[k + 1];
    }
  }

  /** The last atom of a chain is written and the list closed. */
  lemma {:induction false} QuoteLastAtom(x: Value, acc: string)
    requires IsAtom(x) && Printable(x)
    ensures SerializeQuote(Some(Cell(Some(x), None)), acc) == Ok(acc + Text(x) + ")")
  {
    if x.Number? {
      var s := acc + IntToString(x.n) + " ";
      assert acc + Serialize(x) == s;
      assert DropSpace(s) == acc + IntToString(x.n);
    } else {
      assert DropSpace(acc + x.name) == acc + x.name;
    }
  }

  /** An atom followed by more of the chain is written with one blank after it. */
  lemma {:induction false} QuoteAtomThen(x: Value, tail: Node, acc: string)
    requires IsAtom(x) && IsCell(tail)
    ensures SerializeQuote(Some(Cell(Some(x), tail)), acc) == SerializeQuote(tail, acc + Text(x) + " ")
  {
    assert acc + Serialize(x) + (if x.Symbol? then " " else "") == acc + Text(x) + " ";
  }

  /** A pair of two numbers prints as `a . b)`. */
  lemma {:induction false} QuoteDottedNumbers(a: int, b: int, acc: string)
    ensures SerializeQuote(Some(Cell(Some(Number(a)), Some(Number(b)))), acc) ==
              Ok(acc + IntToString(a) + " . " + IntToString(b) + ")")
  {
    var s := acc + (IntToString(a) + " ") + ". " + (IntToString(b) + " ");
    assert DropSpace(s) == acc + IntToString(a) + " . " + IntToString(b);
  }

  /** The loop of `Serialize` over the flattened result from leaf `i`, with
      `prev` the leaf before it. */
  function PrintLeaves(nodes: seq<Value>, i: nat, prev: Node, acc: string): (s: string)
    decreases |nodes| - i
  {
    if i >= |nodes| then acc else PrintLeaves(nodes, i + 1, Some(nodes[i]), PrintLeaf(nodes, i, prev, acc))
  }

  /** One pass of that loop: an empty cell prints `(())`, `quote` opens a
      quote form, and the other atoms print as `PrintSymbol` and
      `PrintNumber` say. */
  function PrintLeaf(nodes: seq<Value>, i: nat, prev: Node, acc: string): (s: string)
    requires i < |nodes|
  {
    var x := nodes[i];
    if x.Cell? then acc + "(())"
    else if x.Symbol? then
      if x.name == "quote" then acc + "(quote " else PrintSymbol(x.name, |nodes| == 1, i == |nodes| - 1, acc)
    else PrintNumber(x, Checkers.NumberRun(nodes, i), prev, acc)
  }

  /** Printing a leaf only appends: a blank the loop drops is always one
      it wrote itself for the same leaf. */
  lemma {:induction false} PrintLeafKeeps(nodes: seq<Value>, i: nat, prev: Node, acc: string)
    requires i < |nodes|
    ensures acc <= PrintLeaf(nodes, i, prev, acc)
  {
  }

  /** The whole loop only appends to what was written before it. */
  lemma {:induction false} PrintLeavesKeep(nodes: seq<Value>, i: nat, prev: Node, acc: string)
    ensures acc <= PrintLeaves(nodes, i, prev, acc)
    decreases |nodes| - i
  {
    if i < |nodes| {
      var next := PrintLeaf(nodes, i, prev, acc);
      PrintLeafKeeps(nodes, i, prev, acc);
      PrintLeavesKeep(nodes, i + 1, Some(nodes[i]), next);
    }
  }

  /** A symbol other than `quote`: alone it is written bare; otherwise it
      is followed by a blank, opens a bracket when nothing has been written
      yet, and closes the bracket when it is the last leaf. */
  function PrintSymbol(name: string, alone: bool, last: bool, acc: string): (s: string)
    ensures acc <= s
    ensures s == (if !alone && |acc| == 0 then "(" else acc) + name +
                 (if alone then "" else if last && |acc| > 0 then ")" else " ")
  {
    if alone then acc + name
    else if |acc| == 0 then "(" + name + " "
    else if last then DropSpace(acc + name + " ") + ")"
    else acc + name + " "
  }

  /** A number, with `run` the numbers that follow in a row from it: the
      last of a run closes the bracket when a number precedes it and is
      written bare otherwise; inside a longer run it is followed by a blank,
      and the first of a longer run opens a bracket. */
  function PrintNumber(x: Value, run: nat, prev: Node, acc: string): (s: string)
    requires x.Number?
    ensures acc <= s
  {
    var written := acc + Serialize(x);
    DropAddedBlank(acc + IntToString(x.n));
    if run == 1 && IsNumber(prev) then DropSpace(written) + ")"
    else if run == 1 then DropSpace(written)
    else if IsNumber(prev) then written
    else acc + "(" + Serialize(x)
  }

  /** What a number adds to the text: its decimal, with `(` before the
      first of a run of several numbers, a blank after every number of such
      a run but the last, and `)` after a last number that follows a
      number. The blank the code drops is always the one it just wrote. */
  lemma {:induction false} PrintNumberText(x: Value, run: nat, prev: Node, acc: string)
    requires x.Number?
    ensures PrintNumber(x, run, prev, acc) ==
              acc + (if run != 1 && !IsNumber(prev) then "(" else "") + IntToString(x.n) +
              (if run != 1 then " " else if IsNumber(prev) then ")" else "")
  {
    var d := IntToString(x.n);
    var s := PrintNumber(x, run, prev, acc);
    assert Serialize(x) == d + " ";
    DropAddedBlank(acc + d);
    if run == 1 && IsNumber(prev) {
      assert s == acc + "" + d + ")" by {
        assert acc + "" == acc;
      }
    } else if run == 1 {
      assert s == acc + "" + d + "" by {
        assert acc + "" == acc && acc + d + "" == acc + d;
      }
    } else if IsNumber(prev) {
      assert s == acc + "" + d + " " by {
        assert acc + "" == acc;
        assert acc + (d + " ") == acc + d + " ";
      }
    } else {
      assert s == acc + "(" + d + " " by {
        assert acc + "(" + (d + " ") == acc + "(" + d + " ";
      }
    }
  }

  /** Dropping the blank that was just written gives back the text before it. */
  lemma {:induction false} DropAddedBlank(w: string)
    ensures DropSpace(w + " ") == w
  {
    assert (w + " ")[..|w|] == w;
  }

  /** Does the original form start with the symbol `quote` and carry a payload? */
  predicate IsQuoteForm(original: seq<Value>) {
    |original| > 1 && original[0] == Symbol("quote")
  }

  /** `Interpreter::Serialize`. For a quote form the payload of the original form is
      printed: a cell whose first slot is a cell prints from that first slot,
      any other cell prints whole, and an atom prints bare with a closing
      bracket after it. Otherwise the flattened result is printed leaf by
      leaf, and an empty result prints `()`. Reading the name of a first leaf
      that is a cell is undefined. */
  function SerializeResult(nodes: seq<Value>, original: seq<Value>): (r: Result<string>)
    ensures r.Err? ==> r.error == Undefined
    ensures r.Ok? && !IsQuoteForm(original) && |nodes| == 0 ==> r.value == "()"
    ensures (|original| == 0 || original[0].Number?) ==> r.Ok?
  {
    if |original| > 0 && original[0].Cell? then Err(Undefined)
    else if IsQuoteForm(original) then
      var payload := original[1];
      if payload.Cell? then
        if IsCell(payload.first) then SerializeQuote(payload.first, "(")
        else SerializeQuote(Some(payload), "(")
      else
        var s := SerializeQuote(Some(payload), "").value;
        CloseList(s)
    else if |nodes| == 0 then Ok("()")
    else Ok(PrintLeaves(nodes, 0, None, ""))
  }

  /** A lone number prints in decimal with no blank, and a lone symbol other
      than `quote` prints as its name. */
  lemma {:induction false} PrintLoneAtom(x: Value, original: seq<Value>)
    requires IsAtom(x) && x != Symbol("quote")
    requires !IsQuoteForm(original) && (|original| > 0 ==> !original[0].Cell?)
    ensures SerializeResult([x], original) == Ok(Text(x))
  {
    var s := PrintLeaf([x], 0, None, "");
    assert SerializeResult([x], original) == Ok(PrintLeaves([x], 0, None, ""));
    assert PrintLeaves([x], 0, None, "") == PrintLeaves([x], 1, Some(x), s) == s;
    if x.Number? {
      assert Checkers.NumberRun([x], 0) == 1;
      var written := "" + Serialize(x);
      assert s == PrintNumber(x, 1, None, "") == DropSpace(written);
      assert written == IntToString(x.n) + " ";
      assert DropSpace(written) == IntToString(x.n);
    } else {
      assert s == PrintSymbol(x.name, true, true, "") == x.name;
    }
  }

  /** A quote form whose payload is a list of atoms prints that list. */
  lemma {:induction false} PrintQuotedList(xs: seq<Value>, nodes: seq<Value>)
    requires |xs| > 0 && AllPrintable(xs)
    ensures SerializeResult(nodes, [Symbol("quote"), Chain(Present(xs)).value]) == Ok("(" + Spaced(xs) + ")")
  {
    ChainOfPresent(xs);
    QuoteChainOfAtoms(xs, "(");
  }

  /** A quote form whose payload is a number keeps the number's trailing
      blank, adds one more, drops only one of them, and closes a bracket
      that was never opened. */
  lemma {:induction false} PrintQuotedNumber(n: int, nodes: seq<Value>)
    ensures SerializeResult(nodes, [Symbol("quote"), Number(n)]) == Ok(IntToString(n) + " )")
  {
    var s := "" + Serialize(Number(n)) + " ";
    assert SerializeQuote(Some(Number(n)), "") == Ok(s);
    assert s == IntToString(n) + "  ";
    assert DropSpace(s) == IntToString(n) + " ";
    var d := IntToString(n);
    assert |s| > 0;
    assert CloseList(s) == Ok(DropSpace(s) + ")");
    assert d + " " + ")" == d + " )";
  }

  /** A run of two or more numbers prints as a bracketed list. */
  lemma {:induction false} PrintNumbers(nodes: seq<Value>, original: seq<Value>)
    requires |nodes| >= 2 && forall k :: 0 <= k < |nodes| ==> nodes[k].Number?
    requires !IsQuoteForm(original) && (|original| > 0 ==> !original[0].Cell?)
    ensures SerializeResult(nodes, original) == Ok("(" + Spaced(nodes) + ")")
  {
    var first := "(" + IntToString(nodes[0].n) + " ";
    NumberRunOfNumbers(nodes, 0);
    assert PrintLeaf(nodes, 0, None, "") == "" + "(" + Serialize(nodes[0]) == first;
    assert nodes[..1] == [nodes[0]];
    PrintNumberRun(nodes, 1, "(");
    assert PrintLeaves(nodes, 0, None, "") == PrintLeaves(nodes, 1, Some(nodes[0]), first);
  }

  /** Inside a run of numbers that opened a bracket, each number is written
      with a blank after it and the last one closes the bracket. */
  lemma {:induction false} PrintNumberRun(nodes: seq<Value>, i: nat, head: string)
    requires 1 <= i < |nodes| && forall k :: 0 <= k < |nodes| ==> nodes[k].Number?
    ensures var acc := head + Spaced(nodes[..i]) + " ";
            PrintLeaves(nodes, i, Some(nodes[i - 1]), acc) == head + Spaced(nodes) + ")"
    decreases |nodes| - i
  {
    StepInRun(nodes, i, head);
    if i < |nodes| - 1 {
      PrintNumberRun(nodes, i + 1, head);
    }
  }

  /** One number of such a run: the last one finishes the text, any other
      leaves the run so far and a blank for the next. */
  lemma {:induction false} StepInRun(nodes: seq<Value>, i: nat, head: string)
    requires 1 <= i < |nodes| && forall k :: 0 <= k < |nodes| ==> nodes[k].Number?
    ensures var acc := head + Spaced(nodes[..i]) + " ";
            PrintLeaves(nodes, i, Some(nodes[i - 1]), acc) ==
              if i == |nodes| - 1 then head + Spaced(nodes) + ")"
              else PrintLeaves(nodes, i + 1, Some(nodes[i]), head + Spaced(nodes[..i + 1]) + " ")
  {
    var acc := head + Spaced(nodes[..i]) + " ";
    var next := head + Spaced(nodes[..i + 1]) + (if i == |nodes| - 1 then ")" else " ");
    assert PrintLeaves(nodes, i, Some(nodes[i - 1]), acc) == PrintLeaves(nodes, i + 1, Some(nodes[i]), next) by {
      PrintLeavesStep(nodes, i, Some(nodes[i - 1]), acc);
      NextInRun(nodes, i, head);
    }
    if i == |nodes| - 1 {
      assert next == head + Spaced(nodes) + ")" by {
        assert nodes[..i + 1] == nodes;
      }
      PrintLeavesDone(nodes, i + 1, Some(nodes[i]), next);
    }
  }

  /** One pass of the loop over the leaves. */
  lemma {:induction false} PrintLeavesStep(nodes: seq<Value>, i: nat, prev: Node, acc: string)
    requires i < |nodes|
    ensures PrintLeaves(nodes, i, prev, acc) == PrintLeaves(nodes, i + 1, Some(nodes[i]), PrintLeaf(nodes, i, prev, acc))
  {
  }

  /** Past the last leaf the loop leaves the text as it is. */
  lemma {:induction false} PrintLeavesDone(nodes: seq<Value>, i: nat, prev: Node, acc: string)
    requires i >= |nodes|
    ensures PrintLeaves(nodes, i, prev, acc) == acc
  {
  }

  /** The text after the `i`-th number of a bracketed run: the run so far,
      then a blank, or the closing bracket after the last number. */
  lemma {:induction false} NextInRun(nodes: seq<Value>, i: nat, head: string)
    requires 1 <= i < |nodes| && forall k :: 0 <= k < |nodes| ==> nodes[k].Number?
    ensures PrintLeaf(nodes, i, Some(nodes[i - 1]), head + Spaced(nodes[..i]) + " ") ==
              head + Spaced(nodes[..i + 1]) + (if i == |nodes| - 1 then ")" else " ")
  {
    var acc := head + Spaced(nodes[..i]) + " ";
    PrintLeafInRun(nodes, i, acc);
    SpacedExtend(nodes, i);
    Regroup(head, Spaced(nodes[..i]), IntToString(nodes[i].n), if i == |nodes| - 1 then ")" else " ");
  }

  lemma {:induction false} Regroup(head: string, a: string, t: string, suffix: string)
    ensures head + a + " " + t + suffix == head + (a + " " + t) + suffix
  {
  }

  /** A number inside a run of numbers after another number is written in
      decimal with a blank after it, and the last one closes the bracket. */
  lemma {:induction false} PrintLeafInRun(nodes: seq<Value>, i: nat, acc: string)
    requires 1 <= i < |nodes| && forall k :: 0 <= k < |nodes| ==> nodes[k].Number?
    ensures PrintLeaf(nodes, i, Some(nodes[i - 1]), acc) ==
              acc + IntToString(nodes[i].n) + (if i == |nodes| - 1 then ")" else " ")
  {
    NumberRunOfNumbers(nodes, i);
    PrintNumberText(nodes[i], |nodes| - i, Some(nodes[i - 1]), acc);
  }

  /** One more number extends the blank-separated text by a blank and its
      decimal. */
  lemma {:induction false} SpacedExtend(nodes: seq<Value>, i: nat)
    requires 1 <= i < |nodes| && nodes[i].Number?
    ensures Spaced(nodes[..i + 1]) == Spaced(nodes[..i]) + " " + IntToString(nodes[i].n)
  {
    var ys := nodes[..i + 1];
    SpacedSnoc(ys);
    assert ys[..i] == nodes[..i] && ys[i] == nodes[i];
  }

  /** In a sequence of numbers, the run from `i` reaches the end. */
  lemma {:induction false} NumberRunOfNumbers(nodes: seq<Value>, i: nat)
    requires i <= |nodes| && forall k :: 0 <= k < |nodes| ==> nodes[k].Number?
    ensures Checkers.NumberRun(nodes, i) == |nodes| - i
    decreases |nodes| - i
  {
    if i < |nodes| {
      NumberRunOfNumbers(nodes, i + 1);
    }
  }

  /** Adding one atom at the end of the blank-separated text. */
  lemma {:induction false} SpacedSnoc(xs: seq<Value>)
    requires |xs| >= 2
    ensures Spaced(xs) == Spaced(xs[..|xs| - 1]) + " " + Text(xs[|xs| - 1])
    decreases |xs|
  {
    if |xs| == 2 {
      assert xs[..1] == [xs[0]];
      assert xs[1..] == [xs[1]];
    } else {
      var tail := xs[1..];
      SpacedSnoc(tail);
      assert tail[|tail| - 1] == xs[|xs| - 1];
      SpacedSnocStep(xs);
    }
  }

  /** The inductive step of `SpacedSnoc`: the equation for `xs` follows from
      the equation for its tail. */
  lemma {:induction false} SpacedSnocStep(xs: seq<Value>)
    requires |xs| > 2
    requires Spaced(xs[1..]) == Spaced(xs[1..][..|xs| - 2]) + " " + Text(xs[|xs| - 1])
    ensures Spaced(xs) == Spaced(xs[..|xs| - 1]) + " " + Text(xs[|xs| - 1])
  {
    var init := xs[..|xs| - 1];
    assert xs[1..][..|xs| - 2] == init[1..];
    assert init[0] == xs[0];
    var head := Text(xs[0]);
    var mid := Spaced(init[1..]);
    var last := Text(xs[|xs| - 1]);
    assert Spaced(init) == head + " " + mid;
    assert head + " " + (mid + " " + last) == (head + " " + mid) + " " + last;
  }

}
