/** What each operation object computes over a whole run of operands, stated
    against reference definitions that do not mention the objects' fields. */
module ReducerLaws {
  import opened Common
  import opened Values
  import opened Reducers

  /** The numbers among `xs`, in order; other objects are skipped. */
  function Numbers(xs: seq<Value>): (ns: seq<int>)
    ensures |ns| <= |xs|
    decreases |xs|
  {
    if |xs| == 0 then []
    else (if xs[0].Number? then [xs[0].n] else []) + Numbers(xs[1..])
  }

  function Sum(ns: seq<int>): int
    decreases |ns|
  {
    if |ns| == 0 then 0 else ns[0] + Sum(ns[1..])
  }

  function Product(ns: seq<int>): int
    decreases |ns|
  {
    if |ns| == 0 then 1 else ns[0] * Product(ns[1..])
  }

  /** Sum of magnitudes: a bound on every partial sum. */
  function MagnitudeSum(ns: seq<int>): nat
    decreases |ns|
  {
    if |ns| == 0 then 0 else Magnitude(ns[0]) + MagnitudeSum(ns[1..])
  }

  /** Every neighbouring pair of `ns` stands in `rel`. */
  predicate Chained(rel: Relation, ns: seq<int>) {
    forall i :: 0 <= i < |ns| - 1 ==> Holds(rel, ns[i], ns[i + 1])
  }

  lemma {:induction false} NumbersCons(xs: seq<Value>)
    requires |xs| > 0
    ensures var h := if xs[0].Number? then xs[0].n else 0;
            Sum(Numbers(xs)) == h + Sum(Numbers(xs[1..]))
            && MagnitudeSum(Numbers(xs)) == Magnitude(h) + MagnitudeSum(Numbers(xs[1..]))
    ensures var h := if xs[0].Number? then xs[0].n else 1;
            Product(Numbers(xs)) == h * Product(Numbers(xs[1..]))
  {
    var rest := Numbers(xs[1..]);
    if xs[0].Number? {
      assert Numbers(xs) == [xs[0].n] + rest;
      assert ([xs[0].n] + rest)[1..] == rest;
    } else {
      assert Numbers(xs) == rest;
    }
  }

  /** `+` over a run of operands: the running sum of the numbers among them,
      returned after every call. */
  lemma {:induction false} AddSums(sum: int, out: Node, xs: seq<Value>)
    ensures var r := Feed(Stepped(Add(sum), out), xs);
            r.Ok? ==> r.value.next == Add(sum + Sum(Numbers(xs)))
                      && (|xs| > 0 ==> r.value.out == Some(Number(sum + Sum(Numbers(xs)))))
    decreases |xs|
  {
    if |xs| > 0 {
      var s := Step(Add(sum), Some(xs[0]));
      if s.Ok? {
        var t := sum + (if xs[0].Number? then xs[0].n else 0);
        assert s.value.next == Add(t);
        NumbersCons(xs);
        AddSums(t, s.value.out, xs[1..]);
        if |xs| == 1 {
          assert xs[1..] == [];
        }
      }
    }
  }

  /** `+` never overflows when the magnitudes involved fit in `int64_t`. */
  lemma {:induction false} AddDefined(sum: int, out: Node, xs: seq<Value>)
    requires Magnitude(sum) + MagnitudeSum(Numbers(xs)) <= INT64_MAX
    ensures Feed(Stepped(Add(sum), out), xs).Ok?
    decreases |xs|
  {
    if |xs| > 0 {
      var t := sum + (if xs[0].Number? then xs[0].n else 0);
      NumbersCons(xs);
      assert Magnitude(t) + MagnitudeSum(Numbers(xs[1..])) <= INT64_MAX;
      assert Step(Add(sum), Some(xs[0])).Ok?;
      AddDefined(t, Step(Add(sum), Some(xs[0])).value.out, xs[1..]);
    }
  }

  /** `*` over a run of operands: the running product of the numbers. */
  lemma {:induction false} MultiplyMultiplies(product: int, out: Node, xs: seq<Value>)
    ensures var r := Feed(Stepped(Multiply(product), out), xs);
            r.Ok? ==> r.value.next == Multiply(product * Product(Numbers(xs)))
                      && (|xs| > 0 ==> r.value.out == Some(Number(product * Product(Numbers(xs)))))
    decreases |xs|
  {
    if |xs| > 0 {
      var p := if xs[0].Number? then xs[0].n else 1;
      MultiplyStep(product, xs[0]);
      var s := Step(Multiply(product), Some(xs[0]));
      if s.Ok? {
        NumbersCons(xs);
        MultiplyMultiplies(product * p, s.value.out, xs[1..]);
        var rest := Product(Numbers(xs[1..]));
        assert product * p * rest == product * (p * rest);
        if |xs| == 1 {
          assert xs[1..] == [];
        }
      }
    }
  }

  /** One call of `*`: a number multiplies the product, any other object
      leaves it as it is. */
  lemma {:induction false} MultiplyStep(product: int, x: Value)
    ensures var p := if x.Number? then x.n else 1;
            var s := Step(Multiply(product), Some(x));
            s.Ok? ==> s.value == Stepped(Multiply(product * p), Some(Number(product * p)))
  {
  }

  /** Once `-` has its first number, each later number is subtracted. */
  lemma {:induction false} SubtractStarted(total: int, out: Node, xs: seq<Value>)
    ensures var r := Feed(Stepped(Subtract(true, total), out), xs);
            r.Ok? ==> r.value.next == Subtract(true, total - Sum(Numbers(xs)))
                      && (|xs| > 0 ==> r.value.out == Some(Number(total - Sum(Numbers(xs)))))
    decreases |xs|
  {
    if |xs| > 0 {
      var s := Step(Subtract(true, total), Some(xs[0]));
      if s.Ok? {
        var t := total - (if xs[0].Number? then xs[0].n else 0);
        assert s.value.next == Subtract(true, t);
        NumbersCons(xs);
        SubtractStarted(t, s.value.out, xs[1..]);
        if |xs| == 1 {
          assert xs[1..] == [];
        }
      }
    }
  }

  /** `-` from its initial state: the first number minus all later numbers. */
  lemma {:induction false} SubtractDifference(out: Node, xs: seq<Value>)
    ensures var r := Feed(Stepped(Subtract(false, 0), out), xs);
            var ns := Numbers(xs);
            r.Ok? && |ns| > 0 ==> r.value.out == Some(Number(ns[0] - Sum(ns[1..])))
    decreases |xs|
  {
    if |xs| > 0 {
      var s := Step(Subtract(false, 0), Some(xs[0]));
      if s.Ok? {
        if xs[0].Number? {
          assert s.value.next == Subtract(true, xs[0].n);
          SubtractStarted(xs[0].n, s.value.out, xs[1..]);
          assert Numbers(xs) == [xs[0].n] + Numbers(xs[1..]);
          assert Numbers(xs)[1..] == Numbers(xs[1..]);
          if |xs| == 1 {
            assert xs[1..] == [];
          }
        } else {
          assert s.value.next == Subtract(false, 0);
          assert Numbers(xs) == Numbers(xs[1..]);
          SubtractDifference(s.value.out, xs[1..]);
        }
      }
    }
  }

  /** Once `-` has its first number, it never overflows when the magnitudes
      involved fit in `int64_t`. */
  lemma {:induction false} SubtractStartedDefined(total: int, out: Node, xs: seq<Value>)
    requires Magnitude(total) + MagnitudeSum(Numbers(xs)) <= INT64_MAX
    ensures Feed(Stepped(Subtract(true, total), out), xs).Ok?
    decreases |xs|
  {
    if |xs| > 0 {
      var t := total - (if xs[0].Number? then xs[0].n else 0);
      NumbersCons(xs);
      assert Magnitude(t) + MagnitudeSum(Numbers(xs[1..])) <= INT64_MAX;
      assert Step(Subtract(true, total), Some(xs[0])).Ok?;
      SubtractStartedDefined(t, Step(Subtract(true, total), Some(xs[0])).value.out, xs[1..]);
    }
  }

  /** `-` from its initial state never overflows when the magnitudes of its
      numbers add up to no more than the largest `int64_t`. */
  lemma {:induction false} SubtractDefined(out: Node, xs: seq<Value>)
    requires MagnitudeSum(Numbers(xs)) <= INT64_MAX
    ensures Feed(Stepped(Subtract(false, 0), out), xs).Ok?
    decreases |xs|
  {
    if |xs| > 0 {
      NumbersCons(xs);
      var s := Step(Subtract(false, 0), Some(xs[0]));
      if xs[0].Number? {
        assert s == Ok(Stepped(Subtract(true, xs[0].n), Some(Number(xs[0].n))));
        SubtractStartedDefined(xs[0].n, s.value.out, xs[1..]);
      } else {
        assert s.Ok? && s.value.next == Subtract(false, 0);
        SubtractDefined(s.value.out, xs[1..]);
      }
    }
  }

  /** Once `/` has its first number, the running quotient never grows in
      magnitude, since every divisor is a non-zero integer. */
  lemma {:induction false} DivideShrinks(total: int, out: Node, xs: seq<Value>)
    ensures var r := Feed(Stepped(Divide(true, total), out), xs);
            r.Ok? ==> r.value.next.Divide? && Magnitude(r.value.next.total) <= Magnitude(total)
    decreases |xs|
  {
    if |xs| > 0 {
      var s := Step(Divide(true, total), Some(xs[0]));
      if s.Ok? {
        var t := s.value.next.total;
        if xs[0].Number? {
          TruncDivShrinks(total, xs[0].n);
        }
        DivideShrinks(t, s.value.out, xs[1..]);
      }
    }
  }

  /** Dividing by zero is undefined. */
  lemma {:induction false} DivideByZero(total: int)
    ensures Step(Divide(true, total), Some(Number(0))) == Err(Undefined)
  {
  }

  /** Left-to-right truncating division of `t` by each of `ns` in turn. The
      fold stops at a zero divisor, where `/` is undefined. */
  function Quotient(t: int, ns: seq<int>): int
    decreases |ns|
  {
    if |ns| == 0 || ns[0] == 0 then t else Quotient(TruncDiv(t, ns[0]), ns[1..])
  }

  /** `/` once started: the running quotient of the total by each later
      number, returned after every call. */
  lemma {:induction false} DivideQuotient(total: int, out: Node, xs: seq<Value>)
    ensures var r := Feed(Stepped(Divide(true, total), out), xs);
            r.Ok? ==> r.value.next == Divide(true, Quotient(total, Numbers(xs)))
                      && (|xs| > 0 ==> r.value.out == Some(Number(Quotient(total, Numbers(xs)))))
    decreases |xs|
  {
    if |xs| > 0 {
      var s := Step(Divide(true, total), Some(xs[0]));
      if s.Ok? {
        var t := s.value.next.total;
        var rest := Numbers(xs[1..]);
        if xs[0].Number? {
          assert xs[0].n != 0 && t == TruncDiv(total, xs[0].n);
          assert Numbers(xs) == [xs[0].n] + rest;
          assert ([xs[0].n] + rest)[1..] == rest;
        } else {
          assert t == total && Numbers(xs) == rest;
        }
        DivideQuotient(t, s.value.out, xs[1..]);
        if |xs| == 1 {
          assert xs[1..] == [];
        }
      }
    }
  }

  /** `/` from its initial state: the first number divided in turn by every
      later number. */
  lemma {:induction false} DivideFromStart(out: Node, xs: seq<Value>)
    ensures var r := Feed(Stepped(Divide(false, 1), out), xs);
            var ns := Numbers(xs);
            r.Ok? && |ns| > 0 ==> r.value.out == Some(Number(Quotient(ns[0], ns[1..])))
    decreases |xs|
  {
    if |xs| > 0 {
      var s := Step(Divide(false, 1), Some(xs[0]));
      if s.Ok? {
        if xs[0].Number? {
          assert s.value.next == Divide(true, xs[0].n);
          DivideQuotient(xs[0].n, s.value.out, xs[1..]);
          assert Numbers(xs) == [xs[0].n] + Numbers(xs[1..]);
          assert Numbers(xs)[1..] == Numbers(xs[1..]);
          if |xs| == 1 {
            assert xs[1..] == [];
          }
        } else {
          assert s.value.next == Divide(false, 1);
          assert Numbers(xs) == Numbers(xs[1..]);
          DivideFromStart(s.value.out, xs[1..]);
        }
      }
    }
  }

  /** Once started on a total that fits in `int64_t`, `/` is defined exactly
      when no later number is zero, since the quotient never outgrows the
      total. */
  lemma {:induction false} DivideDefined(total: int, out: Node, xs: seq<Value>)
    requires Magnitude(total) <= INT64_MAX
    ensures Feed(Stepped(Divide(true, total), out), xs).Ok? <==> 0 !in Numbers(xs)
    decreases |xs|
  {
    if |xs| > 0 {
      var rest := Numbers(xs[1..]);
      if xs[0].Number? {
        assert Numbers(xs) == [xs[0].n] + rest;
        if xs[0].n == 0 {
          assert Step(Divide(true, total), Some(xs[0])) == Err(Undefined);
        } else {
          var t := TruncDiv(total, xs[0].n);
          TruncDivShrinks(total, xs[0].n);
          assert Step(Divide(true, total), Some(xs[0])) == Ok(Stepped(Divide(true, t), Some(Number(t))));
          DivideDefined(t, Some(Number(t)), xs[1..]);
        }
      } else {
        assert Numbers(xs) == rest;
        assert Step(Divide(true, total), Some(xs[0])) == Ok(Stepped(Divide(true, total), Some(Number(total))));
        DivideDefined(total, Some(Number(total)), xs[1..]);
      }
    }
  }

  /** Once started, a zero among the later numbers makes `/` undefined,
      whatever the total. */
  lemma {:induction false} DivideZeroAnywhere(total: int, out: Node, xs: seq<Value>)
    requires 0 in Numbers(xs)
    ensures Feed(Stepped(Divide(true, total), out), xs) == Err(Undefined)
    decreases |xs|
  {
    var rest := Numbers(xs[1..]);
    var s := Step(Divide(true, total), Some(xs[0]));
    if xs[0] == Number(0) {
      assert s == Err(Undefined);
    } else if s.Ok? {
      if xs[0].Number? {
        assert Numbers(xs) == [xs[0].n] + rest;
      } else {
        assert Numbers(xs) == rest;
      }
      DivideZeroAnywhere(s.value.next.total, s.value.out, xs[1..]);
    }
  }

  /** `max` answers an upper bound of the numbers seen that is either one of
      them or the starting value. */
  lemma {:induction false} MaximumIsMaximum(max: int, out: Node, xs: seq<Value>)
    ensures var r := Feed(Stepped(Maximum(max), out), xs);
            r.Ok? && r.value.next.Maximum?
            && var m := r.value.next.max;
               m >= max
               && (forall i :: 0 <= i < |xs| && xs[i].Number? ==> xs[i].n <= m)
               && (m == max || exists i :: 0 <= i < |xs| && xs[i] == Number(m))
               && (|xs| > 0 ==> r.value.out == Some(Number(m)))
    decreases |xs|
  {
    if |xs| > 0 {
      var s := Step(Maximum(max), Some(xs[0])).value;
      var m0 := s.next.max;
      MaximumIsMaximum(m0, s.out, xs[1..]);
      if |xs| == 1 {
        assert xs[1..] == [];
      }
      var m := Feed(s, xs[1..]).value.next.max;
      forall i | 0 <= i < |xs| && xs[i].Number? ensures xs[i].n <= m {
        if i > 0 {
          assert xs[1..][i - 1] == xs[i];
        }
      }
      if m != max {
        if m == m0 {
          assert xs[0] == Number(m);
        } else {
          var k :| 0 <= k < |xs[1..]| && xs[1..][k] == Number(m);
          assert xs[k + 1] == Number(m);
        }
      }
    }
  }

  /** `min` answers a lower bound of the numbers seen that is either one of
      them or the starting value. */
  lemma {:induction false} MinimumIsMinimum(min: int, out: Node, xs: seq<Value>)
    ensures var r := Feed(Stepped(Minimum(min), out), xs);
            r.Ok? && r.value.next.Minimum?
            && var m := r.value.next.min;
               m <= min
               && (forall i :: 0 <= i < |xs| && xs[i].Number? ==> m <= xs[i].n)
               && (m == min || exists i :: 0 <= i < |xs| && xs[i] == Number(m))
               && (|xs| > 0 ==> r.value.out == Some(Number(m)))
    decreases |xs|
  {
    if |xs| > 0 {
      var s := Step(Minimum(min), Some(xs[0])).value;
      var m0 := s.next.min;
      MinimumIsMinimum(m0, s.out, xs[1..]);
      if |xs| == 1 {
        assert xs[1..] == [];
      }
      var m := Feed(s, xs[1..]).value.next.min;
      forall i | 0 <= i < |xs| && xs[i].Number? ensures m <= xs[i].n {
        if i > 0 {
          assert xs[1..][i - 1] == xs[i];
        }
      }
      if m != min {
        if m == m0 {
          assert xs[0] == Number(m);
        } else {
          var k :| 0 <= k < |xs[1..]| && xs[1..][k] == Number(m);
          assert xs[k + 1] == Number(m);
        }
      }
    }
  }

  /** `abs` keeps only the magnitude of the latest number. */
  lemma {:induction false} AbsoluteOfLatest(abs: int, out: Node, xs: seq<Value>)
    ensures var r := Feed(Stepped(Absolute(abs), out), xs);
            var ns := Numbers(xs);
            r.Ok? ==> r.value.next == Absolute(if |ns| == 0 then abs else Magnitude(ns[|ns| - 1]))
    decreases |xs|
  {
    if |xs| > 0 {
      var s := Step(Absolute(abs), Some(xs[0]));
      if s.Ok? {
        AbsoluteOfLatest(s.value.next.abs, s.value.out, xs[1..]);
      }
    }
  }

  /** The numbers `ns` as objects. */
  function Nums(ns: seq<int>): (xs: seq<Value>)
    ensures |xs| == |ns| && forall i :: 0 <= i < |xs| ==> xs[i].Number?
  {
    if |ns| == 0 then [] else [Number(ns[0])] + Nums(ns[1..])
  }

  /** The numbers among the objects built from a run of integers are that run. */
  lemma {:induction false} NumbersOfNums(ns: seq<int>)
    ensures Numbers(Nums(ns)) == ns
    decreases |ns|
  {
    if |ns| > 0 {
      var xs := Nums(ns);
      assert xs[0] == Number(ns[0]) && xs[1..] == Nums(ns[1..]);
      NumbersOfNums(ns[1..]);
      assert [ns[0]] + ns[1..] == ns;
    }
  }

  /** The objects built from a run of integers are those integers, in order. */
  lemma {:induction false} NumsAt(ns: seq<int>)
    ensures forall i :: 0 <= i < |ns| ==> Nums(ns)[i] == Number(ns[i])
    decreases |ns|
  {
    if |ns| > 0 {
      NumsAt(ns[1..]);
      forall i | 0 <= i < |ns| ensures Nums(ns)[i] == Number(ns[i]) {
        if i > 0 {
          assert Nums(ns)[i] == Nums(ns[1..])[i - 1];
        }
      }
    }
  }

  /** A chain comparison that has stored a number answers, over further
      numbers, whether the whole run from that number on is chained. */
  lemma {:induction false} CompareChains(rel: Relation, prev: int, out: Node, ns: seq<int>)
    ensures var r := Feed(Stepped(Compare(rel, true, prev, false), out), Nums(ns));
            r.Ok? && (|ns| > 0 ==> r.value.out == Some(Bool(Chained(rel, [prev] + ns))))
    decreases |ns|
  {
    if |ns| > 0 {
      var xs := Nums(ns);
      assert xs[0] == Number(ns[0]) && xs[1..] == Nums(ns[1..]);
      ChainedCons(rel, prev, ns);
      if Holds(rel, prev, ns[0]) {
        var s := Stepped(Compare(rel, true, ns[0], false), Some(Bool(true)));
        assert Step(Compare(rel, true, prev, false), Some(xs[0])) == Ok(s);
        CompareChains(rel, ns[0], Some(Bool(true)), ns[1..]);
        assert [ns[0]] + ns[1..] == ns;
      } else {
        var s := Stepped(Compare(rel, true, prev, true), Some(Bool(false)));
        assert Step(Compare(rel, true, prev, false), Some(xs[0])) == Ok(s);
        BrokenStaysFalse(rel, prev, Some(Bool(false)), xs[1..]);
      }
    }
  }

  lemma {:induction false} ChainedCons(rel: Relation, p: int, ns: seq<int>)
    requires |ns| > 0
    ensures Chained(rel, [p] + ns) <==> Holds(rel, p, ns[0]) && Chained(rel, ns)
  {
    var ps := [p] + ns;
    assert ps[0] == p && ps[1] == ns[0];
    if Holds(rel, p, ns[0]) && Chained(rel, ns) {
      forall i | 0 <= i < |ps| - 1 ensures Holds(rel, ps[i], ps[i + 1]) {
        if i > 0 {
          assert ps[i] == ns[i - 1] && ps[i + 1] == ns[i];
        }
      }
    }
    if Chained(rel, ps) {
      assert Holds(rel, ps[0], ps[1]);
      forall i | 0 <= i < |ns| - 1 ensures Holds(rel, ns[i], ns[i + 1]) {
        assert ps[i + 1] == ns[i] && ps[i + 2] == ns[i + 1];
        assert Holds(rel, ps[i + 1], ps[i + 2]);
      }
    }
  }

  /** A chain comparison that answered `#f` answers `#f` to everything after. */
  lemma {:induction false} BrokenStaysFalse(rel: Relation, prev: int, out: Node, xs: seq<Value>)
    ensures var r := Feed(Stepped(Compare(rel, true, prev, true), out), xs);
            r.Ok? && r.value.next == Compare(rel, true, prev, true)
            && (|xs| > 0 ==> r.value.out == Some(Bool(false)))
    decreases |xs|
  {
    if |xs| > 0 {
      BrokenStaysFalse(rel, prev, Some(Bool(false)), xs[1..]);
    }
  }

  /** From its initial state, after the null seed, a chain comparison over
      numbers answers whether they are chained by its relation. */
  lemma {:induction false} CompareFromStart(rel: Relation, ns: seq<int>)
    requires |ns| > 0
    ensures var seeded := Step(Compare(rel, false, 0, false), None);
            seeded.Ok? && seeded.value.out == Some(Bool(true))
            && var r := Feed(seeded.value, Nums(ns));
               r.Ok? && r.value.out == Some(Bool(Chained(rel, ns)))
  {
    var xs := Nums(ns);
    var seeded := Stepped(Compare(rel, false, 0, false), Some(Bool(true)));
    assert Step(Compare(rel, false, 0, false), None) == Ok(seeded);
    var first := Stepped(Compare(rel, true, ns[0], false), Some(Bool(true)));
    assert xs[0] == Number(ns[0]) && xs[1..] == Nums(ns[1..]);
    assert Step(seeded.next, Some(xs[0])) == Ok(first);
    CompareChains(rel, ns[0], first.out, ns[1..]);
    assert [ns[0]] + ns[1..] == ns;
  }

  /** `number?`, `boolean?` and `null?` answer `#t` to their first operand,
      whatever it is. */
  lemma {:induction false} TestsAcceptFirst(x: Node)
    ensures Step(NumberTest(false), x) == Ok(Stepped(NumberTest(true), Some(Bool(true))))
    ensures Step(BooleanTest(false), x) == Ok(Stepped(BooleanTest(true), Some(Bool(true))))
    ensures Step(NullTest(false), x) == Ok(Stepped(NullTest(true), Some(Bool(true))))
  {
  }

  /** After the first call the type tests judge only the operand at hand. */
  lemma {:induction false} TestsJudgeOperand(x: Node)
    ensures Step(NumberTest(true), x) == Ok(Stepped(NumberTest(true), Some(Bool(x.None? || x.value.Number?))))
    ensures Step(BooleanTest(true), x) ==
              Ok(Stepped(BooleanTest(true), Some(Bool(x.None? || x == Some(Symbol("#t")) || x == Some(Symbol("#f"))))))
    ensures Step(NullTest(true), x) == Ok(Stepped(NullTest(true), Some(Bool(x.None? || x == Some(Symbol("quote"))))))
    ensures Step(PairTest, x) == Ok(Stepped(PairTest, Some(Bool(x.Some? && x != Some(Symbol("quote"))))))
  {
    AtomTestsJudgeOperand(x);
    ListTestsJudgeOperand(x);
  }

  /** `number?` and `boolean?` after their first call. */
  lemma {:induction false} AtomTestsJudgeOperand(x: Node)
    ensures Step(NumberTest(true), x) == Ok(Stepped(NumberTest(true), Some(Bool(x.None? || x.value.Number?))))
    ensures Step(BooleanTest(true), x) ==
              Ok(Stepped(BooleanTest(true), Some(Bool(x.None? || x == Some(Symbol("#t")) || x == Some(Symbol("#f"))))))
  {
  }

  /** `null?` after its first call, and `pair?`. */
  lemma {:induction false} ListTestsJudgeOperand(x: Node)
    ensures Step(NullTest(true), x) == Ok(Stepped(NullTest(true), Some(Bool(x.None? || x == Some(Symbol("quote"))))))
    ensures Step(PairTest, x) == Ok(Stepped(PairTest, Some(Bool(x.Some? && x != Some(Symbol("quote"))))))
  {
  }

  /** `not` maps null and `#f` to `#t` and every other object to `#f`. */
  lemma {:induction false} NotTable(x: Node)
    ensures Step(Not, x).value.out == Some(Bool(x.None? || x == Some(Symbol("#f"))))
  {
  }

  /** `not` applied twice to a boolean gives the boolean back. */
  lemma {:induction false} NotInvolution(b: bool)
    ensures Step(Not, Step(Not, Some(Bool(b))).value.out).value.out == Some(Bool(b))
  {
    NotTable(Some(Bool(b)));
    NotTable(Some(Bool(!b)));
  }

  /** `cons` of two objects builds the pair, and `car` and `cdr` take it apart. */
  lemma {:induction false} ConsCarCdr(a: Value, b: Value)
    ensures var r := Feed(Stepped(Cons(None), None), [a, b]);
            r.Ok? && r.value.out == Some(Cell(Some(a), Some(b)))
            && Step(Car, r.value.out) == Ok(Stepped(Car, Some(a)))
            && Step(Cdr, r.value.out) == Ok(Stepped(Cdr, Some(b)))
  {
    ConsBuildsPair(a, b);
    CarCdrOfPair(Some(a), Some(b));
  }

  /** Fed two objects, `cons` answers the pair of them. */
  lemma {:induction false} ConsBuildsPair(a: Value, b: Value)
    ensures Feed(Stepped(Cons(None), None), [a, b]) == Ok(Stepped(Cons(Some(a)), Some(Cell(Some(a), Some(b)))))
  {
    var s1 := Stepped(Cons(Some(a)), Some(a));
    var s2 := Stepped(Cons(Some(a)), Some(Cell(Some(a), Some(b))));
    assert Step(Cons(None), Some(a)) == Ok(s1);
    assert Step(s1.next, Some(b)) == Ok(s2);
    assert [a, b][1..] == [b];
    assert [b][1..] == [];
    assert Feed(s2, []) == Ok(s2);
    assert Feed(s1, [b]) == Ok(s2);
  }

  /** `car` and `cdr` of a pair answer its two slots. */
  lemma {:induction false} CarCdrOfPair(a: Node, b: Node)
    ensures Step(Car, Some(Cell(a, b))) == Ok(Stepped(Car, a))
    ensures Step(Cdr, Some(Cell(a, b))) == Ok(Stepped(Cdr, b))
  {
  }

  /** `car` and `cdr` reject null with RuntimeError. */
  lemma {:induction false} CarCdrRejectNull()
    ensures Step(Car, None) == Err(RuntimeError)
    ensures Step(Cdr, None) == Err(RuntimeError)
  {
  }

  /** On a number or a symbol, `car` answers the operand itself and `cdr`
      answers null. */
  lemma {:induction false} CarCdrOfAtom(x: Value)
    requires IsAtom(x)
    ensures Step(Car, Some(x)) == Ok(Stepped(Car, Some(x)))
    ensures Step(Cdr, Some(x)) == Ok(Stepped(Cdr, None))
  {
  }

  /** `cons` passes over null without changing, and its first object is
      kept and answered unchanged. */
  lemma {:induction false} ConsFirstOperand(head: Node, a: Value)
    ensures Step(Cons(head), None) == Ok(Stepped(Cons(head), None))
    ensures Step(Cons(None), Some(a)) == Ok(Stepped(Cons(Some(a)), Some(a)))
  {
  }

  /** `list-ref` and `list-tail` answer null to an operand that is not a
      cell, keeping what they have gathered. */
  lemma {:induction false} IndexingIgnoresAtoms(items: seq<Value>, cells: seq<Node>, x: Node)
    requires !IsCell(x)
    ensures Step(ListRef(items), x) == Ok(Stepped(ListRef(items), None))
    ensures Step(ListTail(cells, items), x) == Ok(Stepped(ListTail(cells, items), None))
  {
    StepOfListRef(items, x);
    StepOfListTail(ListTail(cells, items), x);
  }

  /** `list` returns, after every call, the nil-terminated chain of all
      operands so far; its elements are those operands in order and `list?`
      accepts it. */
  lemma {:induction false} ListBuildsList(items: seq<Value>, out: Node, xs: seq<Value>)
    requires |items| + |xs| > 0
    requires |xs| == 0 ==> out == Chain(Present(items))
    ensures var r := Feed(Stepped(List(items), out), xs);
            r.Ok? && r.value.next == List(items + xs)
            && r.value.out == Chain(Present(items + xs))
            && Elements(r.value.out) == Present(items + xs)
            && Step(ListTest, r.value.out) == Ok(Stepped(ListTest, Some(Bool(true))))
    decreases |xs|
  {
    if |xs| > 0 {
      var s := Step(List(items), Some(xs[0])).value;
      assert items + [xs[0]] + xs[1..] == items + xs;
      ListBuildsList(items + [xs[0]], s.out, xs[1..]);
    } else {
      assert items + xs == items;
      ElementsOfChain(Present(items));
    }
  }

  /** `list-ref` applied to a list of atoms whose last element is an index
      `k` before that index element: the element at `k`, with every leaf
      kept for later calls. */
  lemma {:induction false} ListRefOfList(xs: seq<Value>, k: int)
    requires forall i :: 0 <= i < |xs| ==> IsAtom(xs[i]) && xs[i] != Symbol("quote")
    requires 0 <= k < |xs|
    ensures Step(ListRef([]), Chain(Present(xs + [Number(k)]))) ==
            Ok(Stepped(ListRef(xs + [Number(k)]), Some(xs[k])))
  {
    var all := xs + [Number(k)];
    ListRefLeaves(xs, k);
    StepOfListRef([], Chain(Present(all)));
    assert all[|all| - 1] == Number(k) && all[k] == xs[k];
  }

  /** An index at or past the index element itself is a RuntimeError. */
  lemma {:induction false} ListRefPastEnd(xs: seq<Value>, k: int)
    requires forall i :: 0 <= i < |xs| ==> IsAtom(xs[i]) && xs[i] != Symbol("quote")
    requires k >= |xs|
    ensures Step(ListRef([]), Chain(Present(xs + [Number(k)]))) == Err(RuntimeError)
  {
    var all := xs + [Number(k)];
    ListRefLeaves(xs, k);
    StepOfListRef([], Chain(Present(all)));
    assert all[|all| - 1] == Number(k);
  }

  /** Flattening a list of atoms that ends in an index. */
  lemma {:induction false} ListRefLeaves(xs: seq<Value>, k: int)
    requires forall i :: 0 <= i < |xs| ==> IsAtom(xs[i]) && xs[i] != Symbol("quote")
    ensures IsCell(Chain(Present(xs + [Number(k)])))
    ensures [] + Flatten(Chain(Present(xs + [Number(k)]))) == xs + [Number(k)]
  {
    var all := xs + [Number(k)];
    AtomsWithIndex(xs, k);
    FlattenChainOfAtoms(all);
    assert [] + all == all;
  }

  /** Appending an index keeps a sequence of atoms free of `quote`. */
  lemma {:induction false} AtomsWithIndex(xs: seq<Value>, k: int)
    requires forall i :: 0 <= i < |xs| ==> IsAtom(xs[i]) && xs[i] != Symbol("quote")
    ensures var all := xs + [Number(k)];
            forall i :: 0 <= i < |all| ==> IsAtom(all[i]) && all[i] != Symbol("quote")
  {
    var all := xs + [Number(k)];
    forall i | 0 <= i < |all| ensures IsAtom(all[i]) && all[i] != Symbol("quote") {
      if i < |xs| {
        assert all[i] == xs[i];
      }
    }
  }

  /** A list is left as it is by the normalisation `list-tail` applies. */
  lemma {:induction false} NormalizeKeepsLists(n: Node)
    requires ListLike(n) && n.Some?
    ensures Normalize(n) == n
  {
    var rest := n.value.second;
    if rest.Some? {
      NormalizeKeepsLists(rest);
    }
  }

  /** The suffixes of a chain are the chains of the suffixes of its elements. */
  lemma {:induction false} SuffixesOfChain(ys: seq<Node>, k: nat)
    requires k <= |ys|
    ensures |Suffixes(Chain(ys))| == |ys| + 1
    ensures Suffixes(Chain(ys))[k] == Chain(ys[k..])
    decreases |ys|
  {
    ElementsOfChain(ys);
    if k > 0 {
      SuffixesOfChain(ys[1..], k - 1);
      assert ys[1..][k - 1..] == ys[k..];
    }
  }

  /** `list-tail` applied to a list of atoms ending in an index `k` that
      does not pass the atoms: the suffix of the list from position `k` on,
      the index element included. */
  lemma {:induction false} ListTailOfList(xs: seq<Value>, k: int)
    requires forall i :: 0 <= i < |xs| ==> IsAtom(xs[i]) && xs[i] != Symbol("quote")
    requires 0 <= k <= |xs|
    ensures var all := Present(xs + [Number(k)]);
            var r := Step(ListTail([], []), Chain(all));
            r.Ok? && r.value.out == Chain(all[k..])
  {
    ListRefLeaves(xs, k);
    TailOfChain(Present(xs + [Number(k)]), xs + [Number(k)], k);
  }

  /** `list-tail` on a chain whose leaves end in an in-range index. */
  lemma {:induction false} TailOfChain(all: seq<Node>, leaves: seq<Value>, k: int)
    requires IsCell(Chain(all)) && [] + Flatten(Chain(all)) == leaves
    requires |leaves| == |all| && leaves[|leaves| - 1] == Number(k) && 0 <= k < |leaves|
    ensures var r := Step(ListTail([], []), Chain(all));
            r.Ok? && r.value.out == Chain(all[k..])
  {
    var n := Chain(all);
    ElementsOfChain(all);
    SuffixesOfChain(all, k);
    assert k <= |Elements(n)|;
    TailOfList(n, leaves, k);
    StepOfListTail(ListTail([], []), n);
  }

  /** `list-tail` on one list whose leaves end in an in-range index. */
  lemma {:induction false} TailOfList(n: Node, leaves: seq<Value>, k: int)
    requires ListLike(n) && IsCell(n)
    requires [] + Flatten(n) == leaves && |leaves| > 0 && leaves[|leaves| - 1] == Number(k)
    requires 0 <= k < |leaves| && k <= |Elements(n)|
    ensures TailStep([], [], n) == Ok(Stepped(ListTail([] + Suffixes(n), leaves), Suffixes(n)[k]))
  {
    NormalizeKeepsLists(n);
    assert [] + Suffixes(Normalize(n)) == Suffixes(n);
  }

  /** An index past the atoms is a RuntimeError. */
  lemma {:induction false} ListTailPastEnd(xs: seq<Value>, k: int)
    requires forall i :: 0 <= i < |xs| ==> IsAtom(xs[i]) && xs[i] != Symbol("quote")
    requires k > |xs|
    ensures Step(ListTail([], []), Chain(Present(xs + [Number(k)]))) == Err(RuntimeError)
  {
    var atoms := xs + [Number(k)];
    ListRefLeaves(xs, k);
    assert atoms[|atoms| - 1] == Number(k);
  }
}
