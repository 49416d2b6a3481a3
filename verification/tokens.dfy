/** The lexer's tokens (basic/tokenizer.h) and the equality the source gives them. */
module Tokens {

  /** One token. `Const` carries the `is_init` flag of `ConstantToken`: every
      lexed literal is initialised, only the default-constructed token is not. */
  datatype Token =
    | Const(value: int, isInit: bool)
    | Open
    | Close
    | Sym(name: string)
    | QuoteMark
    | DotMark

  /** The value-initialised first alternative of the token variant: the current
      token before anything has been lexed. */
  const Uninit: Token := Const(0, false)

  /** `ConstantToken(int)`: a literal produced by the lexer. */
  function Int(v: int): (t: Token)
    ensures t.Const? && t.isInit && t.value == v
  {
    Const(v, true)
  }

  /** Comparison of two tokens as `std::variant::operator==` does it with the
      member `operator==` of each alternative. */
  predicate Equal(a: Token, b: Token) {
    match (a, b)
    case (Const(x, _), Const(y, _)) => x == y
    case (Open, Open) => true
    case (Close, Close) => true
    case (Sym(m), Sym(n)) => m == n
    case (QuoteMark, QuoteMark) => true
    case (DotMark, DotMark) => true
    case _ => false
  }

  /** Token equality ignores only the `is_init` flag of literals: integers compare
      by value, symbols by name, and every other kind is equal to itself. */
  lemma {:induction false} EqualIgnoresOnlyInit(a: Token, b: Token)
    ensures Equal(a, b) <==> (a.Const? && b.Const? && a.value == b.value) || (!a.Const? && a == b)
  {
  }

  /** Token equality is an equivalence relation. */
  lemma {:induction false} EqualIsEquivalence(a: Token, b: Token, c: Token)
    ensures Equal(a, a)
    ensures Equal(a, b) ==> Equal(b, a)
    ensures Equal(a, b) && Equal(b, c) ==> Equal(a, c)
  {
  }

  /** How many tokens of `ts` equal `t` under token equality. */
  function Count(ts: seq<Token>, t: Token): (n: nat)
    ensures n <= |ts|
    decreases |ts|
  {
    if |ts| == 0 then 0
    else Count(ts[..|ts| - 1], t) + (if Equal(ts[|ts| - 1], t) then 1 else 0)
  }

  /** No token is counted exactly when none equals `t`, and every token is
      counted exactly when all of them do. */
  lemma {:induction false} CountBounds(ts: seq<Token>, t: Token)
    ensures Count(ts, t) == 0 <==> forall i :: 0 <= i < |ts| ==> !Equal(ts[i], t)
    ensures Count(ts, t) == |ts| <==> forall i :: 0 <= i < |ts| ==> Equal(ts[i], t)
    decreases |ts|
  {
    if |ts| > 0 {
      var init := ts[..|ts| - 1];
      assert forall i :: 0 <= i < |init| ==> init[i] == ts[i];
      CountBounds(init, t);
    }
  }

  /** Counting distributes over concatenation. */
  lemma {:induction false} CountAppend(xs: seq<Token>, ys: seq<Token>, t: Token)
    ensures Count(xs + ys, t) == Count(xs, t) + Count(ys, t)
    decreases |ys|
  {
    if |ys| > 0 {
      var zs := xs + ys;
      assert zs[..|zs| - 1] == xs + ys[..|ys| - 1];
      CountAppend(xs, ys[..|ys| - 1], t);
    } else {
      assert xs + ys == xs;
    }
  }

  /** Open brackets minus close brackets: how deep a prefix leaves the reader. */
  function Depth(ts: seq<Token>): int {
    Count(ts, Open) - Count(ts, Close)
  }
}
