/** Building blocks shared by every stage of the interpreter: optional values
    (the C++ null pointer), the ways a run can stop, the integer widths of the
    source and the character classes of the C library in the "C" locale. */
module Common {

  /** A possibly absent value; `None` plays the part of a null `shared_ptr`. */
  datatype Option<+T> = None | Some(value: T)

  /** How a run stops without producing text.
      - SyntaxError and RuntimeError are the interpreter's two exception types;
      - OutOfRange is the exception `std::stoi` throws for a literal outside `int`;
      - Undefined marks a step whose C++ behaviour is undefined (signed
        overflow, division by zero, a null dereference, an index past the end);
      - Diverges marks a loop of the source that never terminates. */
  datatype Error = SyntaxError | RuntimeError | OutOfRange | Undefined | Diverges

  datatype Result<+T> = Ok(value: T) | Err(error: Error) {
    predicate IsFailure() {
      Err?
    }

    function PropagateFailure<U>(): Result<U>
      requires Err?
    {
      Err(error)
    }

    function Extract(): T
      requires Ok?
    {
      value
    }
  }

  const INT32_MIN: int := -0x8000_0000
  const INT32_MAX: int := 0x7FFF_FFFF
  const INT64_MIN: int := -0x8000_0000_0000_0000
  const INT64_MAX: int := 0x7FFF_FFFF_FFFF_FFFF

  /** The range of `int`, the result type of `std::stoi`. */
  predicate IsInt32(x: int) {
    INT32_MIN <= x <= INT32_MAX
  }

  /** The range of `int64_t`, the type every Number holds. */
  predicate IsInt64(x: int) {
    INT64_MIN <= x <= INT64_MAX
  }

  /** C++ integer division, which truncates toward zero (Dafny's `/` is Euclidean). */
  function TruncDiv(a: int, b: int): (q: int)
    requires b != 0
    ensures q * b + (a - q * b) == a
    ensures (a - q * b == 0) || ((a - q * b < 0) == (a < 0))
    ensures Magnitude(a - q * b) < Magnitude(b)
  {
    var m := Magnitude(a) / Magnitude(b);
    if (a < 0) == (b < 0) then m else -m
  }

  function Magnitude(x: int): nat {
    if x < 0 then -x else x
  }

  lemma {:induction false} MulAtLeast(q: nat, d: nat)
    requires d >= 1
    ensures q <= q * d
  {
    var e: nat := d - 1;
    assert q * d == q * e + q;
  }

  lemma {:induction false} DivAtMost(x: nat, d: nat)
    requires d > 0
    ensures x / d <= x
  {
    var q := x / d;
    MulAtLeast(q, d);
    assert q * d <= x;
  }

  /** Truncating division by a non-zero integer never increases magnitude. */
  lemma {:induction false} TruncDivShrinks(a: int, b: int)
    requires b != 0
    ensures Magnitude(TruncDiv(a, b)) <= Magnitude(a)
  {
    DivAtMost(Magnitude(a), Magnitude(b));
  }

  /** `std::isspace` in the "C" locale. */
  predicate IsSpace(c: char) {
    c == ' ' || c == '\t' || c == '\n' || c == '\r' || c as int == 11 || c as int == 12
  }

  /** `std::isdigit` / the source's `'0' <= c <= '9'` test. */
  predicate IsDigit(c: char) {
    '0' <= c <= '9'
  }

  /** `std::isalpha` in the "C" locale. */
  predicate IsAlpha(c: char) {
    'a' <= c <= 'z' || 'A' <= c <= 'Z'
  }

  /** `std::isalnum` in the "C" locale. */
  predicate IsAlnum(c: char) {
    IsAlpha(c) || IsDigit(c)
  }

  predicate AllDigits(s: string) {
    forall i :: 0 <= i < |s| ==> IsDigit(s[i])
  }

  predicate AllSpace(s: string) {
    forall i :: 0 <= i < |s| ==> IsSpace(s[i])
  }

  function DigitValue(c: char): nat
    requires IsDigit(c)
  {
    c as int - '0' as int
  }

  function DigitChar(d: nat): (c: char)
    requires d < 10
    ensures IsDigit(c) && DigitValue(c) == d
  {
    ('0' as int + d) as char
  }

  /** The value of a run of decimal digits, read most significant digit first
      (what `std::stoi` computes for the digits of its argument). */
  function DecimalValue(s: string): nat
    requires AllDigits(s)
    decreases |s|
  {
    if |s| == 0 then 0 else 10 * DecimalValue(s[..|s| - 1]) + DigitValue(s[|s| - 1])
  }

  /** Decimal text of a natural number without leading zeros. */
  function NatToString(n: nat): (s: string)
    ensures |s| > 0 && AllDigits(s)
    ensures |s| > 1 ==> s[0] != '0'
    decreases n
  {
    if n < 10 then [DigitChar(n)] else NatToString(n / 10) + [DigitChar(n % 10)]
  }

  /** `std::to_string` of a signed integer. */
  function IntToString(n: int): (s: string)
    ensures |s| > 0
    ensures n < 0 <==> s[0] == '-'
  {
    if n < 0 then "-" + NatToString(-n) else NatToString(n)
  }

  /** Reading back the decimal text of `n` gives `n`. */
  lemma {:induction false} DecimalRoundTrip(n: nat)
    ensures DecimalValue(NatToString(n)) == n
    decreases n
  {
    var s := NatToString(n);
    if n >= 10 {
      DecimalRoundTrip(n / 10);
      assert s[..|s| - 1] == NatToString(n / 10);
    }
  }

  /** Numbers print to distinct texts. */
  lemma {:induction false} IntToStringInjective(a: int, b: int)
    requires IntToString(a) == IntToString(b)
    ensures a == b
  {
    if a < 0 {
      assert IntToString(a)[1..] == NatToString(-a);
      assert IntToString(b)[1..] == NatToString(-b);
      DecimalRoundTrip(-a);
      DecimalRoundTrip(-b);
    } else {
      DecimalRoundTrip(a);
      DecimalRoundTrip(b);
    }
  }
}
