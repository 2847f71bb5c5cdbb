/** The numeric ground the tracer stands on: Python's `math` routines it calls, the
    built-ins `abs` and `int`, and the exceptions a Python expression can raise. */
module Numerics {

  /** Python's `sqrt` and the `**` operator with a real exponent. Their values are
      not modelled: every operation that needs them takes a `Math` and the proofs use
      only the facts collected in `Lawful`. */
  datatype Math = Math(sqrt: real -> real, pow: (real, real) -> real) {

    /** What the proofs may assume of the library: `sqrt` is the non-negative
        square root, exact at 0 and 1 and positive on positive numbers, and a power
        of a positive base is positive. */
    ghost predicate Lawful() {
      && sqrt(0.0) == 0.0
      && sqrt(1.0) == 1.0
      && (forall x :: 0.0 <= x ==> 0.0 <= sqrt(x) && sqrt(x) * sqrt(x) == x)
      && (forall x :: 0.0 < x ==> 0.0 < sqrt(x))
      && (forall x, e :: 0.0 < x ==> 0.0 < pow(x, e))
    }
  }

  lemma SquareNonNegative(r: real)
    ensures 0.0 <= r * r
  {
    if r < 0.0 {
      assert 0.0 < r * r;
    }
  }

  /** A product of two non-zero numbers is non-zero. */
  lemma ProductNonZero(p: real, q: real)
    requires p != 0.0 && q != 0.0
    ensures p * q != 0.0
  {
    if p > 0.0 && q > 0.0 {
      assert p * q > 0.0;
    } else if p > 0.0 {
      assert p * q < 0.0;
    } else if q > 0.0 {
      assert p * q < 0.0;
    } else {
      assert p * q > 0.0;
    }
  }

  /** A non-zero factor cancels from both sides of an equation. */
  lemma CancelFactor(a: real, b: real, c: real)
    requires c != 0.0 && a * c == b * c
    ensures a == b
  {
    if a != b {
      ProductNonZero(a - b, c);
    }
  }

  /** Three squares add up to a positive number unless all three are zero. */
  lemma SumOfSquaresPositive(x: real, y: real, z: real)
    requires x != 0.0 || y != 0.0 || z != 0.0
    ensures 0.0 < x * x + y * y + z * z
  {
    SquareNonNegative(x);
    SquareNonNegative(y);
    SquareNonNegative(z);
    if x != 0.0 {
      ProductNonZero(x, x);
    } else if y != 0.0 {
      ProductNonZero(y, y);
    } else {
      ProductNonZero(z, z);
    }
  }

  /** Under `Lawful`, the square root of a sum of three squares is never negative,
      and it is zero exactly when all three numbers are. */
  lemma SqrtOfSquares(m: Math, x: real, y: real, z: real)
    ensures m.Lawful() ==> 0.0 <= m.sqrt(x * x + y * y + z * z)
    ensures m.Lawful() ==> (m.sqrt(x * x + y * y + z * z) == 0.0 <==> x == 0.0 && y == 0.0 && z == 0.0)
  {
    if m.Lawful() {
      SquareNonNegative(x);
      SquareNonNegative(y);
      SquareNonNegative(z);
      var s := x * x + y * y + z * z;
      if x != 0.0 || y != 0.0 || z != 0.0 {
        SumOfSquaresPositive(x, y, z);
      } else {
        assert s == 0.0;
      }
    }
  }

  /** Python's `abs` on a float. */
  function Abs(r: real): (a: real)
    ensures 0.0 <= a && (a == r || a == -r)
  {
    if r < 0.0 then -r else r
  }

  /** Python's `int(r)` on a float: truncation toward zero (not Dafny's floor). */
  function Trunc(r: real): (i: int)
    ensures Abs(i as real) <= Abs(r) && Abs(r - i as real) < 1.0
    ensures 0.0 <= r ==> 0 <= i
    ensures r <= 0.0 ==> i <= 0
  {
    if 0.0 <= r then r.Floor else -((-r).Floor)
  }

  /** The exceptions a core expression can raise. */
  datatype Error =
    | ZeroDivisionError
    | AttributeError(name: string)
    | TypeError
    | AssertionError
    | IndexError

  datatype Option<+T> = None | Some(value: T)

  /** The outcome of evaluating a Python expression: a value, or a raised exception. */
  datatype Result<+T> = Ok(value: T) | Err(error: Error) {

    predicate IsFailure() {
      Err?
    }

    function PropagateFailure<U>(): Result<U>
      requires Err?
    {
      Err(error)
    }

    function Extract(): T
      requires Ok?
    {
      value
    }
  }
}
