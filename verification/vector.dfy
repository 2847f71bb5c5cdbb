/** `Vector` of vector.py: an immutable triple with component-wise arithmetic.
    Every operation returns a new value, so the class becomes a datatype. */
module Vectors {
  import opened Numerics

  /** The right-hand operand of `Vector.__mul__`, whose behaviour depends on its type. */
  datatype Operand = VectorOperand(v: Vector) | NumberOperand(k: real) | OtherOperand

  datatype Vector = Vector(x: real, y: real, z: real) {

    /** `dot`: the sum of the component products (`DotSymmetric`, `DotScale`,
        `DotAdd` and `NeutralElements` state its laws). */
    function Dot(other: Vector): (r: real)
    {
      x * other.x + y * other.y + z * other.z
    }

    /** `cross` as written: a plain 3-tuple, not a `Vector`. Under the dot formula
        its components are orthogonal to both arguments. */
    function Cross(other: Vector): (r: (real, real, real))
      ensures r.0 * x + r.1 * y + r.2 * z == 0.0
      ensures r.0 * other.x + r.1 * other.y + r.2 * other.z == 0.0
    {
      (y * other.z - z * other.y, z * other.x - x * other.z, x * other.y - y * other.x)
    }

    /** The cross product as the `Vector` its callers in ray_tracer.py expect. */
    function CrossVector(other: Vector): (r: Vector)
      ensures r.Dot(this) == 0.0 && r.Dot(other) == 0.0
      ensures r == Vector(Cross(other).0, Cross(other).1, Cross(other).2)
    {
      var t := Cross(other);
      Vector(t.0, t.1, t.2)
    }

    /** The Euclidean length: the square root of the sum of the squared components.
        Under `Lawful` it is never negative (`LenZeroIff` says when it is zero). */
    function Len(m: Math): (r: real)
      ensures m.Lawful() ==> 0.0 <= r
    {
      SqrtOfSquares(m, x, y, z);
      m.sqrt(Dot(this))
    }

    /** The zero-guarded normalisation: scaling the result back by the length gives
        the vector again; a vector of length zero normalises to the zero vector. */
    function Normal(m: Math): (r: Vector)
      ensures Len(m) == 0.0 ==> r == Zero
      ensures Len(m) != 0.0 ==> r.Scale(Len(m)) == this
    {
      var l := Len(m);
      if l == 0.0 then Vector(0.0, 0.0, 0.0) else Vector(x / l, y / l, z / l)
    }

    /** `proection`; against a vector of length zero it is the zero vector (see
        `ProectionAlongSelf` for the other case). */
    function Proection(m: Math, other: Vector): (r: Vector)
      ensures other.Len(m) == 0.0 ==> r == Zero
    {
      Normal(m).Scale(Dot(other.Normal(m))).Scale(other.Len(m))
    }

    /** `to_ints`: every component truncated toward zero by `int`. */
    function ToInts(): (r: Vector)
      ensures r.x == Trunc(x) as real && r.y == Trunc(y) as real && r.z == Trunc(z) as real
      ensures Abs(x - r.x) < 1.0 && Abs(y - r.y) < 1.0 && Abs(z - r.z) < 1.0
      ensures Abs(r.x) <= Abs(x) && Abs(r.y) <= Abs(y) && Abs(r.z) <= Abs(z)
    {
      Vector(Trunc(x) as real, Trunc(y) as real, Trunc(z) as real)
    }

    /** `__add__`: component-wise sum (`NeutralElements`; `SubAddCancel` relates
        it to `__sub__`). */
    function Add(other: Vector): (r: Vector)
    {
      Vector(x + other.x, y + other.y, z + other.z)
    }

    /** `__sub__`: component-wise difference (`NeutralElements`, `SubAddCancel`). */
    function Sub(other: Vector): (r: Vector)
    {
      Vector(x - other.x, y - other.y, z - other.z)
    }

    /** Multiplication by a number (`NeutralElements`, `ScaleScale`). */
    function Scale(k: real): (r: Vector)
    {
      Vector(x * k, y * k, z * k)
    }

    /** Component-wise multiplication (`NeutralElements`). */
    function Times(other: Vector): (r: Vector)
    {
      Vector(x * other.x, y * other.y, z * other.z)
    }

    /** `__mul__`: component-wise with a Vector, a scaling with an int or a float,
        and a failed assertion with anything else. */
    function Mul(other: Operand): (r: Result<Vector>)
      ensures r.Err? <==> other.OtherOperand?
      ensures other.NumberOperand? ==> r == Ok(Scale(other.k))
      ensures other.VectorOperand? ==> r == Ok(Times(other.v))
    {
      match other
      case VectorOperand(v) => Ok(Times(v))
      case NumberOperand(k) => Ok(Scale(k))
      case OtherOperand => Err(AssertionError)
    }

    /** Division by a number, which the callers in ray_tracer.py write as `v / k`
        (vector.py itself defines no `__truediv__`; see `TrueDiv`). Dividing and
        then multiplying back by the same number gives the vector again. */
    function Div(k: real): (r: Result<Vector>)
      ensures k == 0.0 <==> r == Err(ZeroDivisionError)
      ensures k != 0.0 ==> r.Ok? && r.value.Scale(k) == this
    {
      if k == 0.0 then Err(ZeroDivisionError) else Ok(Vector(x / k, y / k, z / k))
    }

    /** `__pow__`: every component raised to `e`; positive components stay positive. */
    function Pow(m: Math, e: real): (r: Vector)
      ensures m.Lawful() && 0.0 < x && 0.0 < y && 0.0 < z ==> 0.0 < r.x && 0.0 < r.y && 0.0 < r.z
    {
      Vector(m.pow(x, e), m.pow(y, e), m.pow(z, e))
    }

    /** `__eq__` is exact component-wise equality, which is equality of the values. */
    function Eq(other: Vector): (r: bool)
      ensures r <==> this == other
    {
      x == other.x && y == other.y && z == other.z
    }

    /** `__lt__`: true as soon as one component is strictly smaller. */
    function Lt(other: Vector): (r: bool)
      ensures r <==> exists i :: 0 <= i < 3 && Component(i) < other.Component(i)
    {
      assert x < other.x ==> Component(0) < other.Component(0);
      assert y < other.y ==> Component(1) < other.Component(1);
      assert z < other.z ==> Component(2) < other.Component(2);
      x < other.x || y < other.y || z < other.z
    }

    function Component(i: int): real
      requires 0 <= i < 3
    {
      if i == 0 then x else if i == 1 then y else z
    }
  }

  const Zero := Vector(0.0, 0.0, 0.0)

  /** A value as Python sees it when it looks an attribute up: `Vector.cross`
      hands back a tuple, and a tuple has neither `normal` nor `len`. */
  datatype PyValue = VectorValue(v: Vector) | TupleValue(t: (real, real, real))

  /** `a.cross(b)` as written in vector.py:13-14. */
  function CrossAsWritten(a: Vector, b: Vector): (r: PyValue)
    ensures r.TupleValue?
  {
    TupleValue(a.Cross(b))
  }

  /** `o.normal()`: defined on a Vector, an AttributeError on a tuple. */
  function NormalOf(m: Math, o: PyValue): (r: Result<Vector>)
    ensures r.Ok? <==> o.VectorValue?
    ensures o.VectorValue? ==> r.value == o.v.Normal(m)
  {
    match o
    case VectorValue(v) => Ok(v.Normal(m))
    case TupleValue(_) => Err(AttributeError("normal"))
  }

  /** `o.len()`: defined on a Vector, an AttributeError on a tuple. */
  function LenOf(m: Math, o: PyValue): (r: Result<real>)
    ensures r.Ok? <==> o.VectorValue?
    ensures o.VectorValue? ==> r.value == o.v.Len(m)
  {
    match o
    case VectorValue(v) => Ok(v.Len(m))
    case TupleValue(_) => Err(AttributeError("len"))
  }

  /** `o / k` as the shown vector.py has it: neither `Vector` nor `tuple` defines
      `__truediv__`, so the division raises a TypeError whatever the operands. */
  function TrueDiv(o: PyValue, k: real): (r: Result<Vector>)
    ensures r == Err(TypeError)
  {
    Err(TypeError)
  }

  /** `(a - b) + b == a`: subtraction and addition are component-wise inverses. */
  lemma SubAddCancel(a: Vector, b: Vector)
    ensures a.Sub(b).Add(b) == a && a.Add(b).Sub(b) == a
  {
  }

  /** The neutral and absorbing elements of the component-wise operations. */
  lemma NeutralElements(a: Vector)
    ensures a.Add(Zero) == a && Zero.Add(a) == a
    ensures a.Sub(Zero) == a && a.Sub(a) == Zero
    ensures a.Scale(1.0) == a && a.Scale(0.0) == Zero
    ensures a.Times(Vector(1.0, 1.0, 1.0)) == a && a.Times(Zero) == Zero
    ensures a.Dot(Zero) == 0.0 && Zero.Dot(a) == 0.0
  {
  }

  lemma DotSymmetric(a: Vector, b: Vector)
    ensures a.Dot(b) == b.Dot(a)
  {
  }

  lemma DotSelfNonNegative(a: Vector)
    ensures 0.0 <= a.Dot(a)
  {
    SquareNonNegative(a.x);
    SquareNonNegative(a.y);
    SquareNonNegative(a.z);
  }

  /** The cross product with the zero vector is zero, on either side. */
  lemma ZeroCross(a: Vector)
    ensures Zero.CrossVector(a) == Zero
  {
  }

  lemma CrossZero(a: Vector)
    ensures a.CrossVector(Zero) == Zero
  {
  }

  /** Scaling either side scales the dot product. */
  lemma DotScale(a: Vector, b: Vector, k: real)
    ensures a.Scale(k).Dot(b) == k * a.Dot(b)
    ensures b.Dot(a.Scale(k)) == k * b.Dot(a)
  {
  }

  /** `dot` distributes over `__add__` on the left. */
  lemma DotAdd(a: Vector, b: Vector, c: Vector)
    ensures a.Add(b).Dot(c) == a.Dot(c) + b.Dot(c)
  {
  }

  lemma ScaleScale(a: Vector, j: real, k: real)
    ensures a.Scale(j).Scale(k) == a.Scale(j * k)
  {
  }

  /** Under `Lawful`, only the zero vector has length zero. */
  lemma LenZeroIff(m: Math, a: Vector)
    requires m.Lawful()
    ensures a.Len(m) == 0.0 <==> a == Zero
  {
    SqrtOfSquares(m, a.x, a.y, a.z);
  }

  lemma LenOfZero(m: Math)
    requires m.Lawful()
    ensures Zero.Len(m) == 0.0
  {
  }

  /** The zero vector normalises to itself. */
  lemma NormalOfZero(m: Math)
    requires m.Lawful()
    ensures Zero.Normal(m) == Zero
  {
  }

  /** A vector of non-zero length normalises to a vector of length one. */
  lemma NormalIsUnit(m: Math, a: Vector)
    requires m.Lawful() && a.Len(m) != 0.0
    ensures a.Normal(m).Dot(a.Normal(m)) == 1.0
    ensures a.Normal(m).Len(m) == 1.0
  {
    DotSelfNonNegative(a);
    var l := a.Len(m);
    var u := a.Normal(m);
    assert l * l == a.Dot(a);
    DotScale(u, u.Scale(l), l);
    DotScale(u, u, l);
    assert a.Dot(a) == l * (l * u.Dot(u));
    ProductNonZero(l, l);
    CancelFactor(u.Dot(u), 1.0, l * l);
  }

  /** Normalising keeps a vector's direction, so it keeps orthogonality. */
  lemma NormalKeepsOrthogonality(m: Math, a: Vector, b: Vector)
    requires a.Dot(b) == 0.0
    ensures a.Normal(m).Dot(b) == 0.0
  {
    var l := a.Len(m);
    if l != 0.0 {
      var u := a.Normal(m);
      DotScale(u, b, l);
      CancelFactor(u.Dot(b), 0.0, l);
    }
  }

  /** `proection` is the normalised vector itself scaled by its dot product with
      `other`: the normalisation of `other` and the multiplication by its length
      cancel, so the result lies along `self`, not along `other`. */
  lemma ProectionAlongSelf(m: Math, a: Vector, b: Vector)
    requires b.Len(m) != 0.0
    ensures a.Proection(m, b) == a.Normal(m).Scale(a.Dot(b))
  {
    var l := b.Len(m);
    var bn := b.Normal(m);
    assert a.Dot(bn) * l == a.Dot(b) by {
      DotScale(bn, a, l);
    }
    var u := a.Normal(m);
    var k := a.Dot(bn);
    assert a.Proection(m, b) == u.Scale(k).Scale(l);
    ScaleScale(u, k, l);
    assert k * l == a.Dot(b);
  }

  /** `__lt__` is irreflexive. */
  lemma LtIrreflexive(a: Vector)
    ensures !a.Lt(a)
  {
  }

  /** ... but it is not asymmetric, so it is not an order. */
  lemma LtNotAsymmetric()
    ensures Vector(0.0, 1.0, 0.0).Lt(Vector(1.0, 0.0, 0.0))
    ensures Vector(1.0, 0.0, 0.0).Lt(Vector(0.0, 1.0, 0.0))
  {
  }
}
