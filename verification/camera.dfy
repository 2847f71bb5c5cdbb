/** `Camera` of ray_tracer.py: an eye point, a viewing direction and a screen
    rectangle in front of it, spanned by two basis vectors `ort1` and `ort2`. As
    written the class cannot run: it calls `.normal()` on the tuple `cross`
    returns and divides vectors with `/`, which `Vector` does not define. The
    class below is the evidently intended one, with `CrossVector` and `Div`. */
module Cameras {
  import opened Numerics
  import opened Vectors
  import opened Hits

  /** The first basis vector as `__init__` builds it from the direction. */
  function InitialOrt1(d: Vector): Vector {
    Vector(-d.y, d.x, d.z)
  }

  /** The first basis vector as `update` builds it: horizontal, with the
      magnitude of `d.x` where `__init__` has `d.x` itself. */
  function UpdatedOrt1(d: Vector): Vector {
    Vector(-d.y, Abs(d.x), 0.0)
  }

  /** The second basis vector, the normalised cross product of the first one
      with the direction, is orthogonal to both. */
  lemma SecondBasisOrthogonal(m: Math, ort1: Vector, d: Vector)
    ensures ort1.CrossVector(d).Normal(m).Dot(ort1) == 0.0
    ensures ort1.CrossVector(d).Normal(m).Dot(d) == 0.0
  {
    var c := ort1.CrossVector(d);
    NormalKeepsOrthogonality(m, c, ort1);
    NormalKeepsOrthogonality(m, c, d);
  }

  /** The upper left corner of the screen: `dist` along the direction, then half
      the width along `ort1` and half the height along `ort2`. */
  function Corner(o: Vector, d: Vector, dist: real, ort1: Vector, ort2: Vector, w: real, h: real): Vector {
    o.Add(d.Scale(dist)).Add(ort1.Scale(w).Scale(0.5)).Add(ort2.Scale(h).Scale(0.5))
  }

  /** The number of pixels along a side: `int(size * res_coef)`. */
  function Resolution(size: real, resCoef: real): int {
    Trunc(size * resCoef)
  }

  /** For a screen of non-negative size the resolution is the whole part of the
      product; a product strictly between -1 and 1 gives no pixel. */
  lemma ResolutionIsWholePart(size: real, resCoef: real)
    ensures 0.0 <= size * resCoef ==>
      0 <= Resolution(size, resCoef) && Resolution(size, resCoef) as real <= size * resCoef < Resolution(size, resCoef) as real + 1.0
    ensures size * resCoef < 1.0 && -1.0 < size * resCoef ==> Resolution(size, resCoef) == 0
  {
  }

  /** With an orthonormal frame, the corner lies `dist` ahead of the eye, half the
      width along `ort1` and half the height along `ort2`. */
  lemma CornerInFrame(o: Vector, d: Vector, dist: real, ort1: Vector, ort2: Vector, w: real, h: real)
    requires d.Dot(d) == 1.0 && ort1.Dot(ort1) == 1.0 && ort2.Dot(ort2) == 1.0
    requires d.Dot(ort1) == 0.0 && d.Dot(ort2) == 0.0 && ort1.Dot(ort2) == 0.0
    ensures Corner(o, d, dist, ort1, ort2, w, h).Sub(o).Dot(d) == dist
    ensures Corner(o, d, dist, ort1, ort2, w, h).Sub(o).Dot(ort1) == w / 2.0
    ensures Corner(o, d, dist, ort1, ort2, w, h).Sub(o).Dot(ort2) == h / 2.0
  {
    var a, b, c := d.Scale(dist), ort1.Scale(w).Scale(0.5), ort2.Scale(h).Scale(0.5);
    assert Corner(o, d, dist, ort1, ort2, w, h).Sub(o) == a.Add(b).Add(c);
    ScaleScale(ort1, w, 0.5);
    ScaleScale(ort2, h, 0.5);
    DotSymmetric(ort1, d);
    DotSymmetric(ort2, d);
    DotSymmetric(ort2, ort1);
    forall v | v == d || v == ort1 || v == ort2
      ensures a.Add(b).Add(c).Dot(v) == dist * d.Dot(v) + (w * 0.5) * ort1.Dot(v) + (h * 0.5) * ort2.Dot(v)
    {
      DotAdd(a.Add(b), c, v);
      DotAdd(a, b, v);
      DotScale(d, v, dist);
      DotScale(ort1, v, w * 0.5);
      DotScale(ort2, v, h * 0.5);
    }
  }

  class Camera {
    var o: Vector
    var d: Vector
    var dist: real
    var w: real
    var h: real
    var resX: int
    var resY: int
    var ort1: Vector
    var ort2: Vector
    var leftUpper: Vector

    /** `Camera.__init__` with the basis computed by `CrossVector`; the resolution
        is the truncated product of the screen size and `res_coef`. */
    constructor (m: Math, origin: Vector, direction: Vector, distance: real, width: real, height: real, resCoef: real)
      ensures o == origin && d == direction.Normal(m) && dist == distance && w == width && h == height
      ensures resX == Resolution(width, resCoef) && resY == Resolution(height, resCoef)
      ensures ort1 == InitialOrt1(d).Normal(m) && ort2 == ort1.CrossVector(d).Normal(m)
      ensures leftUpper == Corner(o, d, dist, ort1, ort2, w, h)
    {
      o := origin;
      d := direction.Normal(m);
      dist := distance;
      w := width;
      h := height;
      resX := Resolution(width, resCoef);
      resY := Resolution(height, resCoef);
      new;
      ort1 := InitialOrt1(d).Normal(m);
      ort2 := ort1.CrossVector(d).Normal(m);
      leftUpper := Corner(o, d, dist, ort1, ort2, w, h);
    }

    /** The point on the screen that `get_ray(x, y)` aims at (taken as a direction
        from the origin), before normalising; the divisions by the resolution
        raise `ZeroDivisionError` when it is zero. */
    function Target(x: real, y: real): (r: Result<Vector>)
      reads this
      ensures r.Err? <==> resX == 0 || resY == 0
      ensures r.Err? ==> r.error == ZeroDivisionError
    {
      var across :- ort1.Scale(x).Scale(w).Div(resX as real);
      var down :- ort2.Scale(y).Scale(h).Div(resY as real);
      Ok(leftUpper.Sub(across).Sub(down))
    }

    /** `Camera.get_ray`: a ray from the eye, its direction the normalised target. */
    function GetRay(m: Math, x: real, y: real): (r: Result<Ray>)
      reads this
      ensures r.Err? <==> resX == 0 || resY == 0
      ensures r.Ok? ==> r.value.o == o && r.value.d == Target(x, y).value.Normal(m)
    {
      var t :- Target(x, y);
      Ok(Ray(o, t.Normal(m)))
    }

    /** `Camera.update`: rebuilds the basis and the corner from the current
        origin, direction and screen; nothing else changes. */
    method Update(m: Math)
      modifies this
      ensures o == old(o) && d == old(d) && dist == old(dist) && w == old(w) && h == old(h)
      ensures resX == old(resX) && resY == old(resY)
      ensures ort1 == UpdatedOrt1(d).Normal(m) && ort2 == ort1.CrossVector(d).Normal(m)
      ensures leftUpper == Corner(o, d, dist, ort1, ort2, w, h)
    {
      ort1 := UpdatedOrt1(d).Normal(m);
      ort2 := ort1.CrossVector(d).Normal(m);
      leftUpper := Corner(o, d, dist, ort1, ort2, w, h);
    }
  }

  /** The pixel (0, 0) looks at the upper left corner. */
  lemma FirstPixelAtCorner(m: Math, c: Camera)
    requires c.resX != 0 && c.resY != 0
    ensures c.GetRay(m, 0.0, 0.0) == Ok(Ray(c.o, c.leftUpper.Normal(m)))
  {
    assert c.ort1.Scale(0.0).Scale(c.w) == Zero;
    assert c.ort2.Scale(0.0).Scale(c.h) == Zero;
    ZeroDividedStaysZero(c.resX as real);
    ZeroDividedStaysZero(c.resY as real);
    assert c.Target(0.0, 0.0) == Ok(c.leftUpper.Sub(Zero).Sub(Zero));
  }

  lemma ZeroDividedStaysZero(k: real)
    requires k != 0.0
    ensures Zero.Div(k) == Ok(Zero)
  {
    assert 0.0 / k == 0.0;
  }

  /** After `update` the first basis vector is orthogonal to the direction when
      the direction does not point towards negative x. */
  lemma UpdatedBasisOrthogonal(m: Math, d: Vector)
    requires 0.0 <= d.x
    ensures UpdatedOrt1(d).Normal(m).Dot(d) == 0.0
  {
    assert UpdatedOrt1(d).Dot(d) == 0.0;
    NormalKeepsOrthogonality(m, UpdatedOrt1(d), d);
  }

  /** `__init__`'s first basis vector, before normalising, meets the direction
      with dot product `d.z * d.z`; for a horizontal direction it is orthogonal,
      and stays so once normalised. */
  lemma InitialBasisOrthogonal(m: Math, d: Vector)
    ensures InitialOrt1(d).Dot(d) == d.z * d.z
    ensures d.z == 0.0 ==> InitialOrt1(d).Normal(m).Dot(d) == 0.0
  {
    if d.z == 0.0 {
      NormalKeepsOrthogonality(m, InitialOrt1(d), d);
    }
  }

  /** The direction (-1, -1, 0) shows that `update`'s basis is not orthogonal in
      general: its first basis vector is the direction turned round. */
  lemma UpdatedBasisCounterexample()
    ensures var d := Vector(-1.0, -1.0, 0.0); UpdatedOrt1(d) == d.Scale(-1.0) && UpdatedOrt1(d).Dot(d) == -2.0
  {
  }

  /** `Camera.__init__` as written: the cross product is a tuple, and asking it
      for `.normal()` raises `AttributeError`. */
  function InitAsWritten(m: Math, direction: Vector): (r: Result<Vector>)
    ensures r == Err(AttributeError("normal"))
  {
    var d := direction.Normal(m);
    var ort1 := Vector(-d.y, d.x, d.z).Normal(m);
    NormalOf(m, CrossAsWritten(ort1, d))
  }

  /** `Camera.get_ray` as written: its first division, `self.ort1 * x * self.w /
      self.res_x`, divides a `Vector`, which has no `__truediv__`; it raises
      `TypeError` whatever the pixel and the resolution, before any ray is built. */
  function GetRayAsWritten(c: Camera, x: real): (r: Result<Vector>)
    reads c
    ensures r == Err(TypeError)
  {
    TrueDiv(VectorValue(c.ort1.Scale(x).Scale(c.w)), c.resX as real)
  }

  /** The corner as `__init__` (line 320) and `update` (line 328) write it: its
      first division, `self.ort1 * width / 2`, divides a `Vector` and raises
      `TypeError`. */
  function CornerAsWritten(ort1: Vector, w: real): (r: Result<Vector>)
    ensures r == Err(TypeError)
  {
    TrueDiv(VectorValue(ort1.Scale(w)), 2.0)
  }

  /** `Camera.update` as written: the new second basis vector is `.normal()` of
      the tuple `cross` returns, which raises `AttributeError`. */
  function UpdateAsWritten(m: Math, c: Camera): (r: Result<Vector>)
    reads c
    ensures r == Err(AttributeError("normal"))
  {
    NormalOf(m, CrossAsWritten(UpdatedOrt1(c.d).Normal(m), c.d))
  }
}
