/** The scene objects of ray_tracer.py: spheres, one-sided planes and triangles.
    They are objects because the tracer compares them by identity (`obj in
    to_ignore`) and because a triangle turns its plane round in place. */
module Primitives {
  import opened Numerics
  import opened Vectors
  import opened Hits

  /** The tolerance of the plane and triangle tests. */
  const EPS: real := 0.0001

  /** The value of a plane's `type` that selects the chequered pattern. */
  const SQUARED: int := 5

  /** `sign`: 1 for zero and above, -1 below; multiplied by the magnitude it gives
      the number back. */
  function Sign(x: real): (r: int)
    ensures r == 1 || r == -1
    ensures r == 1 <==> 0.0 <= x
    ensures r as real * Abs(x) == x
  {
    if x >= 0.0 then 1 else -1
  }

  /** The surface attributes every object carries. */
  datatype Material = Material(color: Vector, reflective: real, refractiveCoef: real, refractive: real)

  /** Any object a scene lists. */
  datatype Shape =
    | SphereShape(sphere: Sphere)
    | PlaneShape(plane: Plane)
    | TriangleShape(triangle: Triangle)
  {
    function Mat(): Material {
      match this
      case SphereShape(s) => s.material
      case PlaneShape(p) => p.material
      case TriangleShape(t) => t.material
    }
  }

  class Sphere {
    const c: Vector
    const r: real
    const material: Material

    constructor (c: Vector, r: real, material: Material)
      ensures this.c == c && this.r == r && this.material == material
    {
      this.c := c;
      this.r := r;
      this.material := material;
    }

    /** What is left under the square root when the ray is solved against the
        sphere (the ray direction taken as a unit vector). It is never negative for
        a ray that starts inside the sphere or on it. */
    function Discriminant(ray: Ray): (disc: real)
      ensures ray.o.Sub(c).Dot(ray.o.Sub(c)) <= r * r ==> 0.0 <= disc
    {
      var co := ray.o.Sub(c);
      SquareNonNegative(ray.d.Dot(co));
      r * r - (co.Dot(co) - ray.d.Dot(co) * ray.d.Dot(co))
    }

    /** `Sphere.intersect`. A negative discriminant misses; otherwise the nearer
        root in front of the ray is taken, and a tangent ray (equal roots) or a
        root at zero misses. A hit lies on the ray at its distance and carries the
        outward normal at that point. */
    function Intersect(m: Math, ray: Ray): (hit: Intersection<Shape>)
      ensures hit.obj == Some(SphereShape(this))
      ensures hit.d == -1.0 || 0.0 < hit.d
      ensures Discriminant(ray) < 0.0 ==> hit.d == -1.0
      ensures hit.d == -1.0 ==> hit == Miss(Some(SphereShape(this)))
      ensures 0.0 < hit.d ==> hit.p == ray.o.Add(ray.d.Scale(hit.d)) && hit.n == Normal(m, hit.p)
    {
      var disc := Discriminant(ray);
      if disc < 0.0 then Miss(Some(SphereShape(this)))
      else
        var b := -ray.d.Dot(ray.o.Sub(c));
        match SelectRoot(b - m.sqrt(disc), b + m.sqrt(disc))
        case None => Miss(Some(SphereShape(this)))
        case Some(d) =>
          var point := ray.o.Add(ray.d.Scale(d));
          Intersection(point, d, Normal(m, point), Some(SphereShape(this)))
    }

    /** `Sphere.normal`: the normalised direction from the centre to the point;
        scaled back by that distance it reaches the point. */
    function Normal(m: Math, point: Vector): (n: Vector)
      ensures point.Sub(c).Len(m) != 0.0 ==> c.Add(n.Scale(point.Sub(c).Len(m))) == point
      ensures point.Sub(c).Len(m) == 0.0 ==> n == Zero
    {
      point.Sub(c).Normal(m)
    }
  }

  class Plane {
    const p: Vector
    var n: Vector
    const material: Material
    const pattern: int
    const scale: real

    constructor (p: Vector, n: Vector, material: Material, pattern: int, scale: real)
      ensures this.p == p && this.n == n && this.material == material
      ensures this.pattern == pattern && this.scale == scale
    {
      this.p := p;
      this.n := n;
      this.material := material;
      this.pattern := pattern;
      this.scale := scale;
    }

    /** `Plane.intersect` with the normal passed in. It misses when the ray runs
        (nearly) parallel to the plane or meets it from behind the normal. Otherwise
        the distance `d` solves the plane equation along the ray; it may be
        negative, and nothing here filters that out. */
    function IntersectWith(nrm: Vector, ray: Ray): (hit: Intersection<Shape>)
      ensures hit.obj == Some(PlaneShape(this))
      ensures Abs(nrm.Dot(ray.d)) < EPS || 0.0 < nrm.Dot(ray.d) ==> hit == Miss(Some(PlaneShape(this)))
      ensures !(Abs(nrm.Dot(ray.d)) < EPS || 0.0 < nrm.Dot(ray.d)) ==>
                && nrm.Dot(ray.d) < 0.0
                && hit.d * nrm.Dot(ray.d) == p.Sub(ray.o).Dot(nrm)
                && hit.p == ray.o.Add(ray.d.Scale(hit.d))
                && hit.n == nrm
    {
      var cs := nrm.Dot(ray.d);
      if Abs(cs) < EPS then Miss(Some(PlaneShape(this)))
      else if cs > 0.0 then Miss(Some(PlaneShape(this)))
      else
        var d := p.Sub(ray.o).Dot(nrm) / cs;
        Intersection(ray.o.Add(ray.d.Scale(d)), d, nrm, Some(PlaneShape(this)))
    }

    /** `Plane.intersect` with the plane's current normal. */
    function Intersect(ray: Ray): (hit: Intersection<Shape>)
      reads this
      ensures hit.obj == Some(PlaneShape(this))
      ensures 0.0 < n.Dot(ray.d) ==> hit.d == -1.0
      ensures hit.d != -1.0 ==> n.Dot(ray.d) < 0.0 && hit.n == n
    {
      IntersectWith(n, ray)
    }
  }

  /** The unit normal of the face `a, b, c` (by the right-hand rule); it is
      orthogonal to both edges leaving `a`. */
  function FaceNormal(m: Math, a: Vector, b: Vector, c: Vector): (n: Vector)
    ensures n.Dot(b.Sub(a)) == 0.0 && n.Dot(c.Sub(a)) == 0.0
  {
    var e1, e2 := b.Sub(a), c.Sub(a);
    var k := e1.CrossVector(e2);
    DotSymmetric(k, e1);
    DotSymmetric(k, e2);
    NormalKeepsOrthogonality(m, k, e1);
    NormalKeepsOrthogonality(m, k, e2);
    k.Normal(m)
  }

  /** `self.square`: half the length of the cross product of two edges, the area
      of the face. It is never negative, and a face with two equal corners has
      none. */
  function Area(m: Math, a: Vector, b: Vector, c: Vector): (r: real)
    ensures m.Lawful() ==> 0.0 <= r
    ensures m.Lawful() && (b == a || c == a) ==> r == 0.0
  {
    SpanOfZero(m, b.Sub(a), c.Sub(a));
    b.Sub(a).CrossVector(c.Sub(a)).Len(m) / 2.0
  }

  /** The three areas `is_point_inside` adds up: the faces `q`, `a`, `b` and
      `q`, `b`, `c` and `q`, `c`, `a`. Their sum is never negative. */
  function SubAreas(m: Math, a: Vector, b: Vector, c: Vector, q: Vector): (r: real)
    ensures 0.0 <= r
  {
    var qa, qb, qc := a.Sub(q), b.Sub(q), c.Sub(q);
    (Spanned(m, qa, qb) + Spanned(m, qb, qc) + Spanned(m, qc, qa)) / 2.0
  }

  /** `abs(u.cross(v).len())`: twice the area of the triangle spanned by `u` and
      `v`. It is never negative, and nothing is spanned with the zero vector on
      either side. */
  function Spanned(m: Math, u: Vector, v: Vector): (r: real)
    ensures 0.0 <= r
    ensures m.Lawful() && (u == Zero || v == Zero) ==> r == 0.0
  {
    SpanOfZero(m, u, v);
    Abs(u.CrossVector(v).Len(m))
  }

  /** The cross product with the zero vector, on either side, has length zero. */
  lemma SpanOfZero(m: Math, u: Vector, v: Vector)
    ensures m.Lawful() && (u == Zero || v == Zero) ==> u.CrossVector(v).Len(m) == 0.0
  {
    if m.Lawful() && (u == Zero || v == Zero) {
      if u == Zero {
        ZeroCross(v);
      } else {
        CrossZero(u);
      }
      LenOfZero(m);
    }
  }

  /** The face's own edges span twice its area. */
  lemma SpannedByEdges(m: Math, a: Vector, b: Vector, c: Vector)
    requires m.Lawful()
    ensures Spanned(m, b.Sub(a), c.Sub(a)) == 2.0 * Area(m, a, b, c)
  {
  }

  class Triangle {
    const p1: Vector
    const p2: Vector
    const p3: Vector
    const plane: Plane
    const plane2: Plane
    const material: Material
    const square: real

    /** `Triangle.__init__` with the cross product taken as a `Vector` (see
        `TriangleNormalAsWritten` for the constructor as written). Both planes
        pass through `p1`; the second faces the other way; `square` is the area. */
    constructor (m: Math, p1: Vector, p2: Vector, p3: Vector, material: Material, pattern: int, scale: real)
      ensures this.p1 == p1 && this.p2 == p2 && this.p3 == p3 && this.material == material
      ensures fresh(plane) && fresh(plane2)
      ensures plane.p == p1 && plane.n == FaceNormal(m, p1, p2, p3)
      ensures plane2.p == p1 && plane2.n == FaceNormal(m, p1, p2, p3).Scale(-1.0)
      ensures plane.material == material && plane.pattern == pattern && plane.scale == scale
      ensures plane2.material == material && plane2.pattern == pattern && plane2.scale == scale
      ensures square == Area(m, p1, p2, p3)
    {
      this.p1 := p1;
      this.p2 := p2;
      this.p3 := p3;
      var n := FaceNormal(m, p1, p2, p3);
      this.plane := new Plane(p1, n, material, pattern, scale);
      this.plane2 := new Plane(p1, n.Scale(-1.0), material, pattern, scale);
      this.material := material;
      this.square := Area(m, p1, p2, p3);
    }

    /** `is_point_inside` with the plane normal passed in: the point must lie
        within `EPS` of the plane, and the three areas it cuts the triangle into
        must add up to the triangle's area within `EPS`. */
    function InsideWith(m: Math, nrm: Vector, q: Vector): (r: bool)
      ensures r <==> Abs(q.Sub(p1).Dot(nrm)) <= EPS && Abs(square - SubAreas(m, p1, p2, p3, q)) <= EPS
    {
      if Abs(q.Sub(p1).Dot(nrm)) > EPS then false
      else if Abs(square - SubAreas(m, p1, p2, p3, q)) > EPS then false
      else true
    }

    /** `is_point_inside` with the plane's current normal. */
    function IsPointInside(m: Math, q: Vector): (r: bool)
      reads plane
      ensures Abs(q.Sub(p1).Dot(plane.n)) > EPS ==> !r
      ensures Abs(square - SubAreas(m, p1, p2, p3, q)) > EPS ==> !r
    {
      InsideWith(m, plane.n, q)
    }

    /** What `Triangle.intersect` returns and the normal it leaves in the plane,
        given the normal the plane has on entry. A miss of the first plane test
        turns the normal round and tests again; a hit counts only inside the
        triangle. */
    function Outcome(m: Math, nrm: Vector, ray: Ray): (r: (Intersection<Shape>, Vector))
      ensures r.1 == if plane.IntersectWith(nrm, ray).d == -1.0 then nrm.Scale(-1.0) else nrm
      ensures r.0.d != -1.0 ==> r.0 == plane.IntersectWith(r.1, ray) && InsideWith(m, r.1, r.0.p)
      ensures var h := plane.IntersectWith(r.1, ray); h.d != -1.0 && InsideWith(m, r.1, h.p) ==> r.0 == h
      ensures r.0.obj == Some(PlaneShape(plane)) || r.0 == Miss(Some(TriangleShape(this)))
    {
      var first := plane.IntersectWith(nrm, ray);
      var nrm' := if first.d == -1.0 then nrm.Scale(-1.0) else nrm;
      var hit := if first.d == -1.0 then plane.IntersectWith(nrm', ray) else first;
      if hit.d == -1.0 then (hit, nrm')
      else if InsideWith(m, nrm', hit.p) then (hit, nrm')
      else (Miss(Some(TriangleShape(this))), nrm')
    }

    /** `Triangle.intersect`: the turned normal stays in the plane after the call. */
    method Intersect(m: Math, ray: Ray) returns (hit: Intersection<Shape>)
      modifies plane
      ensures (hit, plane.n) == Outcome(m, old(plane.n), ray)
    {
      hit := plane.Intersect(ray);
      if hit.d == -1.0 {
        plane.n := plane.n.Scale(-1.0);
        hit := plane.Intersect(ray);
      }
      if hit.d == -1.0 {
        return;
      }
      var inside := IsPointInside(m, hit.p);
      if !inside {
        hit := Miss(Some(TriangleShape(this)));
      }
    }
  }

  /** Which side the normal faces does not matter to `is_point_inside`. */
  lemma InsideFlipInvariant(m: Math, t: Triangle, nrm: Vector, q: Vector)
    ensures t.InsideWith(m, nrm.Scale(-1.0), q) == t.InsideWith(m, nrm, q)
  {
    DotScale(nrm, q.Sub(t.p1), -1.0);
  }

  /** A ray that meets the triangle's plane from behind the current normal is
      tested again with the normal turned towards it: triangles are two-sided. */
  lemma TriangleTwoSided(m: Math, t: Triangle, nrm: Vector, ray: Ray)
    requires EPS <= nrm.Dot(ray.d)
    ensures t.Outcome(m, nrm, ray).1 == nrm.Scale(-1.0)
    ensures t.Outcome(m, nrm, ray).1.Dot(ray.d) <= -EPS
  {
    DotScale(nrm, ray.d, -1.0);
  }

  /** Measured from the first corner, the three sub-areas are the whole area. */
  lemma SubAreasAtFirstVertex(m: Math, a: Vector, b: Vector, c: Vector)
    requires m.Lawful()
    ensures SubAreas(m, a, b, c, a) == Area(m, a, b, c)
  {
    assert a.Sub(a) == Zero;
    SpannedByEdges(m, a, b, c);
  }

  /** The first corner lies inside its own triangle, whichever way the normal faces. */
  lemma FirstVertexInside(m: Math, t: Triangle, nrm: Vector)
    requires m.Lawful() && t.square == Area(m, t.p1, t.p2, t.p3)
    ensures t.InsideWith(m, nrm, t.p1)
  {
    SubAreasAtFirstVertex(m, t.p1, t.p2, t.p3);
    assert t.p1.Sub(t.p1) == Zero;
  }

  /** `Triangle.__init__` as written computes the plane normal as
      `(p2-p1).cross(p3-p1).normal()`; `cross` hands back a tuple, which has no
      `normal`, so constructing any triangle raises an AttributeError. */
  function TriangleNormalAsWritten(m: Math, p1: Vector, p2: Vector, p3: Vector): (r: Result<Vector>)
    ensures r == Err(AttributeError("normal"))
  {
    NormalOf(m, CrossAsWritten(p2.Sub(p1), p3.Sub(p1)))
  }

  /** `self.square` as written (line 113): `.len()` of the tuple `cross` returns
      raises `AttributeError` before the halving. */
  function SquareAsWritten(m: Math, p1: Vector, p2: Vector, p3: Vector): (r: Result<real>)
    ensures r == Err(AttributeError("len"))
  {
    LenOf(m, CrossAsWritten(p2.Sub(p1), p3.Sub(p1)))
  }

  /** `is_point_inside` as written: a point more than `EPS` off the plane gives
      `False`; any other point reaches line 122, where `.len()` of the tuple
      `cross` returns raises `AttributeError`. */
  function InsideAsWritten(m: Math, t: Triangle, nrm: Vector, q: Vector): (r: Result<bool>)
    ensures r.Ok? <==> Abs(q.Sub(t.p1).Dot(nrm)) > EPS
    ensures r.Ok? ==> r == Ok(false)
    ensures r.Err? ==> r.error == AttributeError("len")
  {
    if Abs(q.Sub(t.p1).Dot(nrm)) > EPS then Ok(false)
    else Err(LenOf(m, CrossAsWritten(t.p1.Sub(q), t.p2.Sub(q))).error)
  }

  /** With a tangent ray the two roots coincide, and the sphere reports a miss. */
  lemma SphereTangentMisses(m: Math, s: Sphere, ray: Ray)
    requires m.Lawful() && s.Discriminant(ray) == 0.0
    ensures s.Intersect(m, ray).d == -1.0
  {
  }

  /** When the discriminant is not negative, the sphere is hit exactly when the far
      root is in front of the ray, the roots differ and the near root is not zero;
      the distance is then the near root if it is in front, and the far one if not. */
  lemma SphereNearerRoot(m: Math, s: Sphere, ray: Ray)
    requires m.Lawful() && 0.0 <= s.Discriminant(ray)
    ensures var b, q := -ray.d.Dot(ray.o.Sub(s.c)), m.sqrt(s.Discriminant(ray));
      && (s.Intersect(m, ray).d != -1.0 <==> 0.0 < b + q && q != 0.0 && b - q != 0.0)
      && (s.Intersect(m, ray).d != -1.0 ==>
            s.Intersect(m, ray).d == if 0.0 < b - q then b - q else b + q)
  {
  }

  /** A unit ray from the origin along the x axis meets the unit sphere centred at
      (5, 0, 0) at distance 4, at the point (4, 0, 0), where the normal points back
      along the ray. */
  lemma SphereExample(m: Math, s: Sphere)
    requires m.Lawful() && s.c == Vector(5.0, 0.0, 0.0) && s.r == 1.0
    ensures var hit := s.Intersect(m, Ray(Zero, Vector(1.0, 0.0, 0.0)));
      hit.d == 4.0 && hit.p == Vector(4.0, 0.0, 0.0) && hit.n == Vector(-1.0, 0.0, 0.0)
  {
    var ray := Ray(Zero, Vector(1.0, 0.0, 0.0));
    var co := ray.o.Sub(s.c);
    assert co == Vector(-5.0, 0.0, 0.0);
    assert s.Discriminant(ray) == 1.0;
    assert ray.o.Add(ray.d.Scale(4.0)) == Vector(4.0, 0.0, 0.0);
    var v := Vector(4.0, 0.0, 0.0).Sub(s.c);
    assert v == Vector(-1.0, 0.0, 0.0);
    assert v.Dot(v) == 1.0;
  }

  /** A hit reported by a plane lies on that plane. */
  lemma PlaneHitOnPlane(pl: Plane, nrm: Vector, ray: Ray)
    requires pl.IntersectWith(nrm, ray).d != -1.0
    ensures pl.IntersectWith(nrm, ray).p.Sub(pl.p).Dot(nrm) == 0.0
  {
    var hit := pl.IntersectWith(nrm, ray);
    var cs := nrm.Dot(ray.d);
    assert hit.d * cs == pl.p.Sub(ray.o).Dot(nrm);
    DotScale(ray.d, nrm, hit.d);
    assert hit.p.Sub(pl.p).Dot(nrm) == ray.o.Sub(pl.p).Dot(nrm) + hit.d * cs;
  }

  /** Planes are one-sided: a ray that meets the plane from behind its normal misses. */
  lemma PlaneOneSided(pl: Plane, nrm: Vector, ray: Ray)
    requires 0.0 < nrm.Dot(ray.d)
    ensures pl.IntersectWith(nrm, ray).d == -1.0
  {
  }
}
