/** test.py: the earlier, standalone version of the tracer. Its vectors have no
    zero guard in `normal` and multiply by numbers only; its planes are two-sided;
    `test_ray` ignores one object rather than a list; `trace` mirrors but does not
    refract, and sums its lights from an `AMBIENT` start. The objects are
    compared by identity, so spheres and planes are classes. */
module Prototype {
  import opened Numerics
  import opened Vectors
  import opened Hits
  import Primitives
  import Lighting
  import Tracer

  /** The plane test's tolerance on the cosine between normal and ray. */
  const PARALLEL: real := 0.000001

  /** test.py's `Vector.normal`: divides by the length with no guard, so the zero
      vector raises `ZeroDivisionError`; otherwise it agrees with vector.py. */
  function NormalOrFail(m: Math, v: Vector): (r: Result<Vector>)
    ensures r.Err? <==> v.Len(m) == 0.0
    ensures r.Err? ==> r.error == ZeroDivisionError
    ensures r.Ok? ==> r.value == v.Normal(m)
  {
    var l := v.Len(m);
    if l == 0.0 then Err(ZeroDivisionError) else Ok(Vector(v.x / l, v.y / l, v.z / l))
  }

  /** test.py's `Vector.proection`: fails when either vector has length zero and
      otherwise agrees with vector.py. */
  function ProectionOrFail(m: Math, a: Vector, b: Vector): (r: Result<Vector>)
    ensures r.Err? <==> a.Len(m) == 0.0 || b.Len(m) == 0.0
    ensures r.Ok? ==> r.value == a.Proection(m, b)
  {
    var na :- NormalOrFail(m, a);
    var nb :- NormalOrFail(m, b);
    Ok(na.Scale(a.Dot(nb)).Scale(b.Len(m)))
  }

  /** test.py's `Vector.__mul__`: the assertion admits numbers only. */
  function MulNumber(v: Vector, other: Operand): (r: Result<Vector>)
    ensures r.Ok? <==> other.NumberOperand?
    ensures r.Err? ==> r.error == AssertionError
    ensures r.Ok? ==> r == v.Mul(other)
  {
    match other
    case NumberOperand(k) => Ok(v.Scale(k))
    case _ => Err(AssertionError)
  }

  /** A vector times a vector works in vector.py and fails the assertion here. */
  lemma VectorTimesVector(v: Vector, w: Vector)
    ensures v.Mul(VectorOperand(w)) == Ok(v.Times(w))
    ensures MulNumber(v, VectorOperand(w)) == Err(AssertionError)
  {
  }

  /** Any object of the scene. */
  datatype Body = SphereBody(sphere: Sphere) | PlaneBody(plane: Plane) {
    function Color(): Vector {
      match this
      case SphereBody(s) => s.color
      case PlaneBody(p) => p.color
    }

    function Reflective(): real {
      match this
      case SphereBody(s) => s.reflective
      case PlaneBody(p) => p.reflective
    }

    /** The object's own `intersect`. */
    function Intersect(m: Math, ray: Ray): (r: Result<Intersection<Body>>)
      ensures r.Err? ==> r.error == ZeroDivisionError
      ensures r.Ok? ==> r.value.obj == Some(this)
      ensures r.Ok? ==> r.value.d == -1.0 || 0.0 <= r.value.d
    {
      match this
      case SphereBody(s) => s.Intersect(m, ray)
      case PlaneBody(p) => Ok(p.Intersect(ray))
    }
  }

  class Sphere {
    const c: Vector
    const r: real
    const color: Vector
    const reflective: real

    constructor (c: Vector, r: real, color: Vector, reflective: real)
      ensures this.c == c && this.r == r && this.color == color && this.reflective == reflective
    {
      this.c := c;
      this.r := r;
      this.color := color;
      this.reflective := reflective;
    }

    /** `Sphere.normal`: the direction from the centre, which fails at the centre. */
    function Normal(m: Math, point: Vector): (n: Result<Vector>)
      ensures n.Err? <==> point.Sub(c).Len(m) == 0.0
    {
      NormalOrFail(m, point.Sub(c))
    }

    /** What is left under the square root, as in ray_tracer.py. */
    function Discriminant(ray: Ray): real {
      var co := ray.o.Sub(c);
      r * r - (co.Dot(co) - ray.d.Dot(co) * ray.d.Dot(co))
    }

    /** `Sphere.intersect`: the same root choice as ray_tracer.py; a hit carries
        the point at the chosen distance and the normal there, whose computation
        fails when that point is the centre. */
    function Intersect(m: Math, ray: Ray): (hit: Result<Intersection<Body>>)
      ensures hit.Err? ==> hit.error == ZeroDivisionError && 0.0 <= Discriminant(ray)
      ensures hit.Ok? ==> hit.value.obj == Some(SphereBody(this))
      ensures hit.Ok? ==> hit.value.d == -1.0 || 0.0 < hit.value.d
      ensures Discriminant(ray) < 0.0 ==> hit == Ok(Miss(Some(SphereBody(this))))
      ensures hit.Ok? && hit.value.d == -1.0 ==> hit.value == Miss(Some(SphereBody(this)))
      ensures hit.Ok? && 0.0 < hit.value.d ==>
                hit.value.p == ray.o.Add(ray.d.Scale(hit.value.d)) && Normal(m, hit.value.p) == Ok(hit.value.n)
    {
      var disc := Discriminant(ray);
      if disc < 0.0 then Ok(Miss(Some(SphereBody(this))))
      else
        var b := -ray.d.Dot(ray.o.Sub(c));
        match SelectRoot(b - m.sqrt(disc), b + m.sqrt(disc))
        case None => Ok(Miss(Some(SphereBody(this))))
        case Some(d) =>
          var point := ray.o.Add(ray.d.Scale(d));
          var n :- Normal(m, point);
          Ok(Intersection(point, d, n, Some(SphereBody(this))))
    }
  }

  /** A sphere of test.py and one of ray_tracer.py with the same centre and radius
      choose the same distance, and so the same point, whenever test.py's does not
      fail. */
  lemma SphereAgreesWithRayTracer(m: Math, s: Sphere, t: Primitives.Sphere, ray: Ray)
    requires s.c == t.c && s.r == t.r
    requires s.Intersect(m, ray).Ok?
    ensures s.Intersect(m, ray).value.d == t.Intersect(m, ray).d
    ensures s.Intersect(m, ray).value.p == t.Intersect(m, ray).p
  {
    assert s.Discriminant(ray) == t.Discriminant(ray);
  }

  class Plane {
    const p: Vector
    const n: Vector
    const color: Vector
    const reflective: real

    constructor (p: Vector, n: Vector, color: Vector, reflective: real)
      ensures this.p == p && this.n == n && this.color == color && this.reflective == reflective
    {
      this.p := p;
      this.n := n;
      this.color := color;
      this.reflective := reflective;
    }

    /** `Plane.intersect` of test.py: a miss when the ray runs parallel to the
        plane within `PARALLEL` or meets it behind its origin; the side the normal
        faces plays no part. */
    function Intersect(ray: Ray): (hit: Intersection<Body>)
      ensures hit.obj == Some(PlaneBody(this))
      ensures Abs(n.Dot(ray.d)) < PARALLEL ==> hit == Miss(Some(PlaneBody(this)))
      ensures Abs(n.Dot(ray.d)) >= PARALLEL ==>
                var d := p.Sub(ray.o).Dot(n) / n.Dot(ray.d);
                if d < 0.0 then hit == Miss(Some(PlaneBody(this))) else hit.d == d
      ensures hit.d != -1.0 ==> 0.0 <= hit.d && hit.p == ray.o.Add(ray.d.Scale(hit.d)) && hit.n == n
    {
      var cs := n.Dot(ray.d);
      if Abs(cs) < PARALLEL then Miss(Some(PlaneBody(this)))
      else
        var d := p.Sub(ray.o).Dot(n) / cs;
        if d < 0.0 then Miss(Some(PlaneBody(this)))
        else Intersection(ray.o.Add(ray.d.Scale(d)), d, n, Some(PlaneBody(this)))
    }
  }

  /** A quotient of two positive numbers is positive. */
  lemma PositiveQuotient(a: real, b: real)
    requires 0.0 < a && 0.0 < b
    ensures 0.0 < a / b
  {
  }

  /** A ray that meets a plane from the side its normal faces hits the plane of
      test.py, while ray_tracer.py's plane with the same point and normal misses. */
  lemma PlaneHitsFromBehind(pl: Plane, q: Primitives.Plane, ray: Ray)
    requires q.p == pl.p
    requires PARALLEL <= pl.n.Dot(ray.d) && 0.0 < pl.p.Sub(ray.o).Dot(pl.n)
    ensures 0.0 < pl.Intersect(ray).d
    ensures q.IntersectWith(pl.n, ray).d == -1.0
  {
    PositiveQuotient(pl.p.Sub(ray.o).Dot(pl.n), pl.n.Dot(ray.d));
  }

  /** The objects `test_ray` asks, in list order: all but the one identical to
      `to_ignore`. */
  function Kept(objects: seq<Body>, toIgnore: Option<Body>): (r: seq<Body>)
    ensures forall k :: 0 <= k < |r| ==> r[k] in objects && Some(r[k]) != toIgnore
    ensures forall k :: 0 <= k < |objects| && Some(objects[k]) != toIgnore ==> objects[k] in r
    ensures toIgnore.None? || toIgnore.value !in objects ==> r == objects
  {
    if objects == [] then []
    else
      var last := objects[|objects| - 1];
      Kept(objects[..|objects| - 1], toIgnore) + if Some(last) == toIgnore then [] else [last]
  }

  /** The candidates `test_ray` collects, one per object asked, or the first error
      an object raises. */
  function Candidates(m: Math, ray: Ray, objects: seq<Body>, toIgnore: Option<Body>)
    : (r: Result<seq<Intersection<Body>>>)
    ensures r.Err? ==> r.error == ZeroDivisionError
  {
    if objects == [] then Ok([])
    else
      var before :- Candidates(m, ray, objects[..|objects| - 1], toIgnore);
      var last := objects[|objects| - 1];
      if Some(last) == toIgnore then Ok(before)
      else
        var current :- last.Intersect(m, ray);
        Ok(before + [current])
  }

  /** Each candidate comes from the object asked at its position. */
  lemma {:induction false} CandidatesFollowKept(m: Math, ray: Ray, objects: seq<Body>, toIgnore: Option<Body>)
    requires Candidates(m, ray, objects, toIgnore).Ok?
    ensures var hits, kept := Candidates(m, ray, objects, toIgnore).value, Kept(objects, toIgnore);
      |hits| == |kept| && forall k :: 0 <= k < |hits| ==> hits[k].obj == Some(kept[k])
  {
    if objects != [] {
      CandidatesFollowKept(m, ray, objects[..|objects| - 1], toIgnore);
    }
  }

  /** An error on a prefix of the list is the error of the whole list. */
  lemma {:induction false} CandidatesStopAtError(m: Math, ray: Ray, objects: seq<Body>, toIgnore: Option<Body>, n: nat)
    requires n <= |objects| && Candidates(m, ray, objects[..n], toIgnore).Err?
    ensures Candidates(m, ray, objects, toIgnore).Err?
  {
    if n < |objects| {
      var init := objects[..|objects| - 1];
      assert init[..n] == objects[..n];
      CandidatesStopAtError(m, ray, init, toIgnore, n);
    } else {
      assert objects[..n] == objects;
    }
  }

  /** `test_ray` of test.py: the nearest candidate, found by the same scan as in
      ray_tracer.py. */
  method TestRay(m: Math, ray: Ray, objects: seq<Body>, toIgnore: Option<Body>) returns (r: Result<Intersection<Body>>)
    ensures r.Err? <==> Candidates(m, ray, objects, toIgnore).Err?
    ensures r.Err? ==> r.error == ZeroDivisionError
    ensures r.Ok? ==> r.value == Nearest(Candidates(m, ray, objects, toIgnore).value)
  {
    var intersect := Sentinel();
    ghost var hits := [];
    var i := 0;
    while i < |objects|
      invariant 0 <= i <= |objects|
      invariant Candidates(m, ray, objects[..i], toIgnore) == Ok(hits)
      invariant intersect == Nearest(hits)
    {
      assert objects[..i + 1][..i] == objects[..i];
      var obj := objects[i];
      if Some(obj) != toIgnore {
        var cur := obj.Intersect(m, ray);
        if cur.Err? {
          CandidatesStopAtError(m, ray, objects, toIgnore, i + 1);
          return Err(cur.error);
        }
        assert (hits + [cur.value])[..|hits|] == hits;
        hits := hits + [cur.value];
        if cur.value.d > 0.0 && intersect.d < 0.0 {
          intersect := cur.value;
        } else if 0.0 < cur.value.d && cur.value.d < intersect.d {
          intersect := cur.value;
        }
      }
      i := i + 1;
    }
    assert objects[..i] == objects;
    r := Ok(intersect);
  }

  /** `mix`: the point a fraction `t` of the way from `a` to `b`. */
  function Mix(a: Vector, b: Vector, t: real): (r: Vector)
    ensures t == 0.0 ==> r == a
    ensures t == 1.0 ==> r == b
    ensures a == b ==> r == a
  {
    b.Scale(t).Add(a.Scale(1.0 - t))
  }

  datatype Light = Light(o: Vector, color: Vector)

  /** How a light's power joins the running `light_effect`: it replaces the
      value while that is exactly `AMBIENT`, and is added to it afterwards. */
  function Combine(effect: real, power: real): (r: real)
    ensures effect == Lighting.AMBIENT ==> r == power
    ensures effect != Lighting.AMBIENT ==> r == effect + power
  {
    if effect == Lighting.AMBIENT then power else effect + power
  }

  /** The power an unshadowed light gives at `point`: the intensity falls off with
      a power of the distance, the Lambert term is floored at `AMBIENT`, and the
      specular term is added above the floor. */
  function Power(m: Math, light: Light, point: Vector, normal: Vector, reflective: real): (r: Result<real>)
    ensures r.Err? ==> r.error == ZeroDivisionError
  {
    var po := light.o.Sub(point);
    var u :- NormalOrFail(m, po);
    var denominator := 4.0 * 3.1415 * m.pow(po.Len(m), 2.0 - reflective / 5.0);
    if denominator == 0.0 then Err(ZeroDivisionError)
    else
      var intensity := 200000.0 / denominator;
      var power := Lighting.Max(normal.Dot(u.Scale(intensity)), Lighting.AMBIENT);
      Ok(if power != Lighting.AMBIENT then power + reflective * m.pow(normal.Dot(u), 100.0 * reflective) else power)
  }

  /** The loop over the lights in `trace`: a light whose shadow ray stops short of
      it is skipped; the others' powers are combined from `AMBIENT`. */
  function Glow(m: Math, lights: seq<Light>, hit: Intersection<Body>, obj: Body, objects: seq<Body>): (r: Result<real>)
    ensures r.Err? ==> r.error == ZeroDivisionError
  {
    if lights == [] then Ok(Lighting.AMBIENT)
    else
      var before :- Glow(m, lights[..|lights| - 1], hit, obj, objects);
      GlowStep(m, before, lights[|lights| - 1], hit, obj, objects)
  }

  /** How far the shadow ray from the hit towards the light runs before it meets
      another object: the nearest hit's distance, `-1` when there is none, or the
      exception the scan raises. */
  function ShadowDistance(m: Math, light: Light, hit: Intersection<Body>, obj: Body, objects: seq<Body>): (r: Result<real>)
    ensures r.Err? ==> r.error == ZeroDivisionError
    ensures r.Ok? ==> r.value == -1.0 || 0.0 < r.value
  {
    var u :- NormalOrFail(m, light.o.Sub(hit.p));
    var occluders :- Candidates(m, Ray(hit.p.Add(u), u), objects, Some(obj));
    Ok(Nearest(occluders).d)
  }

  /** One light of the loop: a light with an object between it and the hit is
      skipped and leaves the running value as it was; any other light's power is
      combined with it. */
  function GlowStep(m: Math, before: real, light: Light, hit: Intersection<Body>, obj: Body, objects: seq<Body>): (r: Result<real>)
    ensures r.Err? ==> r.error == ZeroDivisionError
    ensures var d := ShadowDistance(m, light, hit, obj, objects);
      var power := Power(m, light, hit.p, hit.n, obj.Reflective());
      var shadowed := d.Ok? && d.value != -1.0 && d.value < light.o.Sub(hit.p).Len(m);
      && (d.Err? ==> r == Err(d.error))
      && (shadowed ==> r == Ok(before))
      && (d.Ok? && !shadowed && power.Ok? ==> r == Ok(Combine(before, power.value)))
      && (d.Ok? && !shadowed && power.Err? ==> r == Err(power.error))
  {
    var d :- ShadowDistance(m, light, hit, obj, objects);
    if d != -1.0 && d < light.o.Sub(hit.p).Len(m) then Ok(before)
    else
      var power :- Power(m, light, hit.p, hit.n, obj.Reflective());
      Ok(Combine(before, power))
  }

  /** The loop over the lights in `trace`. */
  method LightEffect(m: Math, lights: seq<Light>, hit: Intersection<Body>, obj: Body, objects: seq<Body>) returns (r: Result<real>)
    ensures r == Glow(m, lights, hit, obj, objects)
  {
    var lightEffect := Lighting.AMBIENT;
    var i := 0;
    while i < |lights|
      invariant 0 <= i <= |lights|
      invariant Glow(m, lights[..i], hit, obj, objects) == Ok(lightEffect)
    {
      GlowSnoc(m, lights, hit, obj, objects, i);
      var step := LightStep(m, lightEffect, lights[i], hit, obj, objects);
      if step.Err? {
        GlowStopsAtError(m, lights, hit, obj, objects, i + 1);
        return step;
      }
      lightEffect := step.value;
      i := i + 1;
    }
    assert lights[..i] == lights;
    r := Ok(lightEffect);
  }

  /** The body of the loop over the lights for one light. */
  method LightStep(m: Math, lightEffect: real, light: Light, hit: Intersection<Body>, obj: Body, objects: seq<Body>)
    returns (r: Result<real>)
    ensures r == GlowStep(m, lightEffect, light, hit, obj, objects)
  {
    var po := light.o.Sub(hit.p);
    var u := NormalOrFail(m, po);
    if u.Err? {
      return Err(u.error);
    }
    var shadow := TestRay(m, Ray(hit.p.Add(u.value), u.value), objects, Some(obj));
    if shadow.Err? {
      return Err(shadow.error);
    }
    var d := shadow.value.d;
    if d != -1.0 && d < po.Len(m) {
      return Ok(lightEffect);
    }
    var power := Power(m, light, hit.p, hit.n, obj.Reflective());
    if power.Err? {
      return Err(power.error);
    }
    if lightEffect == Lighting.AMBIENT {
      r := Ok(power.value);
    } else {
      r := Ok(lightEffect + power.value);
    }
  }

  /** One more light applies `GlowStep` to the value of the lights before it. */
  lemma GlowSnoc(m: Math, lights: seq<Light>, hit: Intersection<Body>, obj: Body, objects: seq<Body>, i: nat)
    requires i < |lights| && Glow(m, lights[..i], hit, obj, objects).Ok?
    ensures Glow(m, lights[..i + 1], hit, obj, objects)
         == GlowStep(m, Glow(m, lights[..i], hit, obj, objects).value, lights[i], hit, obj, objects)
  {
    assert lights[..i + 1][..i] == lights[..i];
  }

  /** An error on a prefix of the lights is the result of the whole loop. */
  lemma {:induction false} GlowStopsAtError(m: Math, lights: seq<Light>, hit: Intersection<Body>, obj: Body, objects: seq<Body>, n: nat)
    requires n <= |lights| && Glow(m, lights[..n], hit, obj, objects).Err?
    ensures Glow(m, lights, hit, obj, objects) == Glow(m, lights[..n], hit, obj, objects)
  {
    if n < |lights| {
      var init := lights[..|lights| - 1];
      assert init[..n] == lights[..n];
      GlowStopsAtError(m, init, hit, obj, objects, n);
    } else {
      assert lights[..n] == lights;
    }
  }

  /** `trace` of test.py: the background grey at depth 0 or on a miss; otherwise
      the object's colour, plus the mirrored colour for a reflective object, times
      the combined light. */
  function TraceSpec(m: Math, ray: Ray, objects: seq<Body>, lights: seq<Light>, depth: nat): (r: Result<Vector>)
    ensures depth == 0 ==> r == Ok(Tracer.BACKGROUND)
    ensures r.Err? ==> r.error == ZeroDivisionError || r.error == AttributeError("color")
    decreases depth, 1
  {
    if depth == 0 then Ok(Tracer.BACKGROUND)
    else
      var hits :- Candidates(m, ray, objects, None);
      var hit := Nearest(hits);
      if hit.d == -1.0 then Ok(Tracer.BACKGROUND)
      else if hit.obj.None? then Err(AttributeError("color"))
      else
        var obj := hit.obj.value;
        var color :- if obj.Reflective() == 0.0 then Ok(obj.Color()) else MirrorSpec(m, ray, hit, obj, objects, lights, depth);
        var effect :- Glow(m, lights, hit, obj, objects);
        Ok(color.Scale(effect))
  }

  /** The colour of a reflective object with what its mirror ray sees added. */
  function MirrorSpec(m: Math, ray: Ray, hit: Intersection<Body>, obj: Body, objects: seq<Body>, lights: seq<Light>, depth: nat)
    : (r: Result<Vector>)
    requires 0 < depth
    ensures r.Err? ==> r.error == ZeroDivisionError || r.error == AttributeError("color")
    ensures r.Ok? && obj.Reflective() == 0.0 ==> r.value == obj.Color()
    decreases depth, 0
  {
    var refvec :- NormalOrFail(m, Tracer.Reflect(ray.d, hit.n));
    var refcolor :- TraceSpec(m, Ray(hit.p.Add(refvec.Scale(0.0001)), refvec), objects, lights, depth - 1);
    Ok(obj.Color().Add(refcolor.Scale(obj.Reflective())))
  }

  /** `trace` of test.py. */
  method Trace(m: Math, ray: Ray, objects: seq<Body>, lights: seq<Light>, depth: nat) returns (r: Result<Vector>)
    ensures r == TraceSpec(m, ray, objects, lights, depth)
    decreases depth, 1
  {
    if depth == 0 {
      return Ok(Tracer.BACKGROUND);
    }
    var intersection := TestRay(m, ray, objects, None);
    if intersection.Err? {
      return Err(intersection.error);
    }
    var hit := intersection.value;
    if hit.d == -1.0 {
      return Ok(Tracer.BACKGROUND);
    }
    if hit.obj.None? {
      return Err(AttributeError("color"));
    }
    var obj := hit.obj.value;
    var color := obj.Color();
    if obj.Reflective() != 0.0 {
      var mirrored := Mirror(m, ray, hit, obj, objects, lights, depth);
      if mirrored.Err? {
        return mirrored;
      }
      color := mirrored.value;
    }
    var lightEffect := LightEffect(m, lights, hit, obj, objects);
    if lightEffect.Err? {
      return Err(lightEffect.error);
    }
    r := Ok(color.Scale(lightEffect.value));
  }

  /** The reflection step of `trace`. */
  method Mirror(m: Math, ray: Ray, hit: Intersection<Body>, obj: Body, objects: seq<Body>, lights: seq<Light>, depth: nat)
    returns (r: Result<Vector>)
    requires 0 < depth
    ensures r == MirrorSpec(m, ray, hit, obj, objects, lights, depth)
    decreases depth, 0
  {
    var refvec := NormalOrFail(m, Tracer.Reflect(ray.d, hit.n));
    if refvec.Err? {
      return Err(refvec.error);
    }
    var refcolor := Trace(m, Ray(hit.p.Add(refvec.value.Scale(0.0001)), refvec.value), objects, lights, depth - 1);
    if refcolor.Err? {
      return Err(refcolor.error);
    }
    r := Ok(obj.Color().Add(refcolor.value.Scale(obj.Reflective())));
  }

  /** `trace` gives the background grey at depth 0, and when no candidate lies in
      front of the ray. */
  lemma TraceBackground(m: Math, ray: Ray, objects: seq<Body>, lights: seq<Light>, depth: nat)
    requires depth == 0 || (Candidates(m, ray, objects, None).Ok? && forall h :: h in Candidates(m, ray, objects, None).value ==> h.d <= 0.0)
    ensures TraceSpec(m, ray, objects, lights, depth) == Ok(Tracer.BACKGROUND)
  {
    if depth != 0 {
      NearestMissIff(Candidates(m, ray, objects, None).value);
    }
  }

  /** Without lights, a hit on an object that does not reflect gets its colour
      times `AMBIENT`. */
  lemma UnlitMatte(m: Math, ray: Ray, objects: seq<Body>, depth: nat)
    requires 0 < depth && Candidates(m, ray, objects, None).Ok?
    requires var hit := Nearest(Candidates(m, ray, objects, None).value);
      hit.d != -1.0 && hit.obj.Some? && hit.obj.value.Reflective() == 0.0
    ensures TraceSpec(m, ray, objects, [], depth) ==
      Ok(Nearest(Candidates(m, ray, objects, None).value).obj.value.Color().Scale(Lighting.AMBIENT))
  {
  }

  /** An object that does not reflect is shaded without a recursive call, so any
      positive depth gives the same colour. */
  lemma MatteIgnoresDepth(m: Math, ray: Ray, objects: seq<Body>, lights: seq<Light>, depth: nat)
    requires 0 < depth && Candidates(m, ray, objects, None).Ok?
    requires var hit := Nearest(Candidates(m, ray, objects, None).value);
      hit.obj.Some? && hit.obj.value.Reflective() == 0.0
    ensures TraceSpec(m, ray, objects, lights, depth) == TraceSpec(m, ray, objects, lights, 1)
  {
  }

  /** The first light that is not skipped sets `light_effect` to its power, and a
      light at exactly the `AMBIENT` floor is then forgotten: after it, the next
      power replaces the running value instead of being added to it. */
  lemma FloorLightForgotten(p: real)
    ensures Combine(Lighting.AMBIENT, p) == p
    ensures Combine(Combine(Lighting.AMBIENT, Lighting.AMBIENT), p) == p
  {
  }

  /** The power of an unshadowed light, on a material whose `reflective` is not
      negative, is never below `AMBIENT`. */
  lemma PowerAtLeastAmbient(m: Math, light: Light, point: Vector, normal: Vector, reflective: real)
    requires m.Lawful() && 0.0 <= reflective
    requires Power(m, light, point, normal, reflective).Ok?
    ensures Lighting.AMBIENT <= Power(m, light, point, normal, reflective).value
  {
    var po := light.o.Sub(point);
    var u := po.Normal(m);
    var e := 2.0 - reflective / 5.0;
    assert 0.0 < m.pow(po.Len(m), e);
    var denominator := 4.0 * 3.1415 * m.pow(po.Len(m), e);
    var intensity := 200000.0 / denominator;
    assert 0.0 < intensity;
    var lambert := normal.Dot(u.Scale(intensity));
    var power := Lighting.Max(lambert, Lighting.AMBIENT);
    if power != Lighting.AMBIENT {
      DotScale(u, normal, intensity);
      DotSymmetric(normal, u.Scale(intensity));
      DotSymmetric(normal, u);
      assert lambert == intensity * normal.Dot(u);
      Lighting.PositiveFactor(intensity, normal.Dot(u));
      var spec := m.pow(normal.Dot(u), 100.0 * reflective);
      assert 0.0 < spec;
      assert 0.0 <= reflective * spec;
      assert Power(m, light, point, normal, reflective).value == power + reflective * spec;
    }
  }

  /** With a lawful `pow` and a material whose `reflective` is not negative, the
      combined light is never below `AMBIENT`. */
  lemma {:induction false} GlowAtLeastAmbient(m: Math, lights: seq<Light>, hit: Intersection<Body>, obj: Body, objects: seq<Body>)
    requires m.Lawful() && 0.0 <= obj.Reflective()
    requires Glow(m, lights, hit, obj, objects).Ok?
    ensures Lighting.AMBIENT <= Glow(m, lights, hit, obj, objects).value
  {
    if lights != [] {
      var init := lights[..|lights| - 1];
      GlowAtLeastAmbient(m, init, hit, obj, objects);
      var light := lights[|lights| - 1];
      var power := Power(m, light, hit.p, hit.n, obj.Reflective());
      if power.Ok? {
        PowerAtLeastAmbient(m, light, hit.p, hit.n, obj.Reflective());
      }
    }
  }
}
