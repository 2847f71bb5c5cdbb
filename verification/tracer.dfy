/** `trace` of ray_tracer.py: the colour seen along a ray. The nearest hit is lit
    by every light, then reflection and refraction recurse with one less unit of
    depth. Every scan may turn triangles' planes round, so the specification
    threads the plane normals through the recursion. */
module Tracer {
  import opened Numerics
  import opened Vectors
  import opened Hits
  import opened Primitives
  import opened Scene
  import opened Lighting

  /** The colour of a ray that hits nothing, or that has no depth left. */
  const BACKGROUND: Vector := Vector(AMBIENT, AMBIENT, AMBIENT)

  /** The mirror image of direction `d` in the surface with normal `n`. */
  function Reflect(d: Vector, n: Vector): Vector {
    d.Sub(n.Scale(2.0).Scale(d.Dot(n)))
  }

  /** The ray that continues a reflection, nudged off the surface by `EPS`. */
  function ReflectedRay(m: Math, ray: Ray, hit: Intersection<Shape>): Ray {
    var dir := Reflect(ray.d, hit.n).Normal(m);
    Ray(hit.p.Add(dir.Scale(EPS)), dir)
  }

  /** The ray that continues a refraction, nudged along its own direction. */
  function RefractedRay(p: Vector, dir: Vector): Ray {
    Ray(p.Add(dir.Scale(0.0001)), dir)
  }

  /** Snell's law as `trace` applies it to direction `d` meeting a surface with
      normal `n` and refractive index `coef`. A ray against the normal enters
      (index ratio `1 / coef`); any other ray leaves (ratio `coef`, normal turned
      round). `None` is total internal reflection. Entering a medium of index zero
      divides by zero. */
  function Refract(m: Math, d: Vector, n: Vector, coef: real): (r: Result<Option<Vector>>)
    ensures r.Err? <==> d.Dot(n) < 0.0 && coef == 0.0
    ensures r.Err? ==> r.error == ZeroDivisionError
  {
    if d.Dot(n) < 0.0 then
      if coef == 0.0 then Err(ZeroDivisionError)
      else Ok(Bend(m, d, n, 1.0 / coef, -d.Dot(n)))
    else Ok(Bend(m, d, n.Scale(-1.0), coef / 1.0, d.Dot(n)))
  }

  /** The refracted direction for index ratio `ratio`, with `normal` facing the
      incoming ray and `cs` the cosine of the angle of incidence; `None` when the
      square root would be of a negative number. */
  function Bend(m: Math, d: Vector, normal: Vector, ratio: real, cs: real): (r: Option<Vector>)
    ensures r.None? <==> 1.0 - ratio * ratio * (1.0 - cs * cs) < 0.0
  {
    var k := 1.0 - ratio * ratio * (1.0 - cs * cs);
    if k < 0.0 then None
    else Some(d.Scale(ratio).Add(normal.Scale(ratio * cs - m.sqrt(k))))
  }

  /** The final mix: surface colour times the light, damped by the parts that are
      reflected and refracted, plus those two contributions. A perfect mirror
      (`reflective` 1) shows no colour of its own and no light; a surface that
      neither reflects nor refracts shows only its colour times the light. */
  function Compose(mat: Material, light: Vector, reflected: Vector, refracted: Vector): (r: Vector)
    ensures mat.reflective == 1.0 ==> r == reflected.Add(refracted.Scale(mat.refractive))
    ensures mat.reflective == 0.0 && mat.refractive == 0.0 ==> r == mat.color.Times(light).Add(reflected)
  {
    mat.color.Times(light).Scale(1.0 - mat.refractive).Scale(1.0 - mat.reflective)
      .Add(reflected).Add(refracted.Scale(mat.refractive))
  }

  /** `light_effect += effect`: adding Python's `None` raises `AttributeError`. */
  function Accumulate(total: Vector, effect: Result<Option<Vector>>): (r: Result<Vector>)
    ensures r.Ok? <==> effect.Ok? && effect.value.Some?
    ensures r.Ok? ==> r.value.Sub(total) == effect.value.value
  {
    match effect
    case Err(e) => Err(e)
    case Ok(None) => Err(AttributeError("x"))
    case Ok(Some(v)) => Ok(total.Add(v))
  }

  /** The lights loop of `trace`, light by light from the first, stopping at the
      first exception. */
  function Illuminate(m: Math, lights: seq<Light>, point: Vector, normal: Vector, obj: Shape, objects: seq<Shape>, norms: map<Plane, Vector>)
    : (r: (Result<Vector>, map<Plane, Vector>))
    requires Covers(objects, norms)
    ensures r.1.Keys == norms.Keys
  {
    if lights == [] then (Ok(Zero), norms)
    else
      var before := Illuminate(m, lights[..|lights| - 1], point, normal, obj, objects, norms);
      if before.0.Err? then before
      else
        var step := EffectSpec(m, lights[|lights| - 1], point, normal, obj, objects, before.1);
        (Accumulate(before.0.value, step.0), step.1)
  }

  /** `trace` on the normals map. */
  function TraceSpec(m: Math, ray: Ray, objects: seq<Shape>, lights: seq<Light>, depth: nat, norms: map<Plane, Vector>)
    : (r: (Result<Vector>, map<Plane, Vector>))
    requires Covers(objects, norms)
    ensures r.1.Keys == norms.Keys
    decreases depth, 2
  {
    if depth == 0 then (Ok(BACKGROUND), norms)
    else
      var scan := Scan(m, ray, objects, [], norms);
      var hit := Nearest(scan.0);
      if hit.d == -1.0 then (Ok(BACKGROUND), scan.1)
      else if hit.obj.None? then (Err(AttributeError("color")), scan.1)
      else
        var obj := hit.obj.value;
        if obj.PlaneShape? && obj.plane.pattern == SQUARED && obj.plane.scale == 0.0 then (Err(ZeroDivisionError), scan.1)
        else
          var lit := Illuminate(m, lights, hit.p, hit.n, obj, objects, scan.1);
          if lit.0.Err? then lit
          else BounceSpec(m, ray, objects, lights, depth, hit, obj.Mat(), lit.0.value, lit.1)
  }

  /** The second half of `trace` on the normals map: the reflected and the
      refracted ray, each followed one level deeper, and the final mix. */
  function BounceSpec(m: Math, ray: Ray, objects: seq<Shape>, lights: seq<Light>, depth: nat,
                      hit: Intersection<Shape>, mat: Material, light: Vector, norms: map<Plane, Vector>)
    : (r: (Result<Vector>, map<Plane, Vector>))
    requires Covers(objects, norms) && 1 <= depth
    ensures r.1.Keys == norms.Keys
    decreases depth, 1
  {
    var refl := ReflectionSpec(m, ray, objects, lights, depth, hit, mat, norms);
    if refl.0.Err? then refl
    else
      var refr := RefractionSpec(m, ray, objects, lights, depth, hit, mat, refl.1);
      if refr.0.Err? then refr
      else (Ok(Compose(mat, light, refl.0.value, refr.0.value)), refr.1)
  }

  /** The reflected colour, already weighted by `reflective`; zero for a surface
      that does not reflect. */
  function ReflectionSpec(m: Math, ray: Ray, objects: seq<Shape>, lights: seq<Light>, depth: nat,
                          hit: Intersection<Shape>, mat: Material, norms: map<Plane, Vector>)
    : (r: (Result<Vector>, map<Plane, Vector>))
    requires Covers(objects, norms) && 1 <= depth
    ensures r.1.Keys == norms.Keys
    decreases depth, 0
  {
    if mat.reflective == 0.0 then (Ok(Zero), norms)
    else
      var c := TraceSpec(m, ReflectedRay(m, ray, hit), objects, lights, depth - 1, norms);
      if c.0.Err? then c else (Ok(c.0.value.Scale(mat.reflective)), c.1)
  }

  /** The refracted colour, not yet weighted; zero for a surface that does not
      refract and under total internal reflection. */
  function RefractionSpec(m: Math, ray: Ray, objects: seq<Shape>, lights: seq<Light>, depth: nat,
                          hit: Intersection<Shape>, mat: Material, norms: map<Plane, Vector>)
    : (r: (Result<Vector>, map<Plane, Vector>))
    requires Covers(objects, norms) && 1 <= depth
    ensures r.1.Keys == norms.Keys
    decreases depth, 0
  {
    if mat.refractive == 0.0 then (Ok(Zero), norms)
    else
      match Refract(m, ray.d, hit.n, mat.refractiveCoef)
      case Err(e) => (Err(e), norms)
      case Ok(None) => (Ok(Zero), norms)
      case Ok(Some(dir)) => TraceSpec(m, RefractedRay(hit.p, dir), objects, lights, depth - 1, norms)
  }

  /** Once the lights loop has raised, the later lights change nothing: the loop
      over the whole list ends where it stopped. */
  lemma {:induction false} IlluminateStopsAtError(m: Math, lights: seq<Light>, i: nat, point: Vector, normal: Vector, obj: Shape, objects: seq<Shape>, norms: map<Plane, Vector>)
    requires Covers(objects, norms) && i <= |lights|
    requires Illuminate(m, lights[..i], point, normal, obj, objects, norms).0.Err?
    ensures Illuminate(m, lights, point, normal, obj, objects, norms) == Illuminate(m, lights[..i], point, normal, obj, objects, norms)
    decreases |lights|
  {
    if i < |lights| {
      var init := lights[..|lights| - 1];
      assert init[..i] == lights[..i];
      IlluminateStopsAtError(m, init, i, point, normal, obj, objects, norms);
    } else {
      assert lights[..i] == lights;
    }
  }

  /** A light of a type other than `MAG` and `DISTANT` makes the lights loop raise,
      whatever the other lights are. */
  lemma {:induction false} UnknownLightRaises(m: Math, lights: seq<Light>, point: Vector, normal: Vector, obj: Shape, objects: seq<Shape>, norms: map<Plane, Vector>)
    requires Covers(objects, norms)
    requires exists l :: l in lights && l.kind != MAG && l.kind != DISTANT
    ensures Illuminate(m, lights, point, normal, obj, objects, norms).0.Err?
  {
    var init, last := lights[..|lights| - 1], lights[|lights| - 1];
    if last.kind == MAG || last.kind == DISTANT {
      var l :| l in lights && l.kind != MAG && l.kind != DISTANT;
      assert lights == init + [last];
      assert l in init;
      UnknownLightRaises(m, init, point, normal, obj, objects, norms);
    }
  }

  /** The lights loop of `trace`: the sum of what the lights contribute at `point`. */
  method LightUp(m: Math, lights: seq<Light>, point: Vector, normal: Vector, obj: Shape, objects: seq<Shape>)
    returns (r: Result<Vector>)
    modifies TrianglePlanes(objects)
    ensures (r, NormalsNow(objects)) == Illuminate(m, lights, point, normal, obj, objects, old(NormalsNow(objects)))
  {
    ghost var start := NormalsNow(objects);
    var effect := Zero;
    var i := 0;
    while i < |lights|
      invariant 0 <= i <= |lights|
      invariant Illuminate(m, lights[..i], point, normal, obj, objects, start) == (Ok(effect), NormalsNow(objects))
    {
      IlluminateStep(m, lights, i, point, normal, obj, objects, start);
      var e := CalculateEffect(m, lights[i], point, normal, obj, objects);
      var total := Accumulate(effect, e);
      if total.Err? {
        IlluminateStopsAtError(m, lights, i + 1, point, normal, obj, objects, start);
        return total;
      }
      effect := total.value;
      i := i + 1;
    }
    assert lights[..i] == lights;
    r := Ok(effect);
  }

  /** One more light in the loop: its effect is added to the total so far. */
  lemma IlluminateStep(m: Math, lights: seq<Light>, i: nat, point: Vector, normal: Vector, obj: Shape, objects: seq<Shape>, norms: map<Plane, Vector>)
    requires Covers(objects, norms) && i < |lights|
    requires Illuminate(m, lights[..i], point, normal, obj, objects, norms).0.Ok?
    ensures var before := Illuminate(m, lights[..i], point, normal, obj, objects, norms);
      var step := EffectSpec(m, lights[i], point, normal, obj, objects, before.1);
      Illuminate(m, lights[..i + 1], point, normal, obj, objects, norms) == (Accumulate(before.0.value, step.0), step.1)
  {
    assert lights[..i + 1][..i] == lights[..i];
  }

  /** `trace`: the colour along `ray`, or the exception it raises. */
  method Trace(m: Math, ray: Ray, objects: seq<Shape>, lights: seq<Light>, depth: nat) returns (r: Result<Vector>)
    modifies TrianglePlanes(objects)
    ensures (r, NormalsNow(objects)) == TraceSpec(m, ray, objects, lights, depth, old(NormalsNow(objects)))
    decreases depth, 2
  {
    if depth == 0 {
      return Ok(BACKGROUND);
    }
    var hit, hits := TestRay(m, ray, objects, []);
    if hit.d == -1.0 {
      return Ok(BACKGROUND);
    }
    if hit.obj.None? {
      return Err(AttributeError("color"));
    }
    var obj := hit.obj.value;
    if obj.PlaneShape? && obj.plane.pattern == SQUARED && obj.plane.scale == 0.0 {
      return Err(ZeroDivisionError);
    }
    var lit := LightUp(m, lights, hit.p, hit.n, obj, objects);
    if lit.Err? {
      return lit;
    }
    r := Bounce(m, ray, objects, lights, depth, hit, obj.Mat(), lit.value);
  }

  /** The second half of `trace`: reflection, refraction and the final mix. */
  method Bounce(m: Math, ray: Ray, objects: seq<Shape>, lights: seq<Light>, depth: nat,
                hit: Intersection<Shape>, mat: Material, light: Vector) returns (r: Result<Vector>)
    requires 1 <= depth
    modifies TrianglePlanes(objects)
    ensures (r, NormalsNow(objects)) == BounceSpec(m, ray, objects, lights, depth, hit, mat, light, old(NormalsNow(objects)))
    decreases depth, 1
  {
    var reflected := Reflection(m, ray, objects, lights, depth, hit, mat);
    if reflected.Err? {
      return reflected;
    }
    var refracted := Refraction(m, ray, objects, lights, depth, hit, mat);
    if refracted.Err? {
      return refracted;
    }
    r := Ok(Compose(mat, light, reflected.value, refracted.value));
  }

  /** The reflection step of `trace`. */
  method Reflection(m: Math, ray: Ray, objects: seq<Shape>, lights: seq<Light>, depth: nat,
                    hit: Intersection<Shape>, mat: Material) returns (r: Result<Vector>)
    requires 1 <= depth
    modifies TrianglePlanes(objects)
    ensures (r, NormalsNow(objects)) == ReflectionSpec(m, ray, objects, lights, depth, hit, mat, old(NormalsNow(objects)))
    decreases depth, 0
  {
    r := Ok(Zero);
    if mat.reflective != 0.0 {
      var c := Trace(m, ReflectedRay(m, ray, hit), objects, lights, depth - 1);
      if c.Err? {
        return c;
      }
      r := Ok(c.value.Scale(mat.reflective));
    }
  }

  /** The refraction step of `trace`. */
  method Refraction(m: Math, ray: Ray, objects: seq<Shape>, lights: seq<Light>, depth: nat,
                    hit: Intersection<Shape>, mat: Material) returns (r: Result<Vector>)
    requires 1 <= depth
    modifies TrianglePlanes(objects)
    ensures (r, NormalsNow(objects)) == RefractionSpec(m, ray, objects, lights, depth, hit, mat, old(NormalsNow(objects)))
    decreases depth, 0
  {
    r := Ok(Zero);
    if mat.refractive != 0.0 {
      var dir := Refract(m, ray.d, hit.n, mat.refractiveCoef);
      if dir.Err? {
        return Err(dir.error);
      }
      if dir.value.Some? {
        r := Trace(m, RefractedRay(hit.p, dir.value.value), objects, lights, depth - 1);
      }
    }
  }

  /** With no depth left, `trace` shows the background and turns no plane round. */
  lemma TraceAtDepthZero(m: Math, ray: Ray, objects: seq<Shape>, lights: seq<Light>, norms: map<Plane, Vector>)
    requires Covers(objects, norms)
    ensures TraceSpec(m, ray, objects, lights, 0, norms) == (Ok(BACKGROUND), norms)
  {
  }

  /** Under total internal reflection (`k < 0`) no refracted ray is traced: the
      refracted colour is zero and no plane is turned round. */
  lemma TotalReflectionRefractsNothing(m: Math, ray: Ray, objects: seq<Shape>, lights: seq<Light>, depth: nat,
                                       hit: Intersection<Shape>, mat: Material, norms: map<Plane, Vector>)
    requires Covers(objects, norms) && 1 <= depth
    requires Refract(m, ray.d, hit.n, mat.refractiveCoef) == Ok(None)
    ensures RefractionSpec(m, ray, objects, lights, depth, hit, mat, norms) == (Ok(Zero), norms)
  {
  }

  /** A surface that does not reflect sends no reflected ray. */
  lemma MatteReflectsNothing(m: Math, ray: Ray, objects: seq<Shape>, lights: seq<Light>, depth: nat,
                             hit: Intersection<Shape>, mat: Material, norms: map<Plane, Vector>)
    requires Covers(objects, norms) && 1 <= depth && mat.reflective == 0.0
    ensures ReflectionSpec(m, ray, objects, lights, depth, hit, mat, norms) == (Ok(Zero), norms)
  {
  }

  /** On a perfect mirror (`reflective` 1) the light at the point has no part in
      the colour: the local term of line 273 is multiplied by zero. */
  lemma MirrorIgnoresLight(m: Math, ray: Ray, objects: seq<Shape>, lights: seq<Light>, depth: nat,
                           hit: Intersection<Shape>, mat: Material, light1: Vector, light2: Vector, norms: map<Plane, Vector>)
    requires Covers(objects, norms) && 1 <= depth && mat.reflective == 1.0
    ensures BounceSpec(m, ray, objects, lights, depth, hit, mat, light1, norms)
         == BounceSpec(m, ray, objects, lights, depth, hit, mat, light2, norms)
  {
    var refl := ReflectionSpec(m, ray, objects, lights, depth, hit, mat, norms);
    if refl.0.Ok? {
      var refr := RefractionSpec(m, ray, objects, lights, depth, hit, mat, refl.1);
      if refr.0.Ok? {
        assert Compose(mat, light1, refl.0.value, refr.0.value) == Compose(mat, light2, refl.0.value, refr.0.value);
      }
    }
  }

  /** The reflected ray starts `EPS` along its own direction from the hit, and
      that direction is a unit vector when the mirror image is not zero. */
  lemma ReflectedRayLeavesSurface(m: Math, ray: Ray, hit: Intersection<Shape>)
    requires m.Lawful() && Reflect(ray.d, hit.n).Len(m) != 0.0
    ensures ReflectedRay(m, ray, hit).o.Sub(hit.p) == ReflectedRay(m, ray, hit).d.Scale(EPS)
    ensures ReflectedRay(m, ray, hit).d.Len(m) == 1.0
  {
    NormalIsUnit(m, Reflect(ray.d, hit.n));
  }

  /** The refracted ray keeps the refracted direction and starts `0.0001` along
      it from the hit. */
  lemma RefractedRayLeavesSurface(p: Vector, dir: Vector)
    ensures RefractedRay(p, dir).d == dir
    ensures RefractedRay(p, dir).o.Sub(p) == dir.Scale(0.0001)
  {
  }

  /** A ray whose scan finds nothing in front of it shows the background. */
  lemma TraceMissIsBackground(m: Math, ray: Ray, objects: seq<Shape>, lights: seq<Light>, depth: nat, norms: map<Plane, Vector>)
    requires Covers(objects, norms)
    requires forall h :: h in Scan(m, ray, objects, [], norms).0 ==> h.d <= 0.0
    ensures TraceSpec(m, ray, objects, lights, depth, norms).0 == Ok(BACKGROUND)
  {
    NearestMissIff(Scan(m, ray, objects, [], norms).0);
  }

  /** A surface that neither reflects nor refracts does not look deeper: any depth
      from one up gives the same colour and leaves the same normals. */
  lemma MatteIgnoresDepth(m: Math, ray: Ray, objects: seq<Shape>, lights: seq<Light>, d1: nat, d2: nat, norms: map<Plane, Vector>)
    requires Covers(objects, norms) && 1 <= d1 && 1 <= d2
    requires var hit := Nearest(Scan(m, ray, objects, [], norms).0);
      hit.obj.Some? ==> hit.obj.value.Mat().reflective == 0.0 && hit.obj.value.Mat().refractive == 0.0
    ensures TraceSpec(m, ray, objects, lights, d1, norms) == TraceSpec(m, ray, objects, lights, d2, norms)
  {
    var scan := Scan(m, ray, objects, [], norms);
    var hit := Nearest(scan.0);
    if hit.d != -1.0 && hit.obj.Some? {
      var obj := hit.obj.value;
      var lit := Illuminate(m, lights, hit.p, hit.n, obj, objects, scan.1);
      if lit.0.Ok? {
        MatteBounce(m, ray, objects, lights, d1, hit, obj.Mat(), lit.0.value, lit.1);
        MatteBounce(m, ray, objects, lights, d2, hit, obj.Mat(), lit.0.value, lit.1);
      }
    }
  }

  /** The second half of `trace` on a surface that neither reflects nor refracts
      is the surface colour times the light, whatever the depth. */
  lemma MatteBounce(m: Math, ray: Ray, objects: seq<Shape>, lights: seq<Light>, depth: nat,
                    hit: Intersection<Shape>, mat: Material, light: Vector, norms: map<Plane, Vector>)
    requires Covers(objects, norms) && 1 <= depth
    requires mat.reflective == 0.0 && mat.refractive == 0.0
    ensures BounceSpec(m, ray, objects, lights, depth, hit, mat, light, norms) == (Ok(mat.color.Times(light)), norms)
  {
    assert ReflectionSpec(m, ray, objects, lights, depth, hit, mat, norms) == (Ok(Zero), norms);
    assert RefractionSpec(m, ray, objects, lights, depth, hit, mat, norms) == (Ok(Zero), norms);
  }

  /** With no lights, a surface that neither reflects nor refracts is black. */
  lemma UnlitMatteIsBlack(m: Math, ray: Ray, objects: seq<Shape>, depth: nat, norms: map<Plane, Vector>)
    requires Covers(objects, norms) && 1 <= depth
    requires var hit := Nearest(Scan(m, ray, objects, [], norms).0);
      && hit.d != -1.0 && hit.obj.Some?
      && hit.obj.value.Mat().reflective == 0.0 && hit.obj.value.Mat().refractive == 0.0
      && !(hit.obj.value.PlaneShape? && hit.obj.value.plane.pattern == SQUARED && hit.obj.value.plane.scale == 0.0)
    ensures TraceSpec(m, ray, objects, [], depth, norms).0 == Ok(Zero)
  {
    var scan := Scan(m, ray, objects, [], norms);
    var hit := Nearest(scan.0);
    var obj := hit.obj.value;
    assert Illuminate(m, [], hit.p, hit.n, obj, objects, scan.1) == (Ok(Zero), scan.1);
    MatteBounce(m, ray, objects, [], depth, hit, obj.Mat(), Zero, scan.1);
  }

  /** A hit lit by a light of unknown type raises, at any depth. */
  lemma TraceWithUnknownLightRaises(m: Math, ray: Ray, objects: seq<Shape>, lights: seq<Light>, depth: nat, norms: map<Plane, Vector>)
    requires Covers(objects, norms) && 1 <= depth
    requires exists l :: l in lights && l.kind != MAG && l.kind != DISTANT
    requires Nearest(Scan(m, ray, objects, [], norms).0).d != -1.0
    ensures TraceSpec(m, ray, objects, lights, depth, norms).0.Err?
  {
    var scan := Scan(m, ray, objects, [], norms);
    var hit := Nearest(scan.0);
    if hit.obj.Some? {
      UnknownLightRaises(m, lights, hit.p, hit.n, hit.obj.value, objects, scan.1);
    }
  }

  /** Reflection in a unit normal turns the normal component of the direction
      round. */
  lemma ReflectFlipsNormalComponent(d: Vector, n: Vector)
    requires n.Dot(n) == 1.0
    ensures Reflect(d, n).Dot(n) == -d.Dot(n)
  {
    DotScale(n, n, 2.0);
    DotScale(n.Scale(2.0), n, d.Dot(n));
  }

  /** Reflecting twice in the same unit normal gives the direction back. */
  lemma ReflectTwice(d: Vector, n: Vector)
    requires n.Dot(n) == 1.0
    ensures Reflect(Reflect(d, n), n) == d
  {
    ReflectFlipsNormalComponent(d, n);
  }

  /** A ray meeting a surface of index 1 head-on goes straight through. */
  lemma UnitIndexGoesStraight(m: Math, d: Vector, n: Vector)
    requires m.Lawful() && d.Dot(n) < 0.0
    ensures Refract(m, d, n, 1.0) == Ok(Some(d))
  {
    BendStraight(m, d, n, -d.Dot(n));
  }

  /** The step of `UnitIndexGoesStraight`: with ratio 1 the correction along the
      normal vanishes. */
  lemma BendStraight(m: Math, d: Vector, n: Vector, cs: real)
    requires m.Lawful() && 0.0 <= cs
    ensures Bend(m, d, n, 1.0, cs) == Some(d)
  {
    var k := 1.0 - 1.0 * 1.0 * (1.0 - cs * cs);
    assert k == cs * cs;
    SquareNonNegative(cs);
    SqrtOfSquare(m, cs);
    assert 1.0 * cs - m.sqrt(k) == 0.0;
    assert n.Scale(0.0) == Zero;
    assert d.Scale(1.0).Add(Zero) == d;
  }

  /** Leaving a denser medium along the surface is total internal reflection. */
  lemma GrazingExitReflectsTotally(m: Math, d: Vector, n: Vector, coef: real)
    requires d.Dot(n) == 0.0 && 1.0 < coef
    ensures Refract(m, d, n, coef) == Ok(None)
  {
    assert 1.0 < coef * coef;
  }

  /** The square root of a square is the number, for a number not below zero. */
  lemma SqrtOfSquare(m: Math, c: real)
    requires m.Lawful() && 0.0 <= c
    ensures m.sqrt(c * c) == c
  {
    var s := m.sqrt(c * c);
    SquareNonNegative(c);
    assert 0.0 <= s && s * s == c * c;
    if s < c {
      SquareBelow(s, c);
    } else if c < s {
      SquareBelow(c, s);
    }
  }

  lemma SquareBelow(a: real, b: real)
    requires 0.0 <= a < b
    ensures a * a < b * b
  {
    assert 0.0 <= a * (b - a);
    assert 0.0 < b * (b - a);
  }
}
