/** `Light.calculate_effect` of ray_tracer.py: what one light adds at a surface
    point. A point light (`MAG`) and a distant light (`DISTANT`) cast a shadow ray
    through the scene; any other type falls off the end of the method and yields
    Python's `None`. */
module Lighting {
  import opened Numerics
  import opened Vectors
  import opened Hits
  import opened Primitives
  import opened Scene

  /** The least power a lit point light gives, and the grey of the background. */
  const AMBIENT: real := 0.1

  /** Values of a light's `type`. */
  const MAG: int := 1
  const ANDY: int := 2
  const DISTANT: int := 3

  datatype Light = Light(o: Vector, color: Vector, kind: int, distanceCoef: real)

  /** Python's `max(a, b)` on two floats: the first argument unless the second is
      strictly greater. */
  function Max(a: real, b: real): (r: real)
    ensures a <= r && b <= r
    ensures r == a || r == b
  {
    if b > a then b else a
  }

  /** Whether the light sends a shadow ray: a distant light always, a point light
      unless it sits exactly on the point. */
  predicate Probes(m: Math, light: Light, point: Vector): (r: bool)
    ensures light.kind != MAG && light.kind != DISTANT ==> !r
    ensures light.kind == MAG && light.o.Sub(point).Len(m) == 0.0 ==> !r
  {
    light.kind == DISTANT || (light.kind == MAG && light.o.Sub(point).Len(m) != 0.0)
  }

  /** The shadow ray: from just off the point towards the point light, or against
      the direction of the distant light. */
  function ShadowRay(m: Math, light: Light, point: Vector): Ray {
    if light.kind == MAG then
      var u := light.o.Sub(point).Normal(m);
      Ray(point.Add(u), u)
    else
      var u := light.o.Normal(m).Scale(-1.0);
      Ray(point.Add(u.Scale(0.0001)), u)
  }

  /** The shading rule of a point light that is not blocked: an intensity falling
      off with a power of the distance, a Lambert term floored at `AMBIENT`, and a
      specular term added when the Lambert term is above the floor. The division
      raises `ZeroDivisionError` when the denominator is zero. */
  function PointShade(m: Math, light: Light, point: Vector, normal: Vector, reflective: real): (r: Result<Vector>)
    ensures r.Err? ==> r.error == ZeroDivisionError
  {
    var po := light.o.Sub(point);
    var denominator := 12.5 * m.pow(po.Len(m), 2.0 - reflective / 5.0);
    if denominator == 0.0 then Err(ZeroDivisionError)
    else
      var intensity := light.distanceCoef / denominator;
      var u := po.Normal(m);
      var power := Max(normal.Dot(u.Scale(intensity)), AMBIENT);
      var power' := if power != AMBIENT then power + reflective * m.pow(normal.Dot(u), 100.0 * reflective) else power;
      Ok(light.color.Scale(power'))
  }

  /** What the light contributes at `point` (with surface `normal` and material
      `mat`), given what its shadow ray found first. `Ok(None)` is the `None` an
      unknown light type returns. A point light is blocked only by a hit nearer
      than the light on an object whose `refractive_coef` is zero; reading that
      attribute from a hit with no object raises `AttributeError`. A distant light
      is blocked by any hit. */
  function Effect(m: Math, light: Light, point: Vector, normal: Vector, mat: Material, occluder: Intersection<Shape>)
    : (r: Result<Option<Vector>>)
    ensures r == Ok(None) <==> light.kind != MAG && light.kind != DISTANT
    ensures r.Err? ==> light.kind == MAG && light.o.Sub(point).Len(m) != 0.0
    ensures light.kind == MAG && light.o.Sub(point).Len(m) == 0.0 ==> r == Ok(Some(light.color))
    ensures light.kind == MAG && light.o.Sub(point).Len(m) != 0.0 ==>
      var blocked := occluder.d != -1.0 && occluder.d < light.o.Sub(point).Len(m);
      && (blocked && occluder.obj.None? ==> r == Err(AttributeError("refractive_coef")))
      && (blocked && occluder.obj.Some? && occluder.obj.value.Mat().refractiveCoef == 0.0 ==> r == Ok(Some(Zero)))
      && (!blocked && PointShade(m, light, point, normal, mat.reflective).Ok? ==>
            r == Ok(Some(PointShade(m, light, point, normal, mat.reflective).value)))
      && (!blocked && PointShade(m, light, point, normal, mat.reflective).Err? ==>
            r == Err(PointShade(m, light, point, normal, mat.reflective).error))
    ensures light.kind == DISTANT && occluder.d != -1.0 ==> r == Ok(Some(Zero))
    ensures light.kind == DISTANT && occluder.d == -1.0 ==> r == Ok(Some(light.color.Scale(-light.o.Dot(normal))))
  {
    if light.kind == MAG then
      var po := light.o.Sub(point);
      if po.Len(m) == 0.0 then Ok(Some(light.color))
      else if occluder.d != -1.0 && occluder.d < po.Len(m) && occluder.obj.None? then
        Err(AttributeError("refractive_coef"))
      else if occluder.d != -1.0 && occluder.d < po.Len(m) && occluder.obj.value.Mat().refractiveCoef == 0.0 then
        Ok(Some(Zero))
      else
        match PointShade(m, light, point, normal, mat.reflective)
        case Ok(v) => Ok(Some(v))
        case Err(e) => Err(e)
    else if light.kind == DISTANT then
      if occluder.d != -1.0 then Ok(Some(Zero))
      else Ok(Some(light.color.Scale(-light.o.Dot(normal))))
    else Ok(None)
  }

  /** `calculate_effect` on the normals map: the shadow scan, when there is one,
      ignores the object being lit and may turn triangles' planes round. */
  function EffectSpec(m: Math, light: Light, point: Vector, normal: Vector, obj: Shape, objects: seq<Shape>, norms: map<Plane, Vector>)
    : (r: (Result<Option<Vector>>, map<Plane, Vector>))
    requires Covers(objects, norms)
    ensures r.1.Keys == norms.Keys
    ensures !Probes(m, light, point) ==> r.1 == norms
  {
    if Probes(m, light, point) then
      var scan := Scan(m, ShadowRay(m, light, point), objects, [obj], norms);
      (Effect(m, light, point, normal, obj.Mat(), Nearest(scan.0)), scan.1)
    else
      (Effect(m, light, point, normal, obj.Mat(), Sentinel()), norms)
  }

  /** `Light.calculate_effect`. */
  method CalculateEffect(m: Math, light: Light, point: Vector, normal: Vector, obj: Shape, objects: seq<Shape>)
    returns (r: Result<Option<Vector>>)
    modifies TrianglePlanes(objects)
    ensures (r, NormalsNow(objects)) == EffectSpec(m, light, point, normal, obj, objects, old(NormalsNow(objects)))
  {
    if Probes(m, light, point) {
      var occluder, hits := TestRay(m, ShadowRay(m, light, point), objects, [obj]);
      r := Effect(m, light, point, normal, obj.Mat(), occluder);
    } else {
      r := Effect(m, light, point, normal, obj.Mat(), Sentinel());
    }
  }

  /** The shadow ray of a point light, followed for the light's distance, ends on
      the light. */
  lemma ShadowRayReachesLight(m: Math, light: Light, point: Vector)
    requires light.kind == MAG && light.o.Sub(point).Len(m) != 0.0
    ensures point.Add(ShadowRay(m, light, point).d.Scale(light.o.Sub(point).Len(m))) == light.o
  {
    var po := light.o.Sub(point);
    assert po.Normal(m).Scale(po.Len(m)) == po;
  }

  /** An occluder whose `refractive_coef` is not zero (the default is 1) does not
      shadow a point light: the light acts as if its shadow ray had found nothing. */
  lemma TransparentOccluder(m: Math, light: Light, point: Vector, normal: Vector, mat: Material, occluder: Intersection<Shape>)
    requires light.kind == MAG
    requires occluder.obj.Some? && occluder.obj.value.Mat().refractiveCoef != 0.0
    ensures Effect(m, light, point, normal, mat, occluder) == Effect(m, light, point, normal, mat, Sentinel())
  {
  }

  /** A positive number times `p` is positive only if `p` is. */
  lemma PositiveFactor(i: real, p: real)
    requires 0.0 < i && 0.0 < i * p
    ensures 0.0 < p
  {
  }

  /** An unblocked point light with a positive `distance_coef`, on a material whose
      `reflective` is not negative, never gives less than `AMBIENT` times its
      colour. */
  lemma PointShadeAtLeastAmbient(m: Math, light: Light, point: Vector, normal: Vector, reflective: real)
    requires m.Lawful() && 0.0 < light.distanceCoef && 0.0 <= reflective
    requires light.o.Sub(point).Len(m) != 0.0
    ensures exists k :: AMBIENT <= k && PointShade(m, light, point, normal, reflective) == Ok(light.color.Scale(k))
  {
    var po := light.o.Sub(point);
    var len := po.Len(m);
    var e := 2.0 - reflective / 5.0;
    assert 0.0 < m.pow(len, e);
    var denominator := 12.5 * m.pow(len, e);
    assert denominator != 0.0;
    var intensity := light.distanceCoef / denominator;
    assert 0.0 < intensity;
    var u := po.Normal(m);
    var lambert := normal.Dot(u.Scale(intensity));
    var power := Max(lambert, AMBIENT);
    if power != AMBIENT {
      DotScale(u, normal, intensity);
      DotSymmetric(normal, u.Scale(intensity));
      DotSymmetric(normal, u);
      assert lambert == intensity * normal.Dot(u);
      PositiveFactor(intensity, normal.Dot(u));
      var spec := m.pow(normal.Dot(u), 100.0 * reflective);
      assert 0.0 < spec;
      assert 0.0 <= reflective * spec;
      var k := power + reflective * spec;
      assert PointShade(m, light, point, normal, reflective).Ok?;
      assert PointShade(m, light, point, normal, reflective).value == light.color.Scale(k);
      assert AMBIENT <= k;
    } else {
      assert PointShade(m, light, point, normal, reflective) == Ok(light.color.Scale(power));
    }
  }
}
