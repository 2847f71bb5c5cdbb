# A model of a small Python ray tracer

This project models the core of a ray tracer written in Python: the vector
algebra (`vector.py`), the scene objects and their intersection tests, the
nearest-hit query `test_ray`, the light model `Light.calculate_effect`, the
recursive `trace`, the camera and the triangle fans of `Model.get_triangles`
(`ray_tracer.py`), and the older standalone tracer in `test.py`. It proves
properties of the model.

The target is the decision logic: which root of the sphere equation is taken,
when a plane or a triangle counts as hit, which object `test_ray` returns,
when a light is shadowed, when `trace` stops, and which triangles a mesh gives.
The arithmetic is over Dafny `real`. `sqrt` and real-exponent `**` are fields
of a `Numerics.Math` record, passed in as a parameter. They are constrained
only by `Math.Lawful()`:

- a square root is non-negative and squares back;
- a power of a positive base is positive.

Python exceptions are the error side of a `Result`: `ZeroDivisionError`,
`AttributeError`, `TypeError`, `AssertionError` and `IndexError`.

Modules, one file each:

- `Numerics` (numerics.dfy) holds the `Math` record, `Result` and `Option`,
  and a few facts about real arithmetic.
- `Vectors` (vector.dfy) is `Vector` of vector.py. `cross` is modelled as
  written, returning a tuple. `CrossVector` and `Div` are the evidently
  intended vector cross product and division.
- `Hits` (intersection.dfy) holds the `Ray`, the `Intersection`, the miss
  sentinel and the selection rule of `test_ray` (`Better`, `Nearest`).
- `Primitives` (primitives.dfy) holds `Sphere`, `Plane` and `Triangle` as
  classes, because objects are compared by identity and a triangle turns its
  plane's normal round in place.
- `Scene` (scene.dfy) is `test_ray`. It is an imperative scan proved against
  a specification function, and that function threads the triangles' plane
  normals through the scan as a map.
- `Lighting` (lighting.dfy) is `Light.calculate_effect`.
- `Tracer` (tracer.dfy) is `trace` with its lights loop, reflection and
  refraction.
- `Cameras` (camera.dfy) is `Camera`.
- `Mesh` (mesh.dfy) is `Model.get_triangles`.
- `Prototype` (prototype.dfy) is test.py:
  - its `Vector` differences;
  - `Sphere`;
  - the two-sided `Plane`;
  - `test_ray` with one ignored object;
  - `mix`;
  - `trace` with its own light accumulation.

The model follows the code as written:

- `cross` returns a tuple, not a Vector.
- Vectors cannot be divided.
- ray_tracer.py's plane uses the tolerance `EPS = 0.0001` and does not reject
  a negative distance. The `0.000001` tolerance and the test for a negative
  distance belong to test.py's plane.
- A shadow needs a falsy `refractive_coef` on the occluder. A zero
  `refractive` is not enough.

## Model

| member | source | states |
|---|---|---|
| Vectors.Vector.Cross | vector.py:13-14 | the tuple `cross` returns is orthogonal to both operands under the dot formula |
| Vectors.Vector.CrossVector | vector.py:13-14 | the cross product as a Vector is orthogonal to both operands and has the tuple's components |
| Vectors.Vector.Normal | vector.py:19-24 | the zero-length vector normalises to the zero vector; otherwise the normal scaled back by the length is the vector |
| Vectors.Vector.ToInts | vector.py:29-30 | each component is truncated toward zero: it moves by less than 1 and never grows in magnitude |
| Vectors.Vector.Mul | vector.py:38-43 | a Vector operand multiplies component-wise, a number scales, anything else fails the assertion |
| Vectors.Vector.Eq | vector.py:51-52 | `__eq__` holds exactly when the two vectors are equal |
| Vectors.Vector.Lt | vector.py:54-55 | `__lt__` holds iff some component is strictly smaller |
| Vectors.Vector.Len | vector.py:16-17 | with a lawful square root a length is never negative |
| Vectors.Vector.Proection | vector.py:26-27 | the projection onto a vector of length zero is the zero vector |
| Vectors.Vector.Pow | vector.py:45-46 | with a lawful power, positive components stay positive under `**` |
| Vectors.Vector.Div | ray_tracer.py:323 | corrected division: division by zero raises `ZeroDivisionError`; otherwise multiplying back gives the vector |
| Vectors.NormalOf | vector.py:19-24 | `.normal()` succeeds exactly on a Vector and agrees with `normal` there; on a tuple it raises `AttributeError` |
| Vectors.LenOf | vector.py:16-17 | `.len()` succeeds exactly on a Vector and agrees with `len` there |
| Vectors.SubAddCancel | vector.py:32-36 | `(a - b) + b == a` and `(a + b) - b == a` |
| Vectors.NeutralElements | vector.py:10-43 | for `dot`, `__add__`, `__sub__` and both kinds of `__mul__`: the zero vector is neutral for `+` and `-` and absorbs `*` and `dot`; `v - v` is zero; 1 and (1,1,1) keep the vector |
| Vectors.DotSymmetric | vector.py:10-11 | `a.dot(b) == b.dot(a)` |
| Vectors.DotSelfNonNegative | vector.py:10-11 | `v.dot(v) >= 0` |
| Vectors.ZeroCross | vector.py:13-14 | the cross product of the zero vector with anything is zero |
| Vectors.CrossZero | vector.py:13-14 | the cross product of anything with the zero vector is zero |
| Vectors.DotScale | vector.py:10-11 | scaling one operand of `dot` scales the result |
| Vectors.DotAdd | vector.py:10-11 | `dot` distributes over `__add__` |
| Vectors.ScaleScale | vector.py:38-43 | scaling twice is scaling by the product |
| Vectors.LenZeroIff | vector.py:16-17 | a vector has length zero iff it is the zero vector |
| Vectors.LenOfZero | vector.py:16-17 | the zero vector has length zero |
| Vectors.NormalOfZero | vector.py:19-24 | `normal` of the zero vector is the zero vector |
| Vectors.NormalIsUnit | vector.py:19-24 | a vector of non-zero length normalises to a unit vector |
| Vectors.NormalKeepsOrthogonality | vector.py:19-24 | normalising keeps a vector orthogonal to whatever it was orthogonal to |
| Vectors.ProectionAlongSelf | vector.py:26-27 | `proection` is the normal scaled by `self.dot(other.normal())` times `other.len()`, which reduces to `self.dot(other)` |
| Vectors.LtIrreflexive | vector.py:54-55 | no vector is `<` itself |
| Vectors.LtNotAsymmetric | vector.py:54-55 | `(0,1,0) < (1,0,0)` and `(1,0,0) < (0,1,0)` both hold |
| Hits.Intersection.Eq | ray_tracer.py:149-150 | `Intersection.__eq__` holds exactly when all four fields are equal |
| Hits.Intersection.Lt | ray_tracer.py:152-154 | `Intersection.__lt__` is truthy exactly when the distance is smaller |
| Hits.Miss | ray_tracer.py:55 | a miss has distance `-1` and names the object |
| Hits.Sentinel | ray_tracer.py:195 | `test_ray`'s starting value has distance `-1` and no object |
| Hits.Better | ray_tracer.py:200-203 | one round of the scan keeps the current hit or takes the candidate, and takes a new candidate only when it is in front of the ray |
| Hits.Nearest | ray_tracer.py:194-204 | the scan's result is the sentinel or one of the candidates with a positive distance |
| Hits.NearestMissIff | ray_tracer.py:194-204 | the result is the sentinel (`d == -1`) iff no candidate has a positive distance |
| Hits.NearestIsMinimal | ray_tracer.py:200-203 | the result's distance is positive and no larger than that of any candidate in front of the ray |
| Hits.NearestFirstOnTies | ray_tracer.py:202 | the result is one of the candidates: the first of those with the least distance |
| Hits.LastNearerThanAll | ray_tracer.py:202 | when the last candidate replaces the running hit, no earlier candidate lies in front of it at an equal or smaller distance |
| Hits.SelectRoot | ray_tracer.py:62-67 | the chosen root is positive and is one of the two roots, the smaller positive one; there is none when both are non-positive, when they are equal (the tangent case) or when one is zero |
| Primitives.Sign | ray_tracer.py:20-24 | `sign` is 1 for zero and above, -1 below, and times the magnitude gives the number back |
| Primitives.Sphere.constructor | ray_tracer.py:40-46 | the sphere keeps its centre, radius and material |
| Primitives.Sphere.Discriminant | ray_tracer.py:53 | for a ray starting inside or on the sphere the discriminant is non-negative |
| Primitives.Sphere.Intersect | ray_tracer.py:48-71 | a negative discriminant misses; a hit is in front of the ray, lies on the ray at its distance and carries the sphere's normal there; the object is the sphere |
| Primitives.Sphere.Normal | ray_tracer.py:73-74 | the normal at a point off the centre leads from the centre to the point; at the centre it is zero |
| Primitives.Plane.constructor | ray_tracer.py:78-86 | the plane keeps its point, normal, material, pattern and scale |
| Primitives.Plane.IntersectWith | ray_tracer.py:88-96 | misses when the ray is within `EPS` of parallel or meets the back of the plane; otherwise the distance solves the plane equation along the ray and may be negative; the normal is the plane's |
| Primitives.Plane.Intersect | ray_tracer.py:88-96 | with the current normal: a ray meeting the back misses, and a hit meets the front |
| Primitives.FaceNormal | ray_tracer.py:104 | the face normal is orthogonal to both edges leaving the first vertex |
| Primitives.Area | ray_tracer.py:113 | `square` is never negative and is zero when two corners coincide |
| Primitives.SubAreas | ray_tracer.py:119-122 | the sum of the three sub-areas is never negative |
| Primitives.Spanned | ray_tracer.py:122 | `abs(u.cross(v).len())` is never negative and is zero when either side is the zero vector |
| Primitives.SpannedByEdges | ray_tracer.py:113 | the face's own edges span twice its area |
| Primitives.Triangle.constructor | ray_tracer.py:100-113 | corrected `__init__`: both planes pass through `p1` with opposite face normals and the triangle's material, pattern and scale; `square` is the area |
| Primitives.Triangle.InsideWith | ray_tracer.py:115-126 | a point is inside iff it is within `EPS` of the plane and its sub-areas add up to `square` within `EPS` |
| Primitives.Triangle.IsPointInside | ray_tracer.py:115-126 | false when the point is more than `EPS` off the plane, or when the sub-areas differ from `square` by more than `EPS` |
| Primitives.Triangle.Outcome | ray_tracer.py:128-139 | the normal is turned round exactly when the first plane test misses; a hit is the plane's hit with the final normal, at a point inside the triangle; conversely a plane hit inside the triangle is returned; otherwise the triangle's miss |
| Primitives.Triangle.Intersect | ray_tracer.py:128-139 | the hit and the plane normal after the call are the outcome from the normal before it; the turned normal persists |
| Primitives.InsideFlipInvariant | ray_tracer.py:115-126 | turning the normal round does not change `is_point_inside` |
| Primitives.TriangleTwoSided | ray_tracer.py:128-132 | a ray meeting the back of the stored plane leaves the normal turned to face it |
| Primitives.SubAreasAtFirstVertex | ray_tracer.py:119-122 | at the first vertex the three sub-areas add up to the triangle's area |
| Primitives.FirstVertexInside | ray_tracer.py:115-126 | the first vertex is inside its triangle |
| Primitives.TriangleNormalAsWritten | ray_tracer.py:104-105 | as written, `__init__` raises `AttributeError` on `.normal()` of the tuple `cross` returns |
| Primitives.SquareAsWritten | ray_tracer.py:113 | as written, `square` raises `AttributeError` on `.len()` of the tuple `cross` returns |
| Primitives.InsideAsWritten | ray_tracer.py:116-122 | as written, `is_point_inside` returns `False` for a point off the plane and otherwise raises `AttributeError` on `.len()` of a tuple |
| Primitives.SphereTangentMisses | ray_tracer.py:53-67 | a ray tangent to the sphere (discriminant 0) misses |
| Primitives.SphereNearerRoot | ray_tracer.py:57-67 | with a non-negative discriminant the sphere is hit iff the far root is positive, the roots differ and the near root is not zero; the distance is the near root when it is positive, else the far one |
| Primitives.SphereExample | ray_tracer.py:48-71 | a ray from the origin along x hits the unit sphere at (5,0,0) at distance 4, at (4,0,0), with normal (-1,0,0) |
| Primitives.PlaneHitOnPlane | ray_tracer.py:95-96 | a plane hit lies on the plane |
| Primitives.PlaneOneSided | ray_tracer.py:92-93 | a ray meeting the back of a plane misses |
| Scene.Consulted | ray_tracer.py:196-198 | the objects consulted are exactly those of the list that are not in `to_ignore` |
| Scene.NormalsNow | ray_tracer.py:128-131 | the map holds one normal for every plane the scene can look at |
| Scene.Visit | ray_tracer.py:199 | only a triangle changes a normal, and only its own plane's |
| Scene.Scan | ray_tracer.py:194-204 | the scan changes no normal except triangles' planes' |
| Scene.ScanConsultsInOrder | ray_tracer.py:196-199 | one candidate per consulted object, in list order, reported by that object (a triangle by its plane); nothing in `to_ignore` is asked |
| Scene.Consult | ray_tracer.py:199 | one `obj.intersect(ray)`, which for a triangle may turn its plane round |
| Scene.TestRay | ray_tracer.py:194-204 | the result is the nearest candidate of the scan, and the planes end with the normals the scan computes |
| Lighting.Max | ray_tracer.py:180 | `max` is an upper bound of both arguments and one of them |
| Lighting.Probes | ray_tracer.py:168-187 | no shadow ray is sent for a light of unknown type or a point light sitting on the point |
| Lighting.PointShade | ray_tracer.py:178-183 | the unshadowed point light fails only by division by zero |
| Lighting.Effect | ray_tracer.py:167-191 | an unknown light type yields `None`; a light on the point gives its colour; a point light is blocked when the shadow hit is nearer than the light, and then gives zero for an occluder with a zero `refractive_coef` and raises `AttributeError` when the hit has no object; an unblocked point light gives its shade or its error; a distant light gives zero when blocked, otherwise its colour scaled by the cosine; only a point light can raise |
| Lighting.EffectSpec | ray_tracer.py:167-191 | only a light that casts a shadow ray can turn planes round |
| Lighting.CalculateEffect | ray_tracer.py:167-191 | `calculate_effect` returns the effect of the nearest hit of its shadow ray and leaves the normals as that scan does |
| Lighting.ShadowRayReachesLight | ray_tracer.py:169-175 | the shadow ray (`ShadowRay`), followed for the light's distance, ends on the light |
| Lighting.TransparentOccluder | ray_tracer.py:175 | an occluder with a non-zero `refractive_coef` (the default 1) does not shadow a point light |
| Lighting.PointShadeAtLeastAmbient | ray_tracer.py:179-183 | an unblocked point light gives at least `AMBIENT` times its colour |
| Tracer.Refract | ray_tracer.py:253-270 | refraction raises `ZeroDivisionError` exactly when entering a medium of index zero |
| Tracer.Bend | ray_tracer.py:265-270 | there is no refracted direction iff `k = 1 - ratio² (1 - cs²)` is negative |
| Tracer.Compose | ray_tracer.py:273 | a perfect mirror has no local term (reflected plus scaled refracted colour); a surface that neither reflects nor refracts gives colour times light plus the reflected colour |
| Tracer.Accumulate | ray_tracer.py:245 | `light_effect += e` succeeds exactly when `e` is a vector, and then adds exactly `e` |
| Tracer.Illuminate | ray_tracer.py:244-245 | the lights loop keeps the set of known planes |
| Tracer.TraceSpec | ray_tracer.py:211-275 | `trace` keeps the set of known planes |
| Tracer.LightUp | ray_tracer.py:240-245 | the lights loop computes `Illuminate` |
| Tracer.IlluminateStep | ray_tracer.py:244-245 | one more light adds its effect to the running total |
| Tracer.IlluminateStopsAtError | ray_tracer.py:244-245 | an exception at one light is the result of the whole loop |
| Tracer.UnknownLightRaises | ray_tracer.py:244-245 | a light of unknown type makes the loop raise |
| Tracer.Trace | ray_tracer.py:211-275 | `trace` computes `TraceSpec`, including the planes it turns round |
| Tracer.Bounce | ray_tracer.py:247-273 | reflection, refraction and the final mix compute `BounceSpec` |
| Tracer.Reflection | ray_tracer.py:247-251 | the reflection step computes `ReflectionSpec` |
| Tracer.Refraction | ray_tracer.py:253-272 | the refraction step computes `RefractionSpec` |
| Tracer.TraceAtDepthZero | ray_tracer.py:212-213 | depth 0 gives `BACKGROUND` and turns no plane round |
| Tracer.TotalReflectionRefractsNothing | ray_tracer.py:265-272 | under total internal reflection no refracted ray is traced: the refracted colour is zero and no plane changes |
| Tracer.MatteReflectsNothing | ray_tracer.py:247-251 | a surface that does not reflect sends no reflected ray: zero reflected colour, no plane changes |
| Tracer.MirrorIgnoresLight | ray_tracer.py:273 | on a perfect mirror the colour (`BounceSpec`) does not depend on the light at the point |
| Tracer.ReflectedRayLeavesSurface | ray_tracer.py:248-249 | the reflected ray (`ReflectedRay` of `Reflect`) starts `EPS` along its direction from the hit, and that direction is a unit vector |
| Tracer.RefractedRayLeavesSurface | ray_tracer.py:270-271 | the refracted ray (`RefractedRay`) keeps the refracted direction and starts `0.0001` along it from the hit |
| Tracer.TraceMissIsBackground | ray_tracer.py:214-216 | a ray with no candidate in front of it gives `BACKGROUND` |
| Tracer.MatteIgnoresDepth | ray_tracer.py:247-273 | on a surface that neither reflects nor refracts, every positive depth gives the same colour |
| Tracer.MatteBounce | ray_tracer.py:273 | with neither reflection nor refraction the colour is the surface colour times the light |
| Tracer.UnlitMatteIsBlack | ray_tracer.py:239-273 | with no lights a matte surface is black, whatever its pattern, unless a pattern scale of zero raises |
| Tracer.TraceWithUnknownLightRaises | ray_tracer.py:244-245 | a hit with a light of unknown type raises |
| Tracer.ReflectFlipsNormalComponent | ray_tracer.py:248 | the reflected direction's component along a unit normal is the negated incoming one |
| Tracer.ReflectTwice | ray_tracer.py:248 | reflecting twice in a unit normal gives the direction back |
| Tracer.UnitIndexGoesStraight | ray_tracer.py:253-270 | a ray entering a medium of index 1 goes on straight |
| Tracer.BendStraight | ray_tracer.py:265-270 | a ratio of 1 leaves the direction unchanged |
| Tracer.GrazingExitReflectsTotally | ray_tracer.py:265-268 | a grazing ray leaving a denser medium is totally reflected: no refracted ray |
| Cameras.Camera.constructor | ray_tracer.py:309-320 | corrected `__init__`: unit direction; basis from `CrossVector`; resolution truncated from size times `res_coef`; the corner half the screen up and left of the centre |
| Cameras.ResolutionIsWholePart | ray_tracer.py:315-316 | for a non-negative product of size and `res_coef` the resolution (`Resolution`) the resolution is its whole part; a product strictly between -1 and 1 gives 0 |
| Cameras.CornerInFrame | ray_tracer.py:320 | with an orthonormal frame, the corner (`Corner`) lies `dist` ahead of the eye, `w/2` along `ort1` and `h/2` along `ort2` |
| Cameras.Camera.Target | ray_tracer.py:322-323 | corrected `get_ray` target: raises `ZeroDivisionError` exactly when a resolution is zero |
| Cameras.Camera.GetRay | ray_tracer.py:322-323 | the ray starts at the eye, aims at the normalised target, and fails exactly on a zero resolution |
| Cameras.Camera.Update | ray_tracer.py:325-328 | corrected `update`: rebuilds the basis and the corner from the horizontal first vector; nothing else changes |
| Cameras.SecondBasisOrthogonal | ray_tracer.py:319 | the second basis vector is orthogonal to the first and to the direction |
| Cameras.FirstPixelAtCorner | ray_tracer.py:322-323 | pixel (0, 0) looks at the upper left corner |
| Cameras.UpdatedBasisOrthogonal | ray_tracer.py:326 | after `update` the first basis vector (`UpdatedOrt1`) is orthogonal to a direction with non-negative x |
| Cameras.InitialBasisOrthogonal | ray_tracer.py:318 | `__init__`'s first basis vector (`InitialOrt1`) meets the direction with dot product `d.z²`, so it is orthogonal for a horizontal direction |
| Cameras.UpdatedBasisCounterexample | ray_tracer.py:326 | for the direction (-1,-1,0), `update`'s first basis vector is the direction turned round, not orthogonal to it |
| Cameras.InitAsWritten | ray_tracer.py:319 | as written, `__init__` raises `AttributeError` on `.normal()` of a tuple |
| Cameras.GetRayAsWritten | ray_tracer.py:323 | as written, `get_ray` raises `TypeError` on the vector division |
| Cameras.CornerAsWritten | ray_tracer.py:320 | as written, the corner raises `TypeError` on the division of `ort1 * width` by 2 |
| Cameras.UpdateAsWritten | ray_tracer.py:327-328 | as written, `update` raises `AttributeError` on `.normal()` of the tuple `cross` returns |
| Mesh.Faces | ray_tracer.py:415 | one face per triangle, with its corners in order |
| Mesh.Model.constructor | ray_tracer.py:376-406 | the model keeps its centre, `coef`, points, links and styling |
| Mesh.Model.Indexes | ray_tracer.py:411-414 | `points[k]` is in range iff `k` is a valid index from the front or, when negative, from the end |
| Mesh.Model.Vertex | ray_tracer.py:411-414 | a vertex is one of the points scaled by `coef` and moved by `center` |
| Mesh.Model.LinkOk | ray_tracer.py:410-414 | a link goes through iff it is non-empty and, for three or more indices, every index is in range, for fewer only the first |
| Mesh.Model.Fan | ray_tracer.py:411-416 | a link of `n >= 3` indices gives `n - 2` faces, a shorter one none |
| Mesh.Model.Fans | ray_tracer.py:408-417 | the only error is `IndexError` |
| Mesh.Model.LinkTriangles | ray_tracer.py:411-416 | one link gives fresh triangles exactly when all its indices are in range: the faces of its fan, in order, each with the model's material, pattern and scale; otherwise `IndexError` |
| Mesh.Model.GetTriangles | ray_tracer.py:408-417 | `get_triangles` raises exactly when some link has an index out of range, and then `IndexError`; otherwise the triangles are fresh, styled like the model, and their faces are the fans of the links in order |
| Mesh.FansCount | ray_tracer.py:410-416 | a mesh gives `Count(links)` triangles: `len(link) - 2` per link of at least three indices |
| Mesh.FansAppend | ray_tracer.py:410 | the triangles of a link come after those of the links before it |
| Mesh.FansOkIff | ray_tracer.py:410-414 | the links go through iff every link is valid |
| Mesh.FanShape | ray_tracer.py:411-414 | every fan triangle has `link[0]` as its first corner; each shares an edge with the next; the first is `(link[0], link[1], link[2])` and the last ends at the last index |
| Mesh.StyledConcat | ray_tracer.py:415-416 | the triangles of two lists carry the model's styling iff those of their concatenation do |
| Mesh.ShortLinks | ray_tracer.py:411-412 | a link of one or two indices gives no triangle, but an out-of-range first index still raises `IndexError` |
| Mesh.LastPointByMinusOne | ray_tracer.py:411 | index -1 names the last point, as Python does |
| Mesh.EmptyLink | ray_tracer.py:411 | an empty link raises `IndexError` |
| Prototype.NormalOrFail | test.py:23-25 | test.py's `normal` raises `ZeroDivisionError` exactly on a zero-length vector and otherwise agrees with vector.py |
| Prototype.ProectionOrFail | test.py:27-28 | `proection` fails exactly when either vector has length zero and otherwise agrees with vector.py |
| Prototype.MulNumber | test.py:39-41 | `__mul__` accepts exactly numbers; any other operand fails the assertion |
| Prototype.VectorTimesVector | test.py:39-41 | a vector times a vector works in vector.py and fails the assertion in test.py |
| Prototype.Body.Intersect | test.py:69-109 | an object's intersection names the object, misses with `-1` or hits at a non-negative distance, and can only raise `ZeroDivisionError` |
| Prototype.Sphere.constructor | test.py:63-67 | the sphere keeps its centre, radius, colour and `reflective` |
| Prototype.Sphere.Normal | test.py:89-90 | the normal raises `ZeroDivisionError` exactly at the centre |
| Prototype.Sphere.Intersect | test.py:69-87 | a negative discriminant misses; a hit is in front of the ray, on the ray, with the sphere's normal there; an exception is a `ZeroDivisionError` and needs a non-negative discriminant |
| Prototype.SphereAgreesWithRayTracer | test.py:69-87 | test.py's sphere picks the same root and point as ray_tracer.py's, tangent miss included |
| Prototype.Plane.constructor | test.py:94-98 | the plane keeps its point, normal, colour and `reflective` |
| Prototype.Plane.Intersect | test.py:100-109 | misses when within `0.000001` of parallel or when the distance is negative; otherwise hits at that distance on the ray, with the plane's normal, from either side |
| Prototype.PlaneHitsFromBehind | test.py:100-109 | a ray meeting the back of a plane hits test.py's plane but misses ray_tracer.py's |
| Prototype.Kept | test.py:149-151 | the objects consulted are all except the one identical to `to_ignore`; with none given, all of them |
| Prototype.Candidates | test.py:147-157 | the scan can only raise `ZeroDivisionError` |
| Prototype.CandidatesFollowKept | test.py:149-152 | one candidate per kept object, in order, reported by that object |
| Prototype.CandidatesStopAtError | test.py:149-152 | an exception on a prefix of the objects is an exception of the whole scan |
| Prototype.TestRay | test.py:147-157 | `test_ray` raises exactly when some kept object raises; otherwise it returns the nearest candidate, so the sentinel when none is in front of the ray |
| Prototype.Mix | test.py:160-161 | `t = 0` gives `a`, `t = 1` gives `b`, and mixing a vector with itself gives it back |
| Prototype.Combine | test.py:190-193 | a power replaces a running value of exactly `AMBIENT` and is added to any other |
| Prototype.Power | test.py:185-189 | the power of an unshadowed light fails only by division by zero |
| Prototype.Glow | test.py:178-193 | the lights loop fails only by division by zero |
| Prototype.ShadowDistance | test.py:180-181 | the shadow ray finds the sentinel `-1` or a hit at a positive distance, and can only raise `ZeroDivisionError` |
| Prototype.GlowStep | test.py:180-193 | a light whose shadow ray meets an object nearer than the light leaves the running value unchanged; otherwise its power is combined with it; errors of the shadow scan and of the power propagate, and are only `ZeroDivisionError` |
| Prototype.LightEffect | test.py:178-193 | the lights loop computes `Glow` |
| Prototype.LightStep | test.py:180-193 | one light of the loop computes `GlowStep` |
| Prototype.GlowSnoc | test.py:179-193 | one more light applies one step of the loop to the value of the lights before it |
| Prototype.GlowStopsAtError | test.py:179-193 | an exception at one light is the result of the whole loop |
| Prototype.TraceSpec | test.py:164-197 | depth 0 gives the background; the only exceptions are `ZeroDivisionError` and `AttributeError` on the colour |
| Prototype.MirrorSpec | test.py:172-177 | with a zero `reflective` the colour is the object's own; the only exceptions are `ZeroDivisionError` and `AttributeError` on the colour |
| Prototype.Trace | test.py:164-197 | `trace` computes `TraceSpec`: background at depth 0 or on a miss, otherwise colour (plus mirrored colour) times the light |
| Prototype.Mirror | test.py:172-177 | the mirror step computes `MirrorSpec` |
| Prototype.TraceBackground | test.py:165-169 | depth 0, or a ray with no candidate in front of it, gives `(AMBIENT, AMBIENT, AMBIENT)` |
| Prototype.UnlitMatte | test.py:171-195 | with no lights, a matte object is its colour times `AMBIENT` |
| Prototype.MatteIgnoresDepth | test.py:164-197 | for a matte object every positive depth gives the same colour |
| Prototype.FloorLightForgotten | test.py:190-193 | a light whose power is exactly `AMBIENT` leaves the running value at `AMBIENT`, so the next light replaces it |
| Prototype.PowerAtLeastAmbient | test.py:185-189 | an unshadowed light's power is at least `AMBIENT` |
| Prototype.GlowAtLeastAmbient | test.py:178-193 | the combined light is at least `AMBIENT` |

## Left out

- Rendering is not modelled: `render_image` and `get_color` write pixels through PIL or pygame.
- main.py and tk_viewer.py are not part of this model. They build scenes, time renders and run a window.
- `Model.__init__` reading points and links from a file is not modelled, because it is file I/O. The model takes them as given.
- `Scene` (its `move` and `rotate_camera`) and `generate_box_for_spheres` are not modelled. `rotate_camera` calls functions that are not defined; the others only set up scenes.
- test.py's `main`, `Camera` and `get_color` are not modelled: they render and save an image.
- Numeric accuracy is not modelled. `sqrt` and real-exponent `**` are uninterpreted (`Numerics.Math`), and nothing is claimed about floating-point values or rounding.
- `**` with a negative base and a fractional exponent gives a complex number in Python; that case is not modelled.
- The SQUARED pattern's `sin` values are not modelled. Line 239 of ray_tracer.py overwrites their effect on the colour. Only the `ZeroDivisionError` of a pattern scale of zero survives, and it is modelled.
- Sphere.intersect's unused `h`, `f` and `pt` (ray_tracer.py:50-51, 58) are not modelled. With vector.py's zero-guarded `normal` they have no effect.
- A negative `depth` is not modelled. `depth` is a `nat`; in the source a negative depth would recurse without end.
- `__repr__` methods are not modelled.
- Prototype.TraceSpec: test.py's `trace` returns a 3-tuple. It is modelled as a `Vector` with the same components, because the caller converts it back at test.py:176.
- Lighting.Effect: the non-MAG, non-DISTANT light types (`ANDY`, or any other number) return `None`. They are modelled as `Ok(None)`, and the `AttributeError` they cause is raised when they are added in `trace`.
- Mesh.Model.GetTriangles: it builds triangles with the corrected `Triangle` constructor. As written, every triangle raises `AttributeError` at ray_tracer.py:104 (see the Findings row for ray_tracer.py:104-105).
- Cameras.Camera.constructor: as written it raises at ray_tracer.py:319, and line 320 would raise next (see the Findings rows for ray_tracer.py:319 and ray_tracer.py:320). The model states the evidently intended behaviour.
- Cameras.Camera.Update: as written it raises at ray_tracer.py:327, and line 328 divides a Vector as line 320 does (see the Findings row for ray_tracer.py:327-328). The model states the evidently intended behaviour.
- Primitives.Triangle.IsPointInside: it uses `CrossVector`, the evidently intended cross product. As written, line 122 raises `AttributeError` for every point near the plane (see the Findings row for ray_tracer.py:122).
- Each test.py `Vector` method that is the same code as vector.py's (`dot`, `cross`, `len`, `to_ints`, `__add__`, `__sub__`, `__pow__`, `__eq__`) is modelled once, in `Vectors`.

## Findings

| source | as written | input that shows it | evidently intended | confidence | as-written member | corrected member |
|---|---|---|---|---|---|---|
| ray_tracer.py:104-105 | `(p2-p1).cross(p3-p1).normal()`, but `cross` returns a tuple, which has no `normal` | any three points | the unit normal of the face, from a Vector cross product | high; not executed | Primitives.TriangleNormalAsWritten | Primitives.Triangle.constructor |
| ray_tracer.py:319 | `self.ort1.cross(self.d).normal()` on a tuple | any direction | the normalised cross product of `ort1` and the direction | high; not executed | Cameras.InitAsWritten | Cameras.Camera.constructor |
| ray_tracer.py:323 | `self.ort1 * x * self.w / self.res_x` divides a Vector, and Vector has no `__truediv__` | any pixel `(x, y)` | scale the basis vector by `x * w / res_x` | high; not executed | Cameras.GetRayAsWritten | Cameras.Camera.GetRay |
| ray_tracer.py:113 | `(p2 - p1).cross(p3 - p1).len()`, but the tuple `cross` returns has no `len` | any three points | half the length of the Vector cross product | high; not executed | Primitives.SquareAsWritten | Primitives.Triangle.constructor |
| ray_tracer.py:122 | `p_p1.cross(p_p2).len()` on a tuple | any point within `EPS` of the plane | the sub-areas from the Vector cross product | high; not executed | Primitives.InsideAsWritten | Primitives.Triangle.IsPointInside |
| ray_tracer.py:320 | `self.ort1 * width / 2` divides a Vector | any camera | scale `ort1` by `width / 2` | high; not executed | Cameras.CornerAsWritten | Cameras.Camera.constructor |
| ray_tracer.py:327-328 | `self.ort1.cross(self.d).normal()` on a tuple, then `self.ort1 * self.w / 2` divides a Vector | any camera | the normalised cross product, and `ort1` scaled by `w / 2` | high; not executed | Cameras.UpdateAsWritten | Cameras.Camera.Update |
