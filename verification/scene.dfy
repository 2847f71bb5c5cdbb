/** `test_ray` of ray_tracer.py: the scan for the nearest object in front of a
    ray. The only state it changes is the normal of each triangle's plane, which
    `Triangle.intersect` may turn round; the specification threads those normals
    through the scan as a map. */
module Scene {
  import opened Numerics
  import opened Vectors
  import opened Hits
  import opened Primitives

  /** The objects of the list that are not in the ignore list, in list order. */
  function Consulted(objects: seq<Shape>, toIgnore: seq<Shape>): (r: seq<Shape>)
    ensures forall k :: 0 <= k < |r| ==> r[k] in objects && r[k] !in toIgnore
    ensures forall k :: 0 <= k < |objects| && objects[k] !in toIgnore ==> objects[k] in r
    ensures |r| <= |objects|
  {
    if objects == [] then []
    else
      var last := objects[|objects| - 1];
      Consulted(objects[..|objects| - 1], toIgnore) + if last in toIgnore then [] else [last]
  }

  /** Every plane the scan may look at: the listed planes and the triangles' planes. */
  function AllPlanes(objects: seq<Shape>): set<Plane> {
    (set o | o in objects && o.PlaneShape? :: o.plane) + TrianglePlanes(objects)
  }

  /** The planes whose normals the scan may turn round. */
  function TrianglePlanes(objects: seq<Shape>): set<Plane> {
    set o | o in objects && o.TriangleShape? :: o.triangle.plane
  }

  /** The current normal of every plane the scan may look at. */
  function NormalsNow(objects: seq<Shape>): (r: map<Plane, Vector>)
    reads AllPlanes(objects)
    ensures r.Keys == AllPlanes(objects)
  {
    map pl | pl in AllPlanes(objects) :: pl.n
  }

  /** The normals map knows the plane of the object, if it has one. */
  ghost predicate Knows(o: Shape, norms: map<Plane, Vector>) {
    && (o.PlaneShape? ==> o.plane in norms)
    && (o.TriangleShape? ==> o.triangle.plane in norms)
  }

  /** The normals map knows the plane of every plane and triangle in the list. */
  ghost predicate Covers(objects: seq<Shape>, norms: map<Plane, Vector>) {
    AllPlanes(objects) <= norms.Keys
  }

  /** One object's intersection, with plane normals taken from `norms`, and the
      normals afterwards. */
  function Visit(m: Math, ray: Ray, o: Shape, norms: map<Plane, Vector>): (r: (Intersection<Shape>, map<Plane, Vector>))
    requires Knows(o, norms)
    ensures r.1.Keys == norms.Keys
    ensures !o.TriangleShape? ==> r.1 == norms
    ensures o.TriangleShape? ==> forall pl :: pl in norms && pl != o.triangle.plane ==> r.1[pl] == norms[pl]
  {
    match o
    case SphereShape(s) => (s.Intersect(m, ray), norms)
    case PlaneShape(pl) => (pl.IntersectWith(norms[pl], ray), norms)
    case TriangleShape(t) =>
      var out := t.Outcome(m, norms[t.plane], ray);
      (out.0, norms[t.plane := out.1])
  }

  /** The candidates a scan collects, one per consulted object in list order, and
      the plane normals it leaves behind. */
  function Scan(m: Math, ray: Ray, objects: seq<Shape>, toIgnore: seq<Shape>, norms: map<Plane, Vector>)
    : (r: (seq<Intersection<Shape>>, map<Plane, Vector>))
    requires Covers(objects, norms)
    ensures r.1.Keys == norms.Keys
    ensures forall pl :: pl in norms && pl !in TrianglePlanes(objects) ==> r.1[pl] == norms[pl]
  {
    if objects == [] then ([], norms)
    else
      var init, last := objects[..|objects| - 1], objects[|objects| - 1];
      assert forall k :: 0 <= k < |init| ==> init[k] == objects[k];
      assert AllPlanes(init) <= AllPlanes(objects);
      assert last in objects;
      var before := Scan(m, ray, init, toIgnore, norms);
      if last in toIgnore then before
      else
        var step := Visit(m, ray, last, before.1);
        (before.0 + [step.0], step.1)
  }

  /** The scan collects exactly one candidate per consulted object, reported by
      that object itself or, for a triangle, by the triangle's plane: nothing in
      the ignore list is asked. */
  lemma {:induction false} ScanConsultsInOrder(m: Math, ray: Ray, objects: seq<Shape>, toIgnore: seq<Shape>, norms: map<Plane, Vector>)
    requires Covers(objects, norms)
    ensures var hits, c := Scan(m, ray, objects, toIgnore, norms).0, Consulted(objects, toIgnore);
      && |hits| == |c|
      && forall k :: 0 <= k < |c| ==>
           hits[k].obj == Some(c[k]) || (c[k].TriangleShape? && hits[k].obj == Some(PlaneShape(c[k].triangle.plane)))
  {
    if objects != [] {
      var init, last := objects[..|objects| - 1], objects[|objects| - 1];
      assert forall k :: 0 <= k < |init| ==> init[k] == objects[k];
      ScanConsultsInOrder(m, ray, init, toIgnore, norms);
    }
  }

  /** The planes of a prefix of the list are planes of the list. */
  lemma AllPlanesPrefix(objects: seq<Shape>, i: nat)
    requires i <= |objects|
    ensures AllPlanes(objects[..i]) <= AllPlanes(objects)
  {
    assert forall k :: 0 <= k < i ==> objects[..i][k] == objects[k];
  }

  /** The body of `test_ray`'s loop for one object not in the ignore list: the
      object's own `intersect`, which for a triangle turns its plane round. */
  method Consult(m: Math, ray: Ray, o: Shape, ghost objects: seq<Shape>) returns (current: Intersection<Shape>)
    requires o in objects
    modifies if o.TriangleShape? then {o.triangle.plane} else {}
    ensures (current, NormalsNow(objects)) == Visit(m, ray, o, old(NormalsNow(objects)))
  {
    ghost var now := NormalsNow(objects);
    match o {
      case SphereShape(s) =>
        current := s.Intersect(m, ray);
      case PlaneShape(pl) =>
        current := pl.Intersect(ray);
      case TriangleShape(t) =>
        current := t.Intersect(m, ray);
        assert NormalsNow(objects) == now[t.plane := t.plane.n];
    }
  }

  /** `test_ray`: scans the list, skipping the ignored objects, and keeps the
      nearest intersection in front of the ray. The result is the scan's nearest
      candidate, and the planes are left with the normals the scan computes. */
  method TestRay(m: Math, ray: Ray, objects: seq<Shape>, toIgnore: seq<Shape>)
    returns (hit: Intersection<Shape>, ghost hits: seq<Intersection<Shape>>)
    modifies TrianglePlanes(objects)
    ensures hit == Nearest(hits)
    ensures (hits, NormalsNow(objects)) == Scan(m, ray, objects, toIgnore, old(NormalsNow(objects)))
  {
    ghost var start := NormalsNow(objects);
    hit := Sentinel();
    hits := [];
    var i := 0;
    while i < |objects|
      invariant 0 <= i <= |objects|
      invariant AllPlanes(objects[..i]) <= AllPlanes(objects)
      invariant (hits, NormalsNow(objects)) == Scan(m, ray, objects[..i], toIgnore, start)
      invariant hit == Nearest(hits)
    {
      AllPlanesPrefix(objects, i + 1);
      assert objects[..i + 1][..i] == objects[..i];
      var o := objects[i];
      if o !in toIgnore {
        var current := Consult(m, ray, o, objects);
        assert (hits + [current])[..|hits|] == hits;
        hits := hits + [current];
        if current.d > 0.0 && hit.d < 0.0 {
          hit := current;
        } else if 0.0 < current.d && current.d < hit.d {
          hit := current;
        }
      }
      i := i + 1;
    }
    assert objects[..i] == objects;
  }
}
