/** Rays, the `Intersection` record and the nearest-hit scan that both tracers run
    over their object lists. The record is generic in the object it points at, so
    the same scan serves ray_tracer.py and test.py. */
module Hits {
  import opened Numerics
  import opened Vectors

  datatype Ray = Ray(o: Vector, d: Vector)

  /** A hit: the point, the distance along the ray (`-1` for a miss), the surface
      normal and the object that was hit (`None` only in the scan's starting value). */
  datatype Intersection<O(==)> = Intersection(p: Vector, d: real, n: Vector, obj: Option<O>) {

    /** `Intersection.__eq__`: all four fields equal. */
    function Eq(other: Intersection<O>): (r: bool)
      ensures r <==> this == other
    {
      p.Eq(other.p) && d == other.d && n.Eq(other.n) && obj == other.obj
    }

    /** `Intersection.__lt__`: `True` when the distance is smaller, otherwise the
        method falls off its end and returns `None`, which is falsy. */
    function Lt(other: Intersection<O>): (r: bool)
      ensures r <==> d < other.d
    {
      if d < other.d then true else false
    }
  }

  /** The miss an object reports about itself: zero point and normal, distance -1. */
  function Miss<O(==)>(obj: Option<O>): (r: Intersection<O>)
    ensures r.d == -1.0 && r.obj == obj
  {
    Intersection(Zero, -1.0, Zero, obj)
  }

  /** The value a scan starts from, and returns when nothing is in front of the ray. */
  function Sentinel<O(==)>(): (r: Intersection<O>)
    ensures r.d == -1.0 && r.obj == None
  {
    Miss(None)
  }

  /** One step of the scan: take the candidate when it is in front of the ray and
      either nothing has been found yet or it is strictly nearer. */
  function Better<O(==)>(current: Intersection<O>, candidate: Intersection<O>): (r: Intersection<O>)
    ensures r == current || r == candidate
    ensures r == candidate && candidate != current ==> 0.0 < candidate.d
  {
    if candidate.d > 0.0 && current.d < 0.0 then candidate
    else if 0.0 < candidate.d && candidate.d < current.d then candidate
    else current
  }

  /** The scan over the candidates, left to right, from the sentinel. */
  function Nearest<O(==)>(hits: seq<Intersection<O>>): (r: Intersection<O>)
    ensures r == Sentinel() || (r in hits && 0.0 < r.d)
  {
    if hits == [] then Sentinel()
    else Better(Nearest(hits[..|hits| - 1]), hits[|hits| - 1])
  }

  /** The scan finds nothing exactly when no candidate lies in front of the ray. */
  lemma {:induction false} NearestMissIff<O>(hits: seq<Intersection<O>>)
    ensures Nearest(hits) == Sentinel() <==> forall h :: h in hits ==> h.d <= 0.0
    ensures Nearest(hits).d == -1.0 <==> forall h :: h in hits ==> h.d <= 0.0
  {
    if hits != [] {
      var init := hits[..|hits| - 1];
      NearestMissIff(init);
      assert hits == init + [hits[|hits| - 1]];
    }
  }

  /** The hit found is at least as near as every candidate in front of the ray. */
  lemma {:induction false} NearestIsMinimal<O>(hits: seq<Intersection<O>>)
    ensures forall h :: h in hits && 0.0 < h.d ==> 0.0 < Nearest(hits).d <= h.d
  {
    if hits != [] {
      var init := hits[..|hits| - 1];
      NearestIsMinimal(init);
      assert hits == init + [hits[|hits| - 1]];
    }
  }

  /** Among candidates at the same smallest distance the earliest one wins: no
      candidate before the one returned is in front of the ray and as near. */
  lemma {:induction false} NearestFirstOnTies<O>(hits: seq<Intersection<O>>)
    requires Nearest(hits) != Sentinel()
    ensures exists i :: 0 <= i < |hits| && hits[i] == Nearest(hits)
              && forall j :: 0 <= j < i ==> !(0.0 < hits[j].d <= hits[i].d)
  {
    var init := hits[..|hits| - 1];
    var prev := Nearest(init);
    if Nearest(hits) == prev && prev != Sentinel() {
      NearestFirstOnTies(init);
      var i :| 0 <= i < |init| && init[i] == prev
                && forall j :: 0 <= j < i ==> !(0.0 < init[j].d <= init[i].d);
      assert forall j :: 0 <= j < i ==> hits[j] == init[j];
    } else {
      LastNearerThanAll(init, hits[|hits| - 1]);
      assert hits == init + [hits[|hits| - 1]];
    }
  }

  /** The step of `NearestFirstOnTies` where the scan takes the last candidate:
      it is then nearer than every earlier candidate in front of the ray. */
  lemma LastNearerThanAll<O>(init: seq<Intersection<O>>, last: Intersection<O>)
    requires Better(Nearest(init), last) == last && last != Nearest(init)
    ensures forall j :: 0 <= j < |init| ==> !(0.0 < init[j].d <= last.d)
  {
    NearestIsMinimal(init);
    if Nearest(init) == Sentinel() {
      NearestMissIff(init);
    }
    forall j | 0 <= j < |init|
      ensures !(0.0 < init[j].d <= last.d)
    {
      assert init[j] in init;
    }
  }

  /** The root choice of `Sphere.intersect` (ray_tracer.py and test.py alike): the
      nearer of `d1` and `d2` that lies in front of the ray. Equal roots (a tangent
      ray) and a root at exactly zero give no hit. */
  function SelectRoot(d1: real, d2: real): (r: Option<real>)
    ensures r.Some? <==> (0.0 < d1 || 0.0 < d2) && d1 != d2 && d1 != 0.0 && d2 != 0.0
    ensures r.Some? ==> 0.0 < r.value && (r.value == d1 || r.value == d2)
    ensures r.Some? && 0.0 < d1 ==> r.value <= d1
    ensures r.Some? && 0.0 < d2 ==> r.value <= d2
  {
    if d1 > 0.0 && (d2 > d1 || d2 < 0.0) then Some(d1)
    else if d2 > 0.0 && (d1 > d2 || d1 < 0.0) then Some(d2)
    else None
  }
}
