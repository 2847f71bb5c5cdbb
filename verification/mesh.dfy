/** `Model.get_triangles` of ray_tracer.py: a polygon mesh, given as points and
    links (lists of point indices), cut into triangle fans. Indices follow
    Python's list indexing, so `-1` is the last point and an index outside
    `-|points| .. |points|-1` raises `IndexError`. */
module Mesh {
  import opened Numerics
  import opened Vectors
  import opened Primitives

  /** The three corners of a triangle, in the order they are passed to
      `Triangle.__init__`. */
  datatype Face = Face(a: Vector, b: Vector, c: Vector)

  /** The corners of each triangle of a list, in order. */
  function Faces(ts: seq<Triangle>): (r: seq<Face>)
    ensures |r| == |ts|
  {
    seq(|ts|, k requires 0 <= k < |ts| => Face(ts[k].p1, ts[k].p2, ts[k].p3))
  }

  /** How many triangles a list of links gives when every link is valid: a link
      of `n` indices gives `n - 2` triangles, or none when it has fewer than three. */
  function Count(links: seq<seq<int>>): nat {
    if links == [] then 0
    else
      var last := links[|links| - 1];
      Count(links[..|links| - 1]) + (if |last| >= 3 then |last| - 2 else 0)
  }

  class Model {
    const center: Vector
    const coef: real
    const points: seq<Vector>
    const links: seq<seq<int>>
    const material: Material
    const pattern: int
    const scale: real

    /** `Model.__init__` with the points and links given directly. */
    constructor (center: Vector, coef: real, points: seq<Vector>, links: seq<seq<int>>, material: Material, pattern: int, scale: real)
      ensures this.center == center && this.coef == coef && this.points == points && this.links == links
      ensures this.material == material && this.pattern == pattern && this.scale == scale
    {
      this.center := center;
      this.coef := coef;
      this.points := points;
      this.links := links;
      this.material := material;
      this.pattern := pattern;
      this.scale := scale;
    }

    /** Whether `points[k]` is a valid Python index. */
    predicate Indexes(k: int): (r: bool)
      ensures r <==> 0 <= k < |points| || 0 <= k + |points| < |points|
    {
      -|points| <= k < |points|
    }

    /** `points[k] * coef + center`, with a negative `k` counting from the end. */
    function Vertex(k: int): (r: Vector)
      requires Indexes(k)
      ensures exists i :: 0 <= i < |points| && r == points[i].Scale(coef).Add(center)
    {
      var p := if k < 0 then points[|points| + k] else points[k];
      p.Scale(coef).Add(center)
    }

    /** Whether one link goes through without `IndexError`: `link[0]` always is
        read, the other indices only when the link has at least three. */
    predicate LinkOk(link: seq<int>): (r: bool)
      ensures r ==> link != []
      ensures |link| >= 3 ==> (r <==> forall j :: 0 <= j < |link| ==> Indexes(link[j]))
      ensures |link| < 3 ==> (r <==> link != [] && Indexes(link[0]))
    {
      && |link| > 0
      && Indexes(link[0])
      && (|link| >= 3 ==> forall j :: 1 <= j < |link| ==> Indexes(link[j]))
    }

    /** The fan of one link: `(link[0], link[i], link[i+1])` for `i` from 1 to
        `|link| - 2`. */
    function Fan(link: seq<int>): (r: seq<Face>)
      requires LinkOk(link)
      ensures |r| == if |link| >= 3 then |link| - 2 else 0
    {
      if |link| < 3 then []
      else seq(|link| - 2, i requires 0 <= i < |link| - 2 => Face(Vertex(link[0]), Vertex(link[i + 1]), Vertex(link[i + 2])))
    }

    /** The triangles of the links in order, or `IndexError` at the first link
        that has an index out of range. */
    function Fans(ls: seq<seq<int>>): (r: Result<seq<Face>>)
      ensures r.Err? ==> r.error == IndexError
    {
      if ls == [] then Ok([])
      else
        var init, last := ls[..|ls| - 1], ls[|ls| - 1];
        var before := Fans(init);
        if before.Err? then before
        else if !LinkOk(last) then Err(IndexError)
        else Ok(before.value + Fan(last))
    }

    /** Every triangle of the list carries the model's material, pattern and scale. */
    predicate Styled(ts: seq<Triangle>) {
      forall k :: 0 <= k < |ts| ==>
        ts[k].material == material && ts[k].plane.pattern == pattern && ts[k].plane.scale == scale
    }

    /** The body of `get_triangles`' outer loop for one link: the fan of the
        link, or `IndexError` when it reads an index out of range. */
    method LinkTriangles(m: Math, link: seq<int>) returns (r: Result<seq<Triangle>>)
      ensures r.Ok? <==> LinkOk(link)
      ensures r.Err? ==> r.error == IndexError
      ensures r.Ok? ==> Faces(r.value) == Fan(link)
      ensures r.Ok? ==> Styled(r.value) && forall k :: 0 <= k < |r.value| ==> fresh(r.value[k])
    {
      if |link| == 0 || !Indexes(link[0]) {
        return Err(IndexError);
      }
      var p0 := Vertex(link[0]);
      var triangles: seq<Triangle> := [];
      var i := 1;
      while i < |link| - 1
        invariant 1 <= i && (i <= |link| - 1 || i == 1)
        invariant i == 1 || forall j :: 1 <= j <= i ==> Indexes(link[j])
        invariant |triangles| == i - 1
        invariant forall k :: 0 <= k < |triangles| ==>
                    && triangles[k].p1 == p0
                    && triangles[k].p2 == Vertex(link[k + 1])
                    && triangles[k].p3 == Vertex(link[k + 2])
        invariant Styled(triangles) && forall k :: 0 <= k < |triangles| ==> fresh(triangles[k])
      {
        if !Indexes(link[i]) || !Indexes(link[i + 1]) {
          return Err(IndexError);
        }
        var t := new Triangle(m, p0, Vertex(link[i]), Vertex(link[i + 1]), material, pattern, scale);
        triangles := triangles + [t];
        i := i + 1;
      }
      assert LinkOk(link);
      FanFromCorners(this, link, triangles);
      r := Ok(triangles);
    }

    /** `get_triangles`: the fans of the links in order, each triangle built with
        the model's material, pattern and scale. */
    method GetTriangles(m: Math) returns (r: Result<seq<Triangle>>)
      ensures r.Err? <==> Fans(links).Err?
      ensures r.Err? ==> r.error == IndexError
      ensures r.Ok? ==> Faces(r.value) == Fans(links).value
      ensures r.Ok? ==> Styled(r.value) && forall k :: 0 <= k < |r.value| ==> fresh(r.value[k])
    {
      var triangles: seq<Triangle> := [];
      var l := 0;
      while l < |links|
        invariant 0 <= l <= |links|
        invariant Fans(links[..l]) == Ok(Faces(triangles))
        invariant Styled(triangles) && forall k :: 0 <= k < |triangles| ==> fresh(triangles[k])
      {
        var fan := LinkTriangles(m, links[l]);
        if fan.Err? {
          FansFailAt(this, links, l);
          return fan;
        }
        FansStep(this, links, l, triangles, fan.value);
        triangles := triangles + fan.value;
        l := l + 1;
      }
      assert links[..l] == links;
      r := Ok(triangles);
    }
  }

  /** Each valid link of `n >= 3` indices gives `n - 2` triangles, in link
      order, so the whole mesh gives `Count(links)` of them. */
  lemma {:induction false} FansCount(model: Model, ls: seq<seq<int>>)
    requires model.Fans(ls).Ok?
    ensures |model.Fans(ls).value| == Count(ls)
  {
    if ls != [] {
      var init := ls[..|ls| - 1];
      FansCount(model, init);
    }
  }

  /** The triangles of a link come after those of the links before it. */
  lemma FansAppend(model: Model, ls: seq<seq<int>>, link: seq<int>)
    requires model.Fans(ls).Ok? && model.LinkOk(link)
    ensures model.Fans(ls + [link]) == Ok(model.Fans(ls).value + model.Fan(link))
  {
    assert (ls + [link])[..|ls|] == ls;
  }

  /** The links go through exactly when every one of them is valid. */
  lemma {:induction false} FansOkIff(model: Model, ls: seq<seq<int>>)
    ensures model.Fans(ls).Ok? <==> forall k :: 0 <= k < |ls| ==> model.LinkOk(ls[k])
  {
    if ls != [] {
      var init := ls[..|ls| - 1];
      FansOkIff(model, init);
      assert forall k :: 0 <= k < |init| ==> init[k] == ls[k];
    }
  }

  /** A link with an index out of range makes the whole list fail. */
  lemma FansFailAt(model: Model, ls: seq<seq<int>>, l: nat)
    requires l < |ls| && !model.LinkOk(ls[l])
    ensures model.Fans(ls).Err?
  {
    FansOkIff(model, ls);
  }

  /** One round of `get_triangles`' outer loop keeps the triangles built so far
      equal to the fans of the links seen so far. */
  lemma FansStep(model: Model, ls: seq<seq<int>>, l: nat, ts: seq<Triangle>, fan: seq<Triangle>)
    requires l < |ls| && model.Fans(ls[..l]) == Ok(Faces(ts))
    requires model.LinkOk(ls[l]) && Faces(fan) == model.Fan(ls[l])
    ensures model.Fans(ls[..l + 1]) == Ok(Faces(ts + fan))
  {
    var cur := ls[..l + 1];
    assert cur[..|cur| - 1] == ls[..l] && cur[|cur| - 1] == ls[l];
    FacesAppend(ts, fan);
  }

  /** Triangles whose corners are the fan's corners, one by one, make up the fan. */
  lemma FanFromCorners(model: Model, link: seq<int>, ts: seq<Triangle>)
    requires model.LinkOk(link) && |ts| == |model.Fan(link)|
    requires forall k :: 0 <= k < |ts| ==>
      && ts[k].p1 == model.Vertex(link[0])
      && ts[k].p2 == model.Vertex(link[k + 1])
      && ts[k].p3 == model.Vertex(link[k + 2])
    ensures Faces(ts) == model.Fan(link)
  {
    var f := model.Fan(link);
    if |link| < 3 {
      assert ts == [];
    } else {
      forall k | 0 <= k < |ts|
        ensures Faces(ts)[k] == f[k]
      {
        assert f[k] == Face(model.Vertex(link[0]), model.Vertex(link[k + 1]), model.Vertex(link[k + 2]));
      }
    }
  }

  /** The corners of two lists of triangles one after the other. */
  lemma FacesAppend(ts: seq<Triangle>, us: seq<Triangle>)
    ensures Faces(ts + us) == Faces(ts) + Faces(us)
  {
  }

  /** Every triangle of a fan has `link[0]` as its first corner, and each one
      shares an edge with the next: the third corner of one is the second of the
      next. The first triangle is `(link[0], link[1], link[2])` and the last one
      ends at the link's last index. */
  lemma FanShape(model: Model, link: seq<int>)
    requires model.LinkOk(link) && |link| >= 3
    ensures var f := model.Fan(link);
      && (forall k :: 0 <= k < |f| ==> f[k].a == model.Vertex(link[0]))
      && (forall k :: 0 <= k < |f| - 1 ==> f[k].c == f[k + 1].b)
      && f[0] == Face(model.Vertex(link[0]), model.Vertex(link[1]), model.Vertex(link[2]))
      && f[|f| - 1].c == model.Vertex(link[|link| - 1])
  {
  }

  /** A link of one or two indices gives no triangle, but its first index is
      still read: an out-of-range one raises `IndexError`. */
  lemma ShortLinks(model: Model, link: seq<int>)
    requires 0 < |link| < 3
    ensures model.Fans([link]) == if model.Indexes(link[0]) then Ok([]) else Err(IndexError)
  {
    if model.Indexes(link[0]) {
      FansAppend(model, [], link);
      assert [] + [link] == [link];
      assert model.Fans([link]).value == [];
    }
  }

  /** The triangles of two lists are styled exactly when the triangles of their
      concatenation are. */
  lemma StyledConcat(model: Model, ts: seq<Triangle>, us: seq<Triangle>)
    ensures model.Styled(ts + us) <==> model.Styled(ts) && model.Styled(us)
  {
    if model.Styled(ts + us) {
      forall k | 0 <= k < |ts|
        ensures ts[k].material == model.material && ts[k].plane.pattern == model.pattern && ts[k].plane.scale == model.scale
      {
        assert (ts + us)[k] == ts[k];
      }
      forall k | 0 <= k < |us|
        ensures us[k].material == model.material && us[k].plane.pattern == model.pattern && us[k].plane.scale == model.scale
      {
        assert (ts + us)[|ts| + k] == us[k];
      }
    }
    if model.Styled(ts) && model.Styled(us) {
      forall k | 0 <= k < |ts + us|
        ensures (ts + us)[k].material == model.material && (ts + us)[k].plane.pattern == model.pattern
        ensures (ts + us)[k].plane.scale == model.scale
      {
        if k < |ts| { assert (ts + us)[k] == ts[k]; } else { assert (ts + us)[k] == us[k - |ts|]; }
      }
    }
  }

  /** Index `-1` names the last point, as in Python. */
  lemma LastPointByMinusOne(model: Model)
    requires model.points != []
    ensures model.Indexes(-1) && model.Vertex(-1) == model.Vertex(|model.points| - 1)
  {
  }

  /** An empty link raises `IndexError`. */
  lemma EmptyLink(model: Model)
    ensures model.Fans([[]]) == Err(IndexError)
  {
    var ls: seq<seq<int>> := [[]];
    assert ls[..0] == [];
  }
}
