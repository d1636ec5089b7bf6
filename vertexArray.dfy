/** A locally owned, resizable list of vertices together with the primitive
    type that says how the vertices are to be drawn, and the bounding box of
    the vertex positions. */
module VertexArrays {
  import opened Graphics
  import GoSlices

  /** How a list of vertices is read when it is drawn. The source's
      PrimitivePoints is the zero value, hence the default. */
  datatype PrimitiveType =
    | Points          // individual points
    | Lines           // individual lines
    | LinesStrip      // connected lines, each point joined to the previous one
    | Triangles       // individual triangles
    | TrianglesStrip  // connected triangles, each point with the two previous ones
    | TrianglesFan    // connected triangles around the first point
    | Quads           // individual quads

  datatype Vertex = Vertex(position: Vector2f, color: Color, texCoords: Vector2f)

  /** Go's zero vertex: at the origin, transparent, texture coordinates (0, 0). */
  const ZeroVertex := Vertex(Origin, Transparent, Origin)

  /** Go's `make([]Vertex, n)`: `n` zero vertices. */
  function MakeVertices(n: nat): (r: seq<Vertex>)
    ensures |r| == n
    ensures forall k :: 0 <= k < n ==> r[k] == ZeroVertex
  {
    seq(n, _ => ZeroVertex)
  }

  // ---------------------------------------------------------------------
  // Reference definition of the bounding box
  // ---------------------------------------------------------------------

  function Xs(vs: seq<Vertex>): (r: seq<real>)
    ensures |r| == |vs| && forall k :: 0 <= k < |vs| ==> r[k] == vs[k].position.x
  {
    seq(|vs|, k requires 0 <= k < |vs| => vs[k].position.x)
  }

  function Ys(vs: seq<Vertex>): (r: seq<real>)
    ensures |r| == |vs| && forall k :: 0 <= k < |vs| ==> r[k] == vs[k].position.y
  {
    seq(|vs|, k requires 0 <= k < |vs| => vs[k].position.y)
  }

  /** The least element, folded from the front as the source's loop does. */
  function Minimum(s: seq<real>): real
    requires |s| > 0
  {
    if |s| == 1 then s[0]
    else
      var m := Minimum(s[..|s| - 1]);
      if s[|s| - 1] < m then s[|s| - 1] else m
  }

  /** The greatest element, folded from the front. */
  function Maximum(s: seq<real>): real
    requires |s| > 0
  {
    if |s| == 1 then s[0]
    else
      var m := Maximum(s[..|s| - 1]);
      if s[|s| - 1] > m then s[|s| - 1] else m
  }

  /** Minimum is a lower bound of the sequence and one of its elements. */
  lemma {:induction false} MinimumIsLeast(s: seq<real>)
    requires |s| > 0
    ensures Minimum(s) in s
    ensures forall k :: 0 <= k < |s| ==> Minimum(s) <= s[k]
  {
    if |s| > 1 {
      var init := s[..|s| - 1];
      MinimumIsLeast(init);
      assert forall k :: 0 <= k < |init| ==> init[k] == s[k];
    }
  }

  /** Maximum is an upper bound of the sequence and one of its elements. */
  lemma {:induction false} MaximumIsGreatest(s: seq<real>)
    requires |s| > 0
    ensures Maximum(s) in s
    ensures forall k :: 0 <= k < |s| ==> s[k] <= Maximum(s)
  {
    if |s| > 1 {
      var init := s[..|s| - 1];
      MaximumIsGreatest(init);
      assert forall k :: 0 <= k < |init| ==> init[k] == s[k];
    }
  }

  /** Extending a prefix by one element updates its least and greatest
      element exactly as one comparison would. */
  lemma PrefixStep(s: seq<real>, i: nat)
    requires 0 < i < |s|
    ensures Minimum(s[..i + 1]) == if s[i] < Minimum(s[..i]) then s[i] else Minimum(s[..i])
    ensures Maximum(s[..i + 1]) == if s[i] > Maximum(s[..i]) then s[i] else Maximum(s[..i])
  {
    assert s[..i + 1][..i] == s[..i];
  }

  /** A one-element prefix is its own least and greatest element. */
  lemma PrefixOne(s: seq<real>)
    requires 0 < |s|
    ensures Minimum(s[..1]) == s[0] == Maximum(s[..1])
  {
    assert s[..1] == [s[0]];
  }

  /** The bounding box of the vertex positions; the zero rectangle when
      there are none. */
  function Bounds(vs: seq<Vertex>): FloatRect {
    if |vs| == 0 then EmptyRect
    else
      var left, top := Minimum(Xs(vs)), Minimum(Ys(vs));
      FloatRect(left, top, Maximum(Xs(vs)) - left, Maximum(Ys(vs)) - top)
  }

  /** `r` is the tight bounding box of a non-empty `vs`: it has no negative
      size, encloses every position, and each of its four edges touches
      some position. */
  predicate IsTightBox(vs: seq<Vertex>, r: FloatRect) {
    && 0.0 <= r.width && 0.0 <= r.height
    && (forall k :: 0 <= k < |vs| ==> Encloses(r, vs[k].position))
    && (exists k :: 0 <= k < |vs| && vs[k].position.x == r.left)
    && (exists k :: 0 <= k < |vs| && vs[k].position.y == r.top)
    && (exists k :: 0 <= k < |vs| && vs[k].position.x == r.left + r.width)
    && (exists k :: 0 <= k < |vs| && vs[k].position.y == r.top + r.height)
  }

  /** The reference bounding box is tight. */
  lemma BoundsIsTight(vs: seq<Vertex>)
    requires |vs| > 0
    ensures IsTightBox(vs, Bounds(vs))
  {
    var xs, ys := Xs(vs), Ys(vs);
    var r := Bounds(vs);
    MinimumIsLeast(xs);
    MinimumIsLeast(ys);
    MaximumIsGreatest(xs);
    MaximumIsGreatest(ys);
    assert Minimum(xs) <= Maximum(xs) by { assert Minimum(xs) <= xs[0] <= Maximum(xs); }
    assert Minimum(ys) <= Maximum(ys) by { assert Minimum(ys) <= ys[0] <= Maximum(ys); }
    forall k | 0 <= k < |vs| ensures Encloses(r, vs[k].position) {
      assert xs[k] == vs[k].position.x && ys[k] == vs[k].position.y;
    }
    var i :| 0 <= i < |xs| && xs[i] == Minimum(xs);
    var j :| 0 <= j < |ys| && ys[j] == Minimum(ys);
    var p :| 0 <= p < |xs| && xs[p] == Maximum(xs);
    var q :| 0 <= q < |ys| && ys[q] == Maximum(ys);
    assert vs[i].position.x == r.left && vs[j].position.y == r.top;
    assert vs[p].position.x == r.left + r.width && vs[q].position.y == r.top + r.height;
  }

  /** A tight bounding box is unique, so the vertex positions alone decide it. */
  lemma TightBoxIsUnique(vs: seq<Vertex>, r1: FloatRect, r2: FloatRect)
    requires IsTightBox(vs, r1) && IsTightBox(vs, r2)
    ensures r1 == r2
  {
    var a :| 0 <= a < |vs| && vs[a].position.x == r1.left;
    var b :| 0 <= b < |vs| && vs[b].position.x == r2.left;
    assert Encloses(r1, vs[b].position) && Encloses(r2, vs[a].position);
    var c :| 0 <= c < |vs| && vs[c].position.y == r1.top;
    var d :| 0 <= d < |vs| && vs[d].position.y == r2.top;
    assert Encloses(r1, vs[d].position) && Encloses(r2, vs[c].position);
    var e :| 0 <= e < |vs| && vs[e].position.x == r1.left + r1.width;
    var f :| 0 <= f < |vs| && vs[f].position.x == r2.left + r2.width;
    assert Encloses(r1, vs[f].position) && Encloses(r2, vs[e].position);
    var g :| 0 <= g < |vs| && vs[g].position.y == r1.top + r1.height;
    var h :| 0 <= h < |vs| && vs[h].position.y == r2.top + r2.height;
    assert Encloses(r1, vs[h].position) && Encloses(r2, vs[g].position);
  }

  /** A single vertex gives a rectangle of size zero placed at its position. */
  lemma BoundsOfOneVertex(v: Vertex)
    ensures Bounds([v]) == FloatRect(v.position.x, v.position.y, 0.0, 0.0)
  {
    assert Xs([v]) == [v.position.x] && Ys([v]) == [v.position.y];
  }

  /** Vertices at (0, 0) and (10, 5) give the box at (0, 0) of size 10 by 5. */
  lemma BoundsOfTwoVertices(u: Vertex, v: Vertex)
    requires u.position == Vector2f(0.0, 0.0) && v.position == Vector2f(10.0, 5.0)
    ensures Bounds([u, v]) == FloatRect(0.0, 0.0, 10.0, 5.0)
  {
    var xs, ys := Xs([u, v]), Ys([u, v]);
    assert xs == [0.0, 10.0] && ys == [0.0, 5.0];
    assert xs[..1] == [0.0] && ys[..1] == [0.0];
    assert Minimum(xs) == 0.0 && Maximum(xs) == 10.0;
    assert Minimum(ys) == 0.0 && Maximum(ys) == 5.0;
  }

  // ---------------------------------------------------------------------
  // The vertex array
  // ---------------------------------------------------------------------

  class VertexArray {
    var vertices: seq<Vertex>
    var primitiveType: PrimitiveType

    /** A new array: no vertices, primitive type Points. */
    constructor ()
      ensures vertices == [] && primitiveType == Points
    {
      vertices := [];
      primitiveType := Points;
    }

    /** The copy AS WRITTEN: the fresh array's vertex list is nil, and a Go
        `copy` into a nil slice transfers nothing, so only the primitive
        type is carried over. */
    method Copy() returns (c: VertexArray)
      ensures fresh(c)
      ensures c.primitiveType == primitiveType && c.vertices == []
    {
      c := new VertexArray();
      c.primitiveType := primitiveType;
      c.vertices := GoSlices.CopyInto(c.vertices, vertices);
    }

    /** The copy the source evidently intends: the destination is made as
        long as the source before the Go `copy`, so every vertex is
        duplicated as well as the primitive type. */
    method Duplicate() returns (c: VertexArray)
      ensures fresh(c)
      ensures c.primitiveType == primitiveType && c.vertices == vertices
    {
      c := new VertexArray();
      c.primitiveType := primitiveType;
      c.vertices := GoSlices.CopyInto(MakeVertices(|vertices|), vertices);
    }

    function GetVertexCount(): (n: nat)
      reads this
      ensures n == |vertices|
    {
      |vertices|
    }

    /** The vertex at `index`; the source leaves an index out of range
        undefined, so callers must keep it below the count. */
    function GetVertex(index: nat): (v: Vertex)
      reads this
      requires index < GetVertexCount()
      ensures v == vertices[index]
    {
      vertices[index]
    }

    /** Overwrites the vertex at `index` and nothing else. */
    method SetVertex(vertex: Vertex, index: nat)
      requires index < GetVertexCount()
      modifies this
      ensures GetVertexCount() == old(GetVertexCount())
      ensures GetVertex(index) == vertex
      ensures forall k :: 0 <= k < |vertices| && k != index ==> vertices[k] == old(vertices[k])
      ensures primitiveType == old(primitiveType)
    {
      vertices := vertices[index := vertex];
    }

    /** Removes every vertex; the primitive type stays. */
    method Clear()
      modifies this
      ensures vertices == [] && primitiveType == old(primitiveType)
    {
      vertices := vertices[..0];
    }

    /** Grows with zero vertices or truncates to exactly `vertexCount`
        vertices. A negative count makes the source's slice expression
        panic, so it is outside the domain. */
    method Resize(vertexCount: int)
      requires vertexCount >= 0
      modifies this
      ensures GetVertexCount() == vertexCount
      ensures forall k :: 0 <= k < vertexCount && k < |old(vertices)| ==> vertices[k] == old(vertices[k])
      ensures forall k :: |old(vertices)| <= k < vertexCount ==> vertices[k] == ZeroVertex
      ensures primitiveType == old(primitiveType)
    {
      if vertexCount > |vertices| {
        var grown := MakeVertices(vertexCount);
        grown := GoSlices.CopyInto(grown, vertices);
        vertices := grown;
      } else {
        vertices := vertices[..vertexCount];
      }
    }

    /** Adds `vertex` at the end. */
    method Append(vertex: Vertex)
      modifies this
      ensures vertices == old(vertices) + [vertex]
      ensures primitiveType == old(primitiveType)
    {
      vertices := vertices + [vertex];
    }

    method SetPrimitiveType(ptype: PrimitiveType)
      modifies this`primitiveType
      ensures GetPrimitiveType() == ptype && vertices == old(vertices)
    {
      primitiveType := ptype;
    }

    function GetPrimitiveType(): (t: PrimitiveType)
      reads this
      ensures t == primitiveType
    {
      primitiveType
    }

    /** The axis-aligned bounding box of the vertex positions, in one pass
        that widens a box started at the first vertex. */
    method GetBounds() returns (r: FloatRect)
      ensures r == Bounds(vertices)
      ensures |vertices| == 0 ==> r == EmptyRect
      ensures |vertices| > 0 ==> IsTightBox(vertices, r)
    {
      if |vertices| > 0 {
        var left := vertices[0].position.x;
        var top := vertices[0].position.y;
        var right := vertices[0].position.x;
        var bottom := vertices[0].position.y;
        ghost var xs, ys := Xs(vertices), Ys(vertices);
        PrefixOne(xs);
        PrefixOne(ys);

        var i := 1;
        while i < |vertices|
          invariant 1 <= i <= |vertices|
          invariant left == Minimum(xs[..i]) && right == Maximum(xs[..i])
          invariant top == Minimum(ys[..i]) && bottom == Maximum(ys[..i])
          invariant left <= right && top <= bottom
        {
          var pos := vertices[i].position;
          PrefixStep(xs, i);
          PrefixStep(ys, i);
          assert xs[i] == pos.x && ys[i] == pos.y;

          if pos.x < left {
            left := pos.x;
          } else if pos.x > right {
            right := pos.x;
          }

          if pos.y < top {
            top := pos.y;
          } else if pos.y > bottom {
            bottom := pos.y;
          }
          i := i + 1;
        }
        assert xs[..i] == xs && ys[..i] == ys;
        r := FloatRect(left, top, right - left, bottom - top);
        BoundsIsTight(vertices);
      } else {
        r := EmptyRect;
      }
    }
  }
}
