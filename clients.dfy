/** What a caller can conclude from the vertex array's contracts alone, across
    several calls. */
module VertexArrayClients {
  import opened Graphics
  import opened VertexArrays

  /** A fresh array is empty and draws points. */
  method NewArrayDefaults() returns (count: nat, ptype: PrimitiveType)
    ensures count == 0 && ptype == Points
  {
    var a := new VertexArray();
    count := a.GetVertexCount();
    ptype := a.GetPrimitiveType();
  }

  /** Clearing `a` and then appending `vs` leaves `a` with the same vertex
      list as appending `vs` to a new array; only the primitive type tells
      the two apart. */
  method ClearThenAppend(a: VertexArray, vs: seq<Vertex>) returns (b: VertexArray)
    modifies a
    ensures fresh(b)
    ensures a.vertices == vs && b.vertices == vs
    ensures a.primitiveType == old(a.primitiveType) && b.primitiveType == Points
  {
    a.Clear();
    b := new VertexArray();
    var i := 0;
    while i < |vs|
      invariant 0 <= i <= |vs|
      invariant fresh(b)
      invariant a.vertices == vs[..i] && b.vertices == vs[..i]
      invariant a.primitiveType == old(a.primitiveType) && b.primitiveType == Points
    {
      a.Append(vs[i]);
      b.Append(vs[i]);
      i := i + 1;
    }
    assert vs[..i] == vs;
  }

  /** Resizing to `n` and back keeps the vertices below min(old count, n) and
      brings back zero vertices, never the old ones, above it. */
  method ResizeAndBack(a: VertexArray, n: nat)
    modifies a
    ensures |a.vertices| == |old(a.vertices)|
    ensures forall k :: 0 <= k < n && k < |a.vertices| ==> a.vertices[k] == old(a.vertices[k])
    ensures forall k :: n <= k < |a.vertices| ==> a.vertices[k] == ZeroVertex
    ensures a.primitiveType == old(a.primitiveType)
  {
    var count := a.GetVertexCount();
    a.Resize(n);
    a.Resize(count);
  }

  /** The primitive type read back is the one just set, and setting it leaves
      the vertices alone. */
  method SetThenGetPrimitiveType(a: VertexArray, ptype: PrimitiveType) returns (got: PrimitiveType)
    modifies a
    ensures got == ptype && a.vertices == old(a.vertices)
  {
    a.SetPrimitiveType(ptype);
    got := a.GetPrimitiveType();
  }

  /** Overwriting one vertex and appending another: the count grows by one,
      the written and the appended vertex read back, the rest stay. */
  method SetThenAppend(a: VertexArray, v: Vertex, w: Vertex, index: nat) returns (atIndex: Vertex, last: Vertex)
    requires index < a.GetVertexCount()
    modifies a
    ensures a.GetVertexCount() == old(a.GetVertexCount()) + 1
    ensures atIndex == v && last == w
    ensures forall k :: 0 <= k < |old(a.vertices)| && k != index ==> a.vertices[k] == old(a.vertices[k])
    ensures a.primitiveType == old(a.primitiveType)
  {
    a.SetVertex(v, index);
    a.Append(w);
    atIndex := a.GetVertex(index);
    last := a.GetVertex(a.GetVertexCount() - 1);
  }

  /** The copy as written loses the vertices: an array holding one vertex
      copies to an array holding none, though the primitive type carries
      over. The intended copy keeps the vertex. */
  method CopyLosesVertices(v: Vertex) returns (original: nat, copied: nat, duplicated: nat, sameType: bool)
    ensures original == 1 && copied == 0 && duplicated == 1 && sameType
  {
    var a := new VertexArray();
    a.Append(v);
    a.SetPrimitiveType(Quads);
    var c := a.Copy();
    var d := a.Duplicate();
    original := a.GetVertexCount();
    copied := c.GetVertexCount();
    duplicated := d.GetVertexCount();
    sameType := c.GetPrimitiveType() == Quads && d.GetPrimitiveType() == Quads;
  }
}
