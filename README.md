# VertexArray of gosfml2, modelled in Dafny

gosfml2 is a Go binding to the CSFML graphics library. Its `VertexArray` is
the one part of the binding with logic of its own. It is a locally owned,
resizable list of vertices (position, colour, texture coordinates). It also
holds a primitive type (points, lines, triangles, quads and their strip and
fan variants) that says how the vertices are drawn. It computes the
axis-aligned bounding box of the vertex positions in a single loop.

The model:

- `graphics.dfy`, module `Graphics`: the value types the array uses. These
  are `Vector2f`, `Color` (four byte channels) and `FloatRect`, plus their
  Go zero values. Coordinates are `real`. The Go files that define these
  types are not part of this model beyond their fields.
- `goSlices.dfy`, module `GoSlices`: Go's built-in `copy` as a function on
  sequences. It transfers min(len(dst), len(src)) elements.
- `vertexArray.dfy`, module `VertexArrays`:
  - the `PrimitiveType` and `Vertex` datatypes;
  - a reference definition of the bounding box (`Bounds`, a left-to-right
    fold of `Minimum`/`Maximum` over the coordinates);
  - the predicate `IsTightBox` with lemmas proving that `Bounds` satisfies
    it and that a tight box is unique;
  - the class `VertexArray`. Its `vertices: seq<Vertex>` and
    `primitiveType` fields are reassigned by the methods, as the Go methods
    reassign the receiver's fields. `SetVertex` writes one element of the
    Go slice in place; the model writes it as an update of the sequence
    field. The getters are functions. `GetBounds`
    is the source's loop, proved equal to `Bounds`.
- `clients.dfy`, module `VertexArrayClients`: properties that span several
  calls, stated as client methods that use only the class's contracts.

The doc comment of `Copy` (vertexArray.go:55) says it copies the array; as
written the copy loses the vertex list (see Findings).

## Model

| member | source | states |
|---|---|---|
| `VertexArrays.VertexArray.constructor` | vertexArray.go:50-53 | a new array has no vertices and primitive type Points |
| `VertexArrays.VertexArray.Copy` | vertexArray.go:56-61 | as written: the copy is a fresh array with the same primitive type and an empty vertex list |
| `VertexArrays.VertexArray.Duplicate` | vertexArray.go:55-61 | corrected copy: fresh array with the same primitive type and the same vertex list |
| `VertexArrays.VertexArray.GetVertexCount` | vertexArray.go:64-66 | the count is the length of the vertex list |
| `VertexArrays.VertexArray.GetVertex` | vertexArray.go:68-75 | needs an index below the count; returns the vertex at that index and reads nothing but the array |
| `VertexArrays.VertexArray.SetVertex` | vertexArray.go:77-84 | needs an index below the count; afterwards that index reads back the new vertex, every other index and the count are unchanged, and so is the primitive type |
| `VertexArrays.VertexArray.Clear` | vertexArray.go:86-94 | the vertex list becomes empty and the primitive type is kept |
| `VertexArrays.VertexArray.Resize` | vertexArray.go:96-113 | for a count n >= 0: the new count is n, the first min(old count, n) vertices are unchanged, every added vertex is the zero vertex, and the primitive type is kept |
| `VertexArrays.VertexArray.Append` | vertexArray.go:115-124 | the new list is the old list followed by the appended vertex; the primitive type is kept |
| `VertexArrays.VertexArray.SetPrimitiveType` | vertexArray.go:126-139 | the primitive type reads back as the one set; only that field may change, and the vertices stay the same |
| `VertexArrays.VertexArray.GetPrimitiveType` | vertexArray.go:141-144 | returns the stored primitive type |
| `VertexArrays.VertexArray.GetBounds` | vertexArray.go:146-177 | the loop's result equals the reference box `Bounds` of the vertices: the zero rectangle when there are none, otherwise the tight box (non-negative size, encloses every position, each edge touches a position) |
| `VertexArrays.MinimumIsLeast` | vertexArray.go:157-171 | the fold that narrows left/top yields an element of the coordinates that is below or equal to all of them |
| `VertexArrays.MaximumIsGreatest` | vertexArray.go:157-171 | the fold that widens right/bottom yields an element of the coordinates that is above or equal to all of them |
| `VertexArrays.PrefixOne` | vertexArray.go:152-155 | starting the box at the first vertex is the fold over a one-element prefix |
| `VertexArrays.PrefixStep` | vertexArray.go:157-171 | one-step unfolding of the fold: extending a prefix by one coordinate changes its least element only if the new coordinate is below it, and its greatest only if the new coordinate is above it (the loop's `else if` agrees with these two comparisons because its invariant keeps left <= right and top <= bottom) |
| `VertexArrays.BoundsIsTight` | vertexArray.go:146-173 | the box of a non-empty array has width and height >= 0, encloses every vertex position, and each of its four edges is attained by some vertex |
| `VertexArrays.TightBoxIsUnique` | vertexArray.go:146-149 | two tight boxes of the same vertices are equal, so the box the loop returns is fully determined |
| `VertexArrays.BoundsOfOneVertex` | vertexArray.go:151-173 | a single vertex gives a rectangle of size zero placed at its position |
| `VertexArrays.BoundsOfTwoVertices` | vertexArray.go:151-173 | vertices at (0, 0) and (10, 5) give origin (0, 0), width 10, height 5 |
| `VertexArrays.MakeVertices` | vertexArray.go:107 | a made slice of n vertices holds n zero vertices |
| `GoSlices.CopyInto` | vertexArray.go:108 | Go's copy keeps the destination's length, takes the source's elements below min of the two lengths, and leaves the rest of the destination alone |
| `VertexArrayClients.NewArrayDefaults` | vertexArray.go:50-53 | a new array reports count 0 and primitive type Points |
| `VertexArrayClients.ClearThenAppend` | vertexArray.go:92-124 | clearing an array and appending a list gives the same vertex list as appending it to a new array |
| `VertexArrayClients.ResizeAndBack` | vertexArray.go:105-113 | resizing to n and back keeps the vertices below n, brings back zero vertices above n rather than the old ones, and keeps the primitive type |
| `VertexArrayClients.SetThenGetPrimitiveType` | vertexArray.go:137-144 | the primitive type read after setting it is the one set, and the vertices are unchanged |
| `VertexArrayClients.SetThenAppend` | vertexArray.go:82-124 | after overwriting index i and appending w: the count grows by one, index i reads back the written vertex, the last index reads w, the other old vertices stay, and the primitive type is kept |
| `VertexArrayClients.CopyLosesVertices` | vertexArray.go:56-61 | an array with one vertex copies, as written, to an array with none, with the primitive type carried over; the corrected copy keeps the vertex |

## Left out

- `Draw` (vertexArray.go:179-189): a call into the native library that passes a pointer to the vertex buffer. It picks the native entry point by the render target's runtime type. Its texture branch converts the target to a window, which would panic at run time. None of this is local logic.
- font.go: every operation is a direct call into the native font library. Object lifetime is handled by a garbage-collector finalizer. Neither can be modelled here.
- float32 arithmetic: coordinates are `real`. Rounding in `right - left` and `bottom - top` is not modelled, and neither are NaN coordinates, for which the comparisons in `GetBounds` are all false. Overflow and infinite coordinates are not modelled either: vertices at x = -3e38 and x = 3e38 give width +Inf in Go but 6e38 in the model, and a single vertex at x = +Inf gives width Inf - Inf = NaN in Go but 0 in the model.
- `PrimitiveType`: in Go it is an `int`, and any value can be stored. The model admits only the seven named constants. The default is Points because the native enumeration starts with it, which makes it the Go zero value.
- `NewVertexArray`'s error result: it is always nil, so the constructor returns no error.
- Slice capacity and aliasing: `Clear` keeps the backing storage, and `Append` grows it in amortised steps. Go code that still holds the old slice through the exported `Vertices` field would see later writes. The model treats the vertex list as a value with no capacity and no sharing.
- `GetVertex`, `SetVertex`: an out-of-range index is left undefined by the source (in Go it panics). The model requires the index to be in range rather than modelling the panic.
- `Resize`: a negative count makes the slice expression at vertexArray.go:111 panic; the model requires `vertexCount >= 0` rather than modelling the panic.
- `GetVertexCount`: the `uint` result is a `nat`. A slice length always fits, so no conversion is lost.
- The binary layout that must match the native vertex struct is not modelled.

## Findings

| source | as written | input that shows it | evidently intended | confidence | as-written member | corrected member |
|---|---|---|---|---|---|---|
| vertexArray.go:56-61 | `Copy` copies the vertices into the new array's vertex list while that list is still nil; Go's copy moves min(0, n) = 0 elements | an array holding one vertex: its copy holds none | the copy holds the same vertices as the original, as its doc comment (vertexArray.go:55) says | high (Go's copy semantics are fixed by the language), not executed | `VertexArrays.VertexArray.Copy`, shown by `VertexArrayClients.CopyLosesVertices` | `VertexArrays.VertexArray.Duplicate` |
