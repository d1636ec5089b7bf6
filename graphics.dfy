/** Value types the vertex array is built from: a 2D vector, an RGBA colour
    and an axis-aligned rectangle. Coordinates are `real`: the source's
    float32 rounding is not modelled. */
module Graphics {

  /** One colour channel, an unsigned 8-bit integer. */
  newtype Byte = x: int | 0 <= x < 256

  datatype Vector2f = Vector2f(x: real, y: real)

  datatype Color = Color(r: Byte, g: Byte, b: Byte, a: Byte)

  /** A rectangle given by its top-left corner and its size. */
  datatype FloatRect = FloatRect(left: real, top: real, width: real, height: real)

  /** Go's zero values of the three types. */
  const Origin := Vector2f(0.0, 0.0)
  const Transparent := Color(0, 0, 0, 0)
  const EmptyRect := FloatRect(0.0, 0.0, 0.0, 0.0)

  /** `p` lies in the closed rectangle `r`. */
  predicate Encloses(r: FloatRect, p: Vector2f) {
    r.left <= p.x <= r.left + r.width && r.top <= p.y <= r.top + r.height
  }
}
