/** The parts of Go's slice semantics the vertex array relies on. */
module GoSlices {

  /** Go's built-in `copy(dst, src)`: it transfers min(len(dst), len(src))
      elements from the front of `src` to the front of `dst` and leaves the
      rest of `dst` alone; the result is `dst` after the copy. In particular
      a copy into an empty (or nil) destination transfers nothing. */
  function CopyInto<T>(dst: seq<T>, src: seq<T>): (r: seq<T>)
    ensures |r| == |dst|
    ensures forall k :: 0 <= k < |r| ==> r[k] == if k < |src| then src[k] else dst[k]
  {
    if |src| < |dst| then src + dst[|src|..] else src[..|dst|]
  }
}
