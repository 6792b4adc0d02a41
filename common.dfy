/** Shared value types: optional values, results with an error, and planar points. */
module Common {

  /** A value that may be absent (Python's None). */
  datatype Option<+T> = None | Some(value: T)

  /** The outcome of an operation that the source aborts with an exception. */
  datatype Result<+T, +E> = Ok(value: T) | Err(error: E)

  /** A position in the plane; the source keeps these as two-element numpy arrays. */
  datatype Point = Point(x: real, y: real)

  function MinReal(a: real, b: real): (r: real)
    ensures r <= a && r <= b && (r == a || r == b)
  {
    if a <= b then a else b
  }

  function MaxReal(a: real, b: real): (r: real)
    ensures r >= a && r >= b && (r == a || r == b)
  {
    if a >= b then a else b
  }
}
