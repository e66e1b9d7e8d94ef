/** Option and Result values shared by both command groups. */
module Common {

  /** A JSON field or argument that may be absent (`undefined`). */
  datatype Option<+T> = None | Some(value: T)

  /**
   * The outcome of one external call: the value it produced, or the
   * `message` of the error it threw.
   */
  datatype Result<+T> = Success(value: T) | Failure(message: string)

  /** JavaScript `Math.min` on integers. */
  function Min(a: int, b: int): (m: int)
    ensures m <= a && m <= b
    ensures m == a || m == b
  {
    if a <= b then a else b
  }
}
