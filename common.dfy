/** Small value types shared by every module of the model. */
module Common {

  /** A value that may be absent: Python's `None` stands for `None` here. */
  datatype Option<+T> = None | Some(value: T)

  /**
   * An optional keyword argument whose default is the package's `null`
   * sentinel (stackpm/__init__.py), so that "not passed" differs from an
   * explicit `None`: `Omitted` is the sentinel, `Passed(None)` an explicit
   * `None`, `Passed(Some(v))` a value.
   */
  datatype Arg<+T> = Omitted | Passed(value: T)

  /** The outcome of an operation that may raise. */
  datatype Result<+T, +E> = Success(value: T) | Failure(error: E)

  /** Python's `max(a, b)` on integers. */
  function Max(a: int, b: int): (m: int)
    ensures m >= a && m >= b && (m == a || m == b)
  {
    if a >= b then a else b
  }
}
