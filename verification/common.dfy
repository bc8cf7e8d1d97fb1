/** Failure-carrying values shared by the scanners and the series assembly. */
module Common {

  /** A value that may be missing; the scanners use it for a header register
      that no line has set yet (Python's `None`). */
  datatype Option<+T> = None | Some(value: T)

  /** The outcome of an operation that can raise: `Ok` with its value, or
      `Err` with the reason. */
  datatype Result<+T, +E> = Ok(value: T) | Err(error: E)
}
