/** Option and Result values for the planner's partial outcomes. */
module Results {

  /** A value that may be absent, e.g. a percentage whose denominator is zero. */
  datatype Option<+T> = None | Some(value: T)

  /** The outcome of an operation that can fail with an error value. */
  datatype Result<+R, +E> = Ok(value: R) | Err(error: E)
}
