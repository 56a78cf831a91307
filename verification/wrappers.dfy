/** The optional-value and result types shared by the model. */
module Wrappers {

  /** A value that may be absent: a SQL `fetchone()` with no row, or Python's `None`. */
  datatype Option<+T> = None | Some(value: T)

  /** Either a computed value or the error that stopped the computation. */
  datatype Result<+R, +E> = Success(value: R) | Failure(error: E)
}
