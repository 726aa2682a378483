/** Optional values and results with an error, as used by the evaluator model. */
module Wrappers {

  /** A value that may be absent, such as a dictionary key that was never set. */
  datatype Option<+T> = None | Some(value: T)

  /** The outcome of a computation that may raise an error instead of returning. */
  datatype Result<+R, +E> = Success(value: R) | Failure(error: E)
}
