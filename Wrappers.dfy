/** Option and Result values for the model's "nothing" and error outcomes. */
module Wrappers {

  /** A value that may be absent: a poll of an empty queue, a failed backend call. */
  datatype Option<+T> = None | Some(value: T)

  /** The outcome of an operation that may throw instead of returning. */
  datatype Result<+R, +E> = Success(value: R) | Failure(error: E)
}
