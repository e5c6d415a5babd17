/** Wrappers shared by the rest of the model. */
module Wrappers {

  /** Python's `None` versus a present value. */
  datatype Option<+T> = None | Some(value: T)

  /** The value of a computation, or the exception that aborted it. */
  datatype Result<+T, +E> = Success(value: T) | Failure(error: E)
}
