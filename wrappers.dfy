/** Failure-carrying return values shared by the modules of this model. */
module Wrappers {

  /** A Python value that may be `None`. */
  datatype Option<+T> = None | Some(value: T)

  /** The outcome of an operation that can raise an exception in the source. */
  datatype Result<+T, +E> = Success(value: T) | Failure(error: E)
}
