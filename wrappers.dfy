/** Failure-compatible wrappers shared by the two scripts' models. */
module Wrappers {

  /** A value that may be absent (Python's None). */
  datatype Option<+T> = None | Some(value: T)

  /** The result of a run that may end in an uncaught exception. */
  datatype Result<+T, +E> = Success(value: T) | Failure(error: E)
}
