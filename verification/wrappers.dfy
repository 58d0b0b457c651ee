/** Failure-carrying values shared by the rest of the model. */
module Wrappers {

  /** A value that may be missing: a failed parse, an absent list element. */
  datatype Option<+T> = None | Some(value: T)

  /** The outcome of an operation that either produces a value or raises an error. */
  datatype Result<+T, +E> = Ok(value: T) | Err(error: E)
}
