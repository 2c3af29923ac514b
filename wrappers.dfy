/** Failure-carrying values: a missing argument, a computed value or a thrown error. */
module Wrappers {

  /** A value that may be absent (`null` or `undefined` in the source). */
  datatype Option<+T> = None | Some(value: T)

  /** A string (or other value) that was returned, or the error that was thrown instead. */
  datatype Result<+R, +E> = Ok(value: R) | Err(error: E)

  /** The outcome of an operation that returns nothing: it finished, or it threw. */
  datatype Outcome<+E> = Pass | Fail(error: E)
}
