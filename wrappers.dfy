/** Failure-carrying datatypes used for the values the handler receives from
    its collaborators (configuration loading, hash parsing, Basic-Auth
    extraction) and for the error that validation returns. */
module Wrappers {

  /** A value that may be absent. */
  datatype Option<+T> = None | Some(value: T)

  /** A value or the error that prevented computing it. */
  datatype Result<+T, +E> = Success(value: T) | Failure(error: E)

  /** Success without a value, or an error (Go's `error`, nil or not). */
  datatype Outcome<+E> = Pass | Fail(error: E)
}
