/** Failure-carrying datatypes used in place of the source's `exit(-1)`
    paths and of its null pointers. */
module Wrappers {

  /** A value that may be absent; stands in for a possibly-null pointer. */
  datatype Option<+T> = None | Some(value: T)

  /** The outcome of a check that either passes or reports one error. */
  datatype Outcome<+E> = Pass | Fail(error: E)

  /** Either a computed value or the error that stopped the computation. */
  datatype Result<+R, +E> = Success(value: R) | Failure(error: E)
}
