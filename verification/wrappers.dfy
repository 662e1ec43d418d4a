/** Failure-carrying values shared by the other modules. */
module Wrappers {

  /** A value that may be missing: a failed parse, an absent entry. */
  datatype Option<+T> = None | Some(value: T)

  /** Either a value or the error that stopped the computation. */
  datatype Result<+R, +E> = Success(value: R) | Failure(error: E)
}
