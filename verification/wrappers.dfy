/** Failure-carrying return values shared by the modules of the model. */
module Wrappers {

  /** A value that may be missing: the model's stand-in for a JavaScript `null` or `undefined`. */
  datatype Option<+T> = None | Some(value: T)

  /** Either a computed value or the error that stopped the computation. */
  datatype Result<+T, +E> = Success(value: T) | Failure(error: E)
}
