/** Optional values and results with an error, used for the nulls and the
    early returns of the storefront script. */
module Wrappers {

  /** A value that may be absent (JavaScript `null` / `undefined`). */
  datatype Option<+T> = None | Some(value: T)

  /** The outcome of an operation that can be rejected. */
  datatype Result<+T, +E> = Success(value: T) | Failure(error: E)
}
