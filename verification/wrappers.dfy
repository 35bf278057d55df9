/** Failure-carrying results used wherever the source returns null or throws. */
module Wrappers {

  /** A value that may be absent (the source's `null`). */
  datatype Option<+T> = None | Some(value: T)

  /** A computation that either succeeds or fails with the message the source throws. */
  datatype Result<+R> = Success(value: R) | Failure(error: string)
}
