/** Failure-carrying values shared by the location-service model. */
module Wrappers {

  /** Python's `None` or a present value. */
  datatype Option<+T> = None | Some(value: T)

  /** A value, or the message of the exception the source raises instead. */
  datatype Result<+R> = Success(value: R) | Failure(error: string)
}
