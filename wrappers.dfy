/** Failure-carrying wrappers used for the source's `null` and thrown errors. */
module Wrappers {

  datatype Option<+T> = None | Some(value: T)

  /** `Failure` carries the message the source puts in the thrown Error. */
  datatype Result<+T> = Success(value: T) | Failure(error: string)
}
