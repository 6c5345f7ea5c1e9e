/** Option and Result, the two failure-carrying shapes the model uses. */
module Wrappers {

  datatype Option<+T> = None | Some(value: T)

  /** `Failure` carries the text the source would show or return as its `error`. */
  datatype Result<+T> = Success(value: T) | Failure(error: string)
}
