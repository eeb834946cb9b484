/** Option and Result, the two failure-carrying shapes the model returns. */
module Wrappers {

  /** A value that may be absent: C#'s `null` for a reference. */
  datatype Option<+T> = None | Some(value: T)

  /** A value, or the exception the C# code would throw instead. */
  datatype Result<+R, +E> = Success(value: R) | Failure(error: E)
}
