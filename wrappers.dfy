/** Option and Result, used for the parser's outcome and for per-playlist fetch outcomes. */
module Wrappers {

  datatype Option<+T> = None | Some(value: T)

  /** A fetch either succeeds with its lines or fails with the text of the raised exception. */
  datatype Result<+R, +E> = Success(value: R) | Failure(error: E)
}
