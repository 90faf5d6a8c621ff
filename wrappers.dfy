/** Option and Result, the two failure-carrying shapes the model uses. */
module Wrappers {

  /** `None` stands for a JavaScript `undefined` or `null`, or for an absent key. */
  datatype Option<+T> = None | Some(value: T) {
    function GetOr(default: T): T {
      match this
      case Some(v) => v
      case None => default
    }
  }

  /** The value a call returns, or the message of the `Error` it throws. */
  datatype Result<+T, +E> = Success(value: T) | Failure(error: E)
}
