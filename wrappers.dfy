/** Option and Result: the nullable references and the exceptions of the C# source. */
module Wrappers {

  /** A C# nullable value: `None` is `null`. */
  datatype Option<+T> = None | Some(value: T) {
    /** The value, or `default` when it is null (C#'s `??`). */
    function GetOr(default: T): T {
      match this
      case Some(v) => v
      case None => default
    }
  }

  /** The outcome of a call that either returns a value or throws. */
  datatype Result<+R, +E> = Success(value: R) | Failure(error: E)
}
