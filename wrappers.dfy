/** Option and Result: C#'s null references and thrown exceptions, as values. */
module Wrappers {

  /** A value that may be absent; None stands for a C# null. */
  datatype Option<+T> = None | Some(value: T) {

    /** The value, or `default` when absent (C#'s `x ?? default`). */
    function GetOr(default: T): T {
      match this
      case Some(v) => v
      case None => default
    }
  }

  /** The outcome of an operation that may throw: the value it returns, or the exception. */
  datatype Result<+T, +E> = Ok(value: T) | Err(error: E)
}
