/** Wrappers used across the model: `Option` for values that
    may be absent (a missing JSON field, an unset client), `Result` for
    operations that can fail (a gateway call). */
module Wrappers {

  datatype Option<+T> = None | Some(value: T) {

    /** The value, or `default` when absent (JavaScript's `??`). */
    function GetOr(default: T): T {
      match this
      case Some(v) => v
      case None => default
    }
  }

  datatype Result<+R, +E> = Success(value: R) | Failure(error: E)
}
