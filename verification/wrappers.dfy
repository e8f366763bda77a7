/** Optional values and success/failure results, the model's stand-ins for
    JavaScript's `null`/`undefined` and for thrown errors. */
module Wrappers {

  /** A value that may be absent (`null` or `undefined` in the application). */
  datatype Option<+T> = None | Some(value: T) {

    /** The carried value, or `default` when absent (the `x ?? default` idiom). */
    function GetOr(default: T): T {
      match this
      case Some(v) => v
      case None => default
    }
  }

  /** The outcome of a call that can fail with a message. */
  datatype Result<+R, +E> = Ok(value: R) | Err(error: E)
}
