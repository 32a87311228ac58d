/** The two failure-carrying shapes used throughout the model: a JavaScript value that may be
    `null`/`undefined`, and the outcome of a call that may throw. */
module Wrappers {

  /** `None` stands for `null` or `undefined`. */
  datatype Option<+T> = None | Some(value: T) {
    function GetOr(default: T): T {
      match this
      case Some(v) => v
      case None => default
    }
  }

  /** `Err` stands for a thrown error or a rejected promise. */
  datatype Result<+T, +E> = Ok(value: T) | Err(error: E)
}
