/** Failure-compatible wrappers used across the model.
    `Option` stands for JavaScript's nullable / undefined values, `Result` for
    a call that either returns or throws. */
module Wrappers {

  datatype Option<+T> = None | Some(value: T) {
    function GetOr(default: T): T
    {
      match this
      case Some(v) => v
      case None => default
    }
  }

  /** The JavaScript exceptions the modelled code can raise. */
  datatype JsError = TypeError | RangeError | Error(message: string)

  datatype Result<+T> = Ok(value: T) | Throw(error: JsError)

  /** What a caller hands a singleton's constructor: the module-private
      symbol, or anything else. */
  datatype Key = Private | Other
}
