/** Small value types shared by every module of the model. */
module Common {

  /** A value that may be absent: a missing dictionary key or a Python `None`. */
  datatype Option<+T> = None | Some(value: T) {
    function GetOr(default: T): T {
      match this
      case Some(v) => v
      case None => default
    }
  }

  /** The outcome of a call into an external service that either returns
      a value or raises an exception. */
  datatype Attempt<+T> = Returned(value: T) | Raised
}
