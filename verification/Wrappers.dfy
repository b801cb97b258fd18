/** Types shared by the other modules: an absent value, a failure with its error, a field of a request body. */
module Wrappers {

  datatype Option<+T> = None | Some(value: T) {
    /** The value, or `default` when there is none: the source's `??`. */
    function GetOr(default: T): T {
      match this
      case Some(v) => v
      case None => default
    }
  }

  datatype Result<+T, +E> = Ok(value: T) | Err(error: E)

  /** A field of a request body: left out, sent as `null`, or sent with a value. */
  datatype Sent<+T> = Absent | Null | Value(value: T) {
    /** What is stored when a field is copied unless it is `undefined`. */
    function Copied(current: Option<T>): Option<T> {
      match this
      case Absent => current
      case Null => None
      case Value(v) => Some(v)
    }

    /** The source's `||` with the stored value: `null` counts as left out. */
    function OrElse(current: Option<T>): Option<T> {
      if this.Value? then Some(value) else current
    }
  }
}
