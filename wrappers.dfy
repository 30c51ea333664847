/** A value that may be absent: the model's stand-in for a null pointer or a null Java string. */
module Wrappers {

  datatype Option<+T> = None | Some(value: T) {

    /** The value, or `default` when there is none. */
    function GetOr(default: T): T {
      match this
      case Some(v) => v
      case None => default
    }
  }
}
