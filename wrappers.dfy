/** The optional values the PHP source expresses with `null` and the `??` operator. */
module Wrappers {

  datatype Option<+T> = None | Some(value: T) {

    /** `$x ?? default`: the value when present, the default otherwise. */
    function GetOr(default: T): T {
      match this
      case Some(v) => v
      case None => default
    }
  }
}
