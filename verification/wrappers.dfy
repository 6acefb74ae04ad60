/** An optional value, for the places where the scripts test for a missing
    key, a failed decode or an unset style. */
module Wrappers {

  datatype Option<+T> = None | Some(value: T) {
    /** `$x ?? default` */
    function GetOr(default: T): T {
      match this
      case Some(v) => v
      case None => default
    }
  }
}
