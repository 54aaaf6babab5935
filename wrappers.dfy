/** The optional value used wherever a lookup or a parse can come back empty. */
module Wrappers {
  datatype Option<+T> = None | Some(value: T) {

    /** The value if there is one, otherwise `default` (JavaScript's `x || default`). */
    function GetOr(default: T): T {
      match this
      case Some(v) => v
      case None => default
    }
  }
}
