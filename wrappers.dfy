/** A value that may be absent: TypeScript's `T | null` and optional fields. */
module Wrappers {

  datatype Option<+T> = None | Some(value: T) {

    /** `x || default` for a possibly absent `x`. */
    function GetOr(default: T): T {
      match this
      case Some(v) => v
      case None => default
    }
  }
}
