/** Kotlin's nullable types (`T?`) as an Option value. */
module Wrappers {

  datatype Option<+T> = None | Some(value: T) {

    /** The Kotlin elvis operator `this ?: default`. */
    function GetOr(default: T): T {
      match this
      case Some(v) => v
      case None => default
    }
  }
}
