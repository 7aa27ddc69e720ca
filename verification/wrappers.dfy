/** The JavaScript source signals "no value" in several ways (`null`,
    `undefined`, a `console.error` fall-through). The model represents the
    absence of a value with this Option datatype. */
module Wrappers {

  datatype Option<+T> = None | Some(value: T) {

    /** The carried value, or `default` when there is none. */
    function GetOr(default: T): T {
      match this
      case Some(v) => v
      case None() => default
    }
  }
}
