/** The optional values of the source (`T | null`, `T | undefined`, an absent property). */
module Wrappers {

  datatype Option<+T> = None | Some(value: T) {

    /** The value, or `d` when absent. */
    function GetOr(d: T): T {
      match this
      case Some(v) => v
      case None => d
    }
  }
}
