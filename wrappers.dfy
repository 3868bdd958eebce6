/** The optional-value type used wherever the script reads a field that may be
    missing (`undefined` or `null`) or gets `NaN` back from a conversion. */
module Wrappers {

  datatype Option<+T> = None | Some(value: T) {

    /** The value, or `default` when missing: JavaScript's `x ?? default`. */
    function GetOr(default: T): T {
      match this
      case Some(v) => v
      case None => default
    }
  }
}
