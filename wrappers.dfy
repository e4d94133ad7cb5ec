/** The optional-value type shared by the modules of this model. */
module Wrappers {

  /** A value that may be absent: JavaScript's `undefined`, or a call that threw. */
  datatype Option<+T> = None | Some(value: T) {

    /** The wrapped value, or `default` when absent (`x || default` on an optional string field). */
    function GetOr(default: T): T
    {
      match this
      case Some(v) => v
      case None => default
    }
  }
}
