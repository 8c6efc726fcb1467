/** An optional value with a default, used across the model. */
module Wrappers {

  /** A value that may be absent; `None` stands for a missing dictionary key
      or a `None` the source reads with a default. */
  datatype Option<+T> = None | Some(value: T) {

    /** The wrapped value, or `default` when absent (Python's `d.get(k, default)`). */
    function GetOr(default: T): T {
      match this
      case Some(v) => v
      case None => default
    }
  }
}
