/** A value that may be missing: a JSON key that was not sent, a field psutil could not read. */
module Wrappers {
  datatype Option<+T> = None | Some(value: T) {
    /** The value, or `default` when it is missing (Python's `d.get(k, default)`). */
    function GetOr(default: T): T {
      match this
      case Some(v) => v
      case None => default
    }
  }
}
