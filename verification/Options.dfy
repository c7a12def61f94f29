/** A value that may be absent: Python's `None`, SQL's `NULL`, a missing Redis key. */
module Options {
  datatype Option<+T> = None | Some(value: T) {
    function GetOr(default: T): T {
      match this
      case Some(v) => v
      case None => default
    }
  }
}
