/** Shared value types. */
module Options {

  /** A value that may be absent: a nil pointer, an unset field, a missing entry. */
  datatype Option<+T> = None | Some(value: T) {

    function GetOr(default: T): T {
      match this
      case Some(v) => v
      case None => default
    }
  }
}
