/** Go's optional values: a `*int` that may be nil, a map lookup that may miss. */
module Optional {

  datatype Option<+T> = None | Some(value: T) {

    /** The value when present, otherwise `default`. */
    function GetOr(default: T): T {
      match this
      case Some(v) => v
      case None => default
    }
  }
}
