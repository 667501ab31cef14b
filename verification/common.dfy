/** Small shared vocabulary: the optional value used wherever the source has
    `undefined`, `null` or an optional argument. */
module Common {

  datatype Option<+T> = None | Some(value: T) {

    /** The value, or `default` when absent (JavaScript's `x ?? default`
        for a value that is never `null`). */
    function GetOr(default: T): T {
      match this
      case Some(v) => v
      case None => default
    }
  }
}
