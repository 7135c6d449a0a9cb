/** Optional values: a field or result that JavaScript leaves `undefined` or `null`. */
module Options {

  /** A value that may be absent. */
  datatype Option<+T> = None | Some(value: T) {

    /** `x ?? default`: the value, or `default` when absent. */
    function GetOr(default: T): T {
      match this
      case Some(v) => v
      case None => default
    }
  }
}
