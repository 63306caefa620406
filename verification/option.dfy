/** An optional value: a Python dictionary key that may be absent, a lookup
    that may miss, a language tag that may not name a supported language. */
module Optional {

  datatype Option<+T> = None | Some(value: T) {

    /** The value, or `default` when there is none (Python's `dict.get(key, default)`). */
    function GetOr(default: T): T {
      match this
      case Some(v) => v
      case None => default
    }
  }
}
