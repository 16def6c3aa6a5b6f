/** A value that may be absent: JavaScript's `undefined`/`null` for a property or a lookup. */
module Optional {

  datatype Option<T> = None | Some(value: T) {

    /** `x || fallback` for an optional value. */
    function GetOr(fallback: T): T {
      match this
      case Some(v) => v
      case None => fallback
    }
  }
}
