/** A value that may be absent: an attribute an event does not carry, or a search that finds
    no matching entry. */
module Optional {

  datatype Option<T> = None | Some(value: T) {

    /** The value when present, `fallback` when absent. */
    function ValueOr(fallback: T): T {
      match this
      case Some(v) => v
      case None => fallback
    }
  }
}
