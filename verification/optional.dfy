/** Swift's `Optional`: a value that may be absent (`nil`). */
module Optional {

  datatype Option<+T> = None | Some(value: T) {

    /** Swift's `??`: the wrapped value, or `default` when absent. */
    function GetOr(default: T): T {
      match this
      case Some(v) => v
      case None => default
    }
  }
}
