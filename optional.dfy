/** The `Option<T>` values of the source. */
module Optional {

  datatype Option<+T> = None | Some(value: T) {

    /** `unwrap_or(default)` */
    function GetOr(default: T): T {
      match this
      case Some(v) => v
      case None => default
    }
  }
}
