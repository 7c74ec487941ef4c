/** The absent-or-present value the report pipeline uses for every step that
    can fail: a source that cannot be loaded, a column that cannot be found,
    a table that cannot be built. */
module Optional {

  datatype Option<+T> = None | Some(value: T) {

    /** The wrapped value, or `default` when there is none. */
    function GetOr(default: T): T {
      match this
      case Some(v) => v
      case None => default
    }
  }
}
