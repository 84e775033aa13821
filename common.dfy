/** The optional-value type used wherever the source uses `null`/`undefined` for "absent". */
module Common {

  datatype Option<+T> = None | Some(value: T) {
    function GetOr(default: T): T {
      match this
      case Some(v) => v
      case None => default
    }
  }
}
