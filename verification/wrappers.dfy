/** The optional value used wherever the source reads a dictionary with `.get`
    or returns `None`. */
module Wrappers {

  datatype Option<+T> = None | Some(value: T) {

    /** The value inside `Some`, or `default` when there is none. */
    function GetOr(default: T): T {
      match this
      case Some(v) => v
      case None => default
    }
  }
}
