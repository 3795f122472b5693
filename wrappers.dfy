/** The optional values of the source's records (`targetNet?`, `hoursRequired?`, `hoursPerDay?`)
    and the outcome of parsing a number that may fail. */
module Wrappers {

  datatype Option<+T> = None | Some(value: T) {

    /** The wrapped value, or `default` when there is none. */
    function GetOr(default: T): T {
      match this
      case Some(v) => v
      case None => default
    }
  }
}
