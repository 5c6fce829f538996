/** The optional value used for Go's "value, ok" and nil-able results. */
module Wrappers {

  datatype Option<+T> = None | Some(value: T) {

    /** The held value; `default` stands in for a missing one. */
    function GetOr(default: T): T {
      if Some? then value else default
    }
  }
}
