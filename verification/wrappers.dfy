/** The optional values of the program: `null`/`undefined` in the
    client and an omitted query parameter on the server. */
module Wrappers {

  datatype Option<+T> = None | Some(value: T) {

    /** The value, or `default` when there is none (a parameter default). */
    function GetOr(default: T): T
    {
      match this
      case Some(v) => v
      case None => default
    }
  }
}
