/** The optional-value datatype shared by the client and the server model. */
module Wrappers {

  /** JavaScript's `null` / `NaN` outcomes are modelled as `None`. */
  datatype Option<+T> = None | Some(value: T) {

    /** Returns the value in Some, or the default when None. */
    function GetOr(default: T): T {
      match this
      case Some(v) => v
      case None => default
    }
  }
}
