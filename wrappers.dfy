/** The usual optional value: `undefined` versus a present value in the dashboard code. */
module Wrappers {

  datatype Option<+T> = None | Some(value: T) {

    /** The present value, or `default` when absent (the `x || 0` and `found ? found.amount : 0` idioms). */
    function GetOr(default: T): T {
      match this
      case Some(v) => v
      case None => default
    }
  }
}
