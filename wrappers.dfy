/** Optional values: the model of `TOptional<T>`, of a nullable pointer and of a
    "bool found" out-parameter paired with a value. */
module Wrappers {

  datatype Option<+T> = None | Some(value: T) {

    /** The wrapped value, or `default` when there is none. */
    function GetOr(default: T): T {
      match this
      case Some(v) => v
      case None => default
    }
  }
}
