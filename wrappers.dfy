/** The optional value used for Swift's `T?` throughout the model. */
module Wrappers {

  datatype Option<+T> = None | Some(value: T) {

    /** Swift's `??`: the wrapped value, or `default` when there is none. */
    function GetOr(default: T): T {
      match this
      case Some(v) => v
      case None => default
    }
  }
}
