/** The optional-value datatype used throughout the model. In the connector an
    absent value stands for a JavaScript `undefined`, for a promise that never
    resolves, or for a handler that throws before it produces anything. */
module Wrappers {

  datatype Option<+T> = None | Some(value: T) {

    /** The wrapped value, or `default` when there is none. */
    function GetOr(default: T): T {
      match this
      case Some(v) => v
      case None => default
    }
  }
}
