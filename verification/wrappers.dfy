/** `Option` and `Result`, used throughout the model. */
module Wrappers {

  /** A value that may be absent (Python's None). */
  datatype Option<+T> = None | Some(value: T) {

    /** The encapsulated value, or `default` when absent. */
    function GetOr(default: T): T {
      match this
      case Some(v) => v
      case None => default
    }
  }

  /** Outcome of a conversion or filter step: a value, or the signal that the
      feature must be dropped for the current mapping (the `DropElem`
      exception of the classification engine). */
  datatype Result<+T> = Ok(value: T) | Drop
}
