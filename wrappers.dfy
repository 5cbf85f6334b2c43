/** The optional value used throughout the model for a cell that may be
    missing (pandas' NaN / NaT) and for a computed value that is NaN. */
module Wrappers {

  datatype Option<+T> = None | Some(value: T) {

    /** The value, or `default` when there is none. */
    function GetOr(default: T): T {
      match this
      case Some(v) => v
      case None => default
    }
  }
}
