/** The optional-value wrapper used throughout the model. `None` stands for a
    JavaScript `null`/`undefined` (or, for numbers, `NaN`) where the source
    keeps one. */
module Wrappers {

  datatype Option<+T> = None | Some(value: T) {

    /** Returns the value held in Some, or `default` for None. */
    function GetOr(default: T): T {
      match this
      case Some(v) => v
      case None => default
    }
  }
}
