/** The optional-value datatype shared by every module of the model. */
module Wrappers {

  /** `None` plays the role of JavaScript's `undefined` where a lookup or a parse can fail. */
  datatype Option<+T> = None | Some(value: T) {
    function GetOr(default: T): T {
      match this
      case Some(v) => v
      case None => default
    }
  }
}
