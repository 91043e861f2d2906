/** The optional-value datatype the model uses for TypeScript's optional
    properties (`description?`, `phone?`) and for the keys of a `Partial<T>`. */
module Wrappers {

  /** `None` is an absent (undefined) value, `Some(v)` a present one. */
  datatype Option<+T> = None | Some(value: T) {

    /** The present value, or `default` when absent. */
    function GetOr(default: T): T {
      match this
      case Some(v) => v
      case None => default
    }
  }
}
