/** The optional-value datatype used throughout the model (JavaScript's `null`/`undefined`/`NaN`). */
module Wrappers {
  datatype Option<+T> = None | Some(value: T)
}
