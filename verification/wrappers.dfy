/** The optional-value datatype used throughout the model for Python's `None`-or-value. */
module Wrappers {

  /** Either no value (`None`) or exactly one value. */
  datatype Option<+T> = None | Some(value: T)
}
