/** Small failure-compatible wrapper shared by the model. */
module Wrappers {

  /** Swift's `Optional`: `None` stands for `nil`. */
  datatype Option<+T> = None | Some(value: T)
}
