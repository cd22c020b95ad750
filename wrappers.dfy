// Small helper types shared by the model.
module Wrappers {
  /** A value that may be absent (Python's `None`). */
  datatype Option<T> = None | Some(value: T)
}
