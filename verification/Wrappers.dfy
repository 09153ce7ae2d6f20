/** The type shared by all models for a value that may be absent. */
module Wrappers {
  datatype Option<+T> = None | Some(value: T)
}
