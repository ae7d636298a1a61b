/** The optional value used throughout the model for rows that may be absent. */
module Wrappers {
  datatype Option<+T> = None | Some(value: T)
}
