/** The optional value used for the source's `None` and missing entries. */
module Wrappers {
  datatype Option<+T> = None | Some(value: T)
}
