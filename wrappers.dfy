/** The optional value shared by the other modules. */
module Wrappers {

  /** A value that may be absent, as Go's `nil` error or a nil pointer. */
  datatype Option<+T> = None | Some(value: T)
}
