/** A value that may be Java's null or JavaScript's undefined. */
module Wrappers {
  datatype Option<+T> = None | Some(value: T)
}
