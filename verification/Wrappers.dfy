/** A value that may be missing: a null column, a map lookup, an absent header. */
module Wrappers {
  datatype Option<+T> = None | Some(value: T)
}
