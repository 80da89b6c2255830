/** A value that may be missing: a pointer that may be NULL, or the result of a search. */
module Wrappers {
  datatype Option<+T> = None | Some(value: T)
}
