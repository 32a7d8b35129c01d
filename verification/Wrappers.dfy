/** Result types shared by the whole project. */
module Wrappers {
  /** A value that may be missing: a C pointer that may be NULL. */
  datatype Option<+T> = None | Some(value: T)
}
