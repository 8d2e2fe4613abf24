/** The optional value used where the C++ code has a pointer that may be null. */
module Wrappers {
  datatype Option<+T> = None | Some(value: T)
}
