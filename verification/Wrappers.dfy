/** The optional value used for JSON members that may be absent and for C++ calls that may throw. */
module Wrappers {
  datatype Option<+T> = None | Some(value: T)
}
