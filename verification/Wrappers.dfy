/** Option, used for the nullable strings and pointers of the daemon. */
module Wrappers {
  datatype Option<+T> = None | Some(value: T)
}
