/** The optional value used for settings that may be missing and for nullable state. */
module Wrappers {
  datatype Option<+T> = None | Some(value: T)
}
