/** The optional value used for "not set yet" fields and "not found" scans. */
module Wrappers {
  datatype Option<+T> = None | Some(value: T)
}
