/** The optional value used for the host code's NULL and "not found" results. */
module Wrappers {

  datatype Option<+T> = None | Some(value: T)
}
