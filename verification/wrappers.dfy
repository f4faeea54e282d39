/** The optional value standing in for a nullable pointer. */
module Wrappers {

  /** The conventional Some/None datatype: None is a null pointer. */
  datatype Option<+T> = None | Some(value: T)
}
