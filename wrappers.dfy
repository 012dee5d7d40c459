/** The optional value returned by operations that may do nothing. */
module Wrappers {

  datatype Option<+T> = None | Some(value: T)
}
