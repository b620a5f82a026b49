/** The optional value used for a request body that may be missing. */
module Wrappers {

  datatype Option<+T> = None | Some(value: T)
}
