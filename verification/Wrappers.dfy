/** A value that may not be there. */
module Wrappers {

  datatype Option<+T> = None | Some(value: T)
}
