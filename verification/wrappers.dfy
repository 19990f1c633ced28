/** The optional result used wherever the C++ front end returns a possibly null pointer. */
module Wrappers {
  datatype Option<+T> = None | Some(value: T)
}
