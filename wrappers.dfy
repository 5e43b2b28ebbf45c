/** Go's nil-able pointers and error values become options. */
module Wrappers {

  datatype Option<T> = None | Some(value: T)
}
