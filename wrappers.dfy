/** An optional value: stands for a C pointer that may be NULL and for a read that may fail. */
module Wrappers {
  datatype Option<+T> = None | Some(value: T)
}
