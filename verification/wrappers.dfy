/** The optional value used wherever a read or a decoding can fail. */
module Wrappers {
  datatype Option<T> = None | Some(value: T)
}
