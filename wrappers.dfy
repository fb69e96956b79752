/** The optional value used for operations that may have nothing to return. */
module Wrappers {

  datatype Option<T> = None | Some(value: T)
}
