/** The optional values of the other modules. */
module Wrappers {

  datatype Option<T> = None | Some(value: T)
}
