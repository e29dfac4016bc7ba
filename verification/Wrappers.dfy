/** The optional value that several of the models return. */
module Wrappers {
  datatype Option<+T> = None | Some(value: T)
}
