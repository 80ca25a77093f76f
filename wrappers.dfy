/** The optional value shared by the key handling and the settings reader. */
module Wrappers {
  datatype Option<T> = None | Some(value: T)
}
