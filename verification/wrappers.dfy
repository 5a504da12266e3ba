/** The JavaScript null of an optional field. */
module Wrappers {
  datatype Option<T> = None | Some(value: T)
}
