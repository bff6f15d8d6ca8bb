/** Option type standing in for a Python call that either yields a value or raises. */
module Wrappers {
  datatype Option<+T> = None | Some(value: T)
}
