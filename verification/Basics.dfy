/**
 A value that may be missing, and a machine byte.
 */
module Basics {
  datatype Option<T> = None | Some(value: T)

  type byte = x: nat | x < 256
}
