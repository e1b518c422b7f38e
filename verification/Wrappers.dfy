/** Datatypes that several components share. */
module Wrappers {

  datatype Option<+T> = None | Some(value: T)

  newtype byte = x: int | 0 <= x < 256
  type bytes = seq<byte>
}
