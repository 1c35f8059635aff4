/** Bytes and the small wrapper types shared by the model. */
module Bytes {
  type byte = x: int | 0 <= x < 256

  datatype Option<+T> = None | Some(value: T)
}
