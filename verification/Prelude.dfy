/** Types and sequence facts shared by every part of the model. */
module Prelude {

  datatype Option<+T> = None | Some(value: T)

  /** One octet of a message, a file or a key. */
  newtype u8 = x: int | 0 <= x < 0x100

  type Bytes = seq<u8>

  function Min(a: nat, b: nat): nat {
    if a <= b then a else b
  }

  /** Concatenation of the pieces of a stream. */
  function Flatten<T>(pieces: seq<seq<T>>): seq<T> {
    if pieces == [] then [] else pieces[0] + Flatten(pieces[1..])
  }
}
