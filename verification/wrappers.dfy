/** Small shared datatypes: JavaScript's `null`/`undefined` and thrown errors, and raw bytes. */
module Wrappers {

  /** A value that may be absent (`null` or `undefined` in the source). */
  datatype Option<+T> = None | Some(value: T) {

    /** The value, or a default when absent. */
    function GetOr(default: T): T {
      match this
      case Some(v) => v
      case None => default
    }
  }

  /** The outcome of an operation that either produces a value or throws with a message. */
  datatype Result<+T> = Ok(value: T) | Err(message: string)

  /** An octet, as held by a Node `Buffer` or a browser `Uint8Array`. */
  newtype byte = x: int | 0 <= x < 256

  type Bytes = seq<byte>

  /** Total length in bytes of a list of buffers. */
  function TotalLength(chunks: seq<Bytes>): nat {
    if chunks == [] then 0 else TotalLength(chunks[..|chunks| - 1]) + |chunks[|chunks| - 1]|
  }
}
