/** Bytes, byte strings and the two result types used throughout. */
module Bytes {

  type byte = x: int | 0 <= x < 256

  type bytes = seq<byte>

  datatype Option<+T> = None | Some(value: T)

  datatype Result<+T, +E> = Ok(value: T) | Err(error: E)

  function Max(a: int, b: int): int {
    if a < b then b else a
  }

  /** A run of `n` zero bytes. */
  function Zeros(n: nat): bytes {
    seq(n, _ => 0)
  }

  /** The concatenation of a list of byte strings. */
  function Join(parts: seq<bytes>): bytes {
    if parts == [] then [] else Join(parts[..|parts| - 1]) + parts[|parts| - 1]
  }
}
