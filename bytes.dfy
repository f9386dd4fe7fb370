/** Octets, the elements of Foundation's `Data`. */
module Bytes {

  type byte = x: int | 0 <= x < 256

  /** `n` zero bytes: the witness for the fixed-length byte strings (digests, keys, nonces, tags). */
  function Zeros(n: nat): (r: seq<byte>)
    ensures |r| == n
  {
    seq(n, _ => 0)
  }
}
