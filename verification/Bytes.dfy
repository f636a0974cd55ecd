/** Bytes and C strings. */
module Bytes {
  newtype byte = x: int | 0 <= x < 256

  /** A C string is ended by the first NUL, so it holds none. */
  predicate NulFree(s: seq<byte>) {
    0 !in s
  }

  type CStr = s: seq<byte> | NulFree(s) witness []
}
