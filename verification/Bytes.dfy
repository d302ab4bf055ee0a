/** Bytes, as files and percent-encoding handle them. */
module Bytes {
  newtype byte = x: int | 0 <= x < 256
}
