/** Octets. */
module Bytes {
  type Byte = x: int | 0 <= x < 256
}
