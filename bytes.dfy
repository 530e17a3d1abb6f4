/** An 8-bit unsigned value, as C's `unsigned char` and the bytes of a datagram. */
module Bytes {

  type Byte = b: int | 0 <= b < 256
}
