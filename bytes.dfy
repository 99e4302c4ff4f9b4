/** Octets, as held by a Node `Buffer` or a canvas `Uint8ClampedArray`. */
module Bytes {
  newtype byte = b: int | 0 <= b < 256
}
