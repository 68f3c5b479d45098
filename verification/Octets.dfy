/** Bytes as the sources handle them. */
module Octets {
  newtype byte = b: int | 0 <= b < 256
  type Bytes = seq<byte>
}
