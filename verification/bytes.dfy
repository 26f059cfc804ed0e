/** Octets, as handed to and returned by the cryptographic provider. */
module Bytes {

  newtype Byte = x: int | 0 <= x < 256
}
