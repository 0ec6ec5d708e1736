/** Octets and byte streams. */
module Bytes {
  type byte = b: nat | b < 256
}
