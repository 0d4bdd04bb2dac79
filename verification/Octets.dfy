/** What files and streams are made of. */
module Octets {
  type Byte = b: int | 0 <= b < 256
}
