/** The octets carried by every channel of the model. */
module Bytes {
  type Byte = b: int | 0 <= b < 256
}
