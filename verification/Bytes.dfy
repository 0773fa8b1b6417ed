module Bytes {
  newtype uint8 = x: int | 0 <= x < 0x100
}
