/** Fixed-width integer types of the C sources, and an optional value standing for a nullable pointer. */
module Types {
  type uint8 = x: int | 0 <= x < 0x100
  type uint16 = x: int | 0 <= x < 0x1_0000
  type uint32 = x: int | 0 <= x < 0x1_0000_0000
  type uint64 = x: int | 0 <= x < 0x1_0000_0000_0000_0000
  type int8 = x: int | -0x80 <= x < 0x80

  datatype Option<+T> = None | Some(value: T)
}
