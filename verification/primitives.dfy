/** Machine-level value types shared by the tunnel, the relay and the database
    bridges. */
module Primitives {

  /** An octet, as in Rust's `u8`. */
  type byte = b: int | 0 <= b < 0x100

  type Bytes = seq<byte>

  /** A TCP port, as in Rust's `u16`. */
  type Port = p: int | 0 <= p < 0x1_0000

}
