/** Types and small functions shared by all modules. */
module Common {

  type byte = x: nat | x < 256

  type u16 = x: nat | x < 0x1_0000

  datatype Option<+T> = None | Some(value: T)

  /** The 16-bit number in network byte order at offset `p`. */
  function Be16(bytes: seq<byte>, p: nat): nat
    requires p + 2 <= |bytes|
  {
    (bytes[p] as nat) * 256 + bytes[p + 1] as nat
  }
}
