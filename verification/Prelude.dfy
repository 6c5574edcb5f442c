/** Types and machine-word bounds shared by every module. */
module Prelude {

  datatype Option<+T> = None | Some(value: T)

  datatype Result<+T, +E> = Ok(value: T) | Err(error: E)

  const U32_MAX: nat := 0xFFFF_FFFF
  const U64_MAX: nat := 0xFFFF_FFFF_FFFF_FFFF
  const UUID_VALUES: nat := 0x1_0000_0000_0000_0000_0000_0000_0000_0000

  type U64 = n: nat | n <= U64_MAX

  /** A 16-byte identifier, represented by the value of its bytes read big-endian.
      `Bytes.OrderOfBytesIsOrderOfValues` shows that this keeps the order of the bytes. */
  type Uuid = n: nat | n < UUID_VALUES
}
