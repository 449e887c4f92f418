// Shared value types: byte strings, identifiers, machine-integer bounds and the
// saturating arithmetic the wallet relies on.
module Prelude {
  datatype Option<+T> = None | Some(value: T)

  datatype Result<+T, +E> = Ok(value: T) | Err(error: E)

  type Byte = x: int | 0 <= x < 0x100
  type U32 = x: int | 0 <= x < 0x1_0000_0000
  type U64 = x: int | 0 <= x < 0x1_0000_0000_0000_0000

  const U32_MAX: int := 0xFFFF_FFFF
  const U64_MAX: int := 0xFFFF_FFFF_FFFF_FFFF
  const I64_MAX: int := 0x7FFF_FFFF_FFFF_FFFF

  // 21,000,000 ZEC in zatoshis.
  const MAX_MONEY: int := 2_100_000_000_000_000

  // A non-negative zatoshi amount of at most MAX_MONEY.
  type Zatoshis = x: int | 0 <= x <= 2_100_000_000_000_000

  // A transaction id or digest in internal byte order.
  type Bytes32 = s: seq<Byte> | |s| == 32 witness seq(32, _ => 0)
  type TxId = Bytes32

  function Min(a: int, b: int): int { if a <= b then a else b }

  function Max(a: int, b: int): int { if a >= b then a else b }

  function SaturatingAdd(a: U64, b: U64): U64 { Min(a + b, U64_MAX) }

  function SaturatingSub(a: U64, b: U64): U64 { Max(a - b, 0) }

  // Zatoshis::try_from(v).unwrap_or(Zatoshis::zero())
  function ZatoshisOrZero(v: U64): Zatoshis { if v <= MAX_MONEY then v else 0 }
}
