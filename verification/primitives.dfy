/** Machine integers, Rust's `as` casts between them, and the fixed-width hash types
    (`H256`, `Address`, `H2048`) with their panicking `from_slice` constructors.
 */
module Primitives {
  import opened Wrappers

  const TWO_16: int := 0x1_0000
  const TWO_32: int := 0x1_0000_0000
  const TWO_31: int := 0x8000_0000
  const TWO_63: int := 0x8000_0000_0000_0000
  const TWO_64: int := 0x1_0000_0000_0000_0000

  type byte = x: int | 0 <= x < 0x100
  type uint16 = x: int | 0 <= x < 0x1_0000
  type uint32 = x: int | 0 <= x < 0x1_0000_0000
  type uint64 = x: int | 0 <= x < 0x1_0000_0000_0000_0000
  type int32 = x: int | -0x8000_0000 <= x < 0x8000_0000
  type int64 = x: int | -0x8000_0000_0000_0000 <= x < 0x8000_0000_0000_0000
  /** `usize` on the 64-bit targets the node runs on */
  type usize = uint64
  type U256 = x: int | 0 <= x < 0x1_0000_0000_0000_0000_0000_0000_0000_0000_0000_0000_0000_0000_0000_0000_0000_0000

  /** `x as u16` for an `i32`: keeps the low 16 bits (two's complement truncation). */
  function I32AsU16(x: int32): (r: uint16)
    ensures (x - r) % TWO_16 == 0
    ensures 0 <= x < TWO_16 ==> r == x
  {
    x % TWO_16
  }

  /** `x as u32` for an `i64`: keeps the low 32 bits. */
  function I64AsU32(x: int64): (r: uint32)
    ensures (x - r) % TWO_32 == 0
    ensures 0 <= x < TWO_32 ==> r == x
  {
    x % TWO_32
  }

  /** `x as u64` for an `i64`: reinterprets the bits, so negatives wrap to the top half. */
  function I64AsU64(x: int64): (r: uint64)
    ensures x >= 0 ==> r == x
    ensures x < 0 ==> r == x + TWO_64
  {
    x % TWO_64
  }

  /** `x as usize` for an `i32` on a 64-bit target: sign-extending to `i64` keeps the value,
      so this is the reinterpretation `I64AsU64`. */
  function I32AsUsize(x: int32): (r: usize)
    ensures x >= 0 ==> r == x
    ensures x < 0 ==> r == x + TWO_64
  {
    I64AsU64(x)
  }

  /** `x as i64` for a `u64`: reinterprets the bits, so the top half becomes negative. */
  function U64AsI64(x: uint64): (r: int64)
    ensures (x - r) % TWO_64 == 0
  {
    if x < TWO_63 then x else x - TWO_64
  }

  /** `x as i32` for a `usize`: keeps the low 32 bits and reads them as a signed number. */
  function UsizeAsI32(x: usize): (r: int32)
    ensures (x - r) % TWO_32 == 0
  {
    var low := x % TWO_32;
    if low < TWO_31 then low else low - TWO_32
  }

  /** An `i32` widened to `usize` and narrowed back is unchanged. */
  lemma I32UsizeRoundTrip(x: int32)
    ensures UsizeAsI32(I32AsUsize(x)) == x
  {
    if x < 0 {
      assert I32AsUsize(x) % TWO_32 == x + TWO_32;
    }
  }

  /** The two reinterpreting casts between `u64` and `i64` are inverse to each other. */
  lemma U64I64RoundTrip(x: uint64, y: int64)
    ensures I64AsU64(U64AsI64(x)) == x
    ensures U64AsI64(I64AsU64(y)) == y
  {
  }

  /** The hash types are byte strings of fixed width. */
  type H256 = s: seq<byte> | |s| == 32 witness seq(32, _ => 0)
  type Address = s: seq<byte> | |s| == 20 witness seq(20, _ => 0)
  type H2048 = s: seq<byte> | |s| == 256 witness seq(256, _ => 0)

  /** `H256::from_slice`: asserts that the slice is exactly 32 bytes long. */
  function H256FromSlice(s: seq<byte>): (r: Fatal<H256>)
    ensures r.Value? <==> |s| == 32
    ensures r.Value? ==> r.value == s
  {
    if |s| == 32 then Value(s) else Panic(SliceLength(32, |s|))
  }

  /** `Address::from_slice`: asserts that the slice is exactly 20 bytes long. */
  function AddressFromSlice(s: seq<byte>): (r: Fatal<Address>)
    ensures r.Value? <==> |s| == 20
    ensures r.Value? ==> r.value == s
  {
    if |s| == 20 then Value(s) else Panic(SliceLength(20, |s|))
  }

  /** `H2048::from_slice`: asserts that the slice is exactly 256 bytes long. */
  function H2048FromSlice(s: seq<byte>): (r: Fatal<H2048>)
    ensures r.Value? <==> |s| == 256
    ensures r.Value? ==> r.value == s
  {
    if |s| == 256 then Value(s) else Panic(SliceLength(256, |s|))
  }

  /** `BigDecimal::to_u64` on an integral decimal: `None` unless it fits in a `u64`. */
  function BigDecimalToU64(x: int): (r: Option<uint64>)
    ensures r.Some? <==> 0 <= x < TWO_64
    ensures r.Some? ==> r.value == x
  {
    if 0 <= x < TWO_64 then Some(x) else None
  }
}
