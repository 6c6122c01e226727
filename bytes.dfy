/** Fixed-width unsigned integers and the little-endian byte encodings the validator
    reads (token balances in cell data) and writes (the output index in the creation hash). */
module Bytes {

  type byte = b: int | 0 <= b < 256

  const U64_LIMIT: nat := 0x1_0000_0000_0000_0000
  const U128_LIMIT: nat := 0x1_0000_0000_0000_0000_0000_0000_0000_0000

  type U32 = n: nat | n < 0x1_0000_0000
  type U64 = n: nat | n < 0x1_0000_0000_0000_0000
  type U128 = n: nat | n < 0x1_0000_0000_0000_0000_0000_0000_0000_0000

  /** `usize::max_value()` on the 64-bit target; the initial lower bound of an OTX range. */
  const USIZE_MAX: nat := 0xFFFF_FFFF_FFFF_FFFF

  /** A 32-byte digest (`Byte32` / `[u8; 32]`). */
  type Hash32 = s: seq<byte> | |s| == 32 witness seq(32, _ => 0)

  /** 256 to the power `width`: one past the largest value `width` bytes can hold. */
  function Pow256(width: nat): (p: nat)
    ensures p >= 1
  {
    if width == 0 then 1 else 256 * Pow256(width - 1)
  }

  lemma Pow256Widths()
    ensures Pow256(8) == U64_LIMIT
    ensures Pow256(16) == U128_LIMIT
  {
  }

  /** The unsigned integer whose little-endian encoding is `s` (`u128::from_le_bytes`). */
  function FromLE(s: seq<byte>): (n: nat)
    ensures n < Pow256(|s|)
  {
    if s == [] then 0 else s[0] + 256 * FromLE(s[1..])
  }

  /** The `width` low-order bytes of `n`, least significant first (`to_le_bytes`). */
  function ToLE(n: nat, width: nat): (s: seq<byte>)
    ensures |s| == width
  {
    if width == 0 then [] else [(n % 256) as byte] + ToLE(n / 256, width - 1)
  }

  /** Decoding then re-encoding gives back the same bytes. */
  lemma {:induction false} ToLEFromLE(s: seq<byte>)
    ensures ToLE(FromLE(s), |s|) == s
  {
    if s != [] {
      var rest := FromLE(s[1..]);
      SplitLowByte(s[0], rest);
      ToLEFromLE(s[1..]);
      assert s == [s[0]] + s[1..];
    }
  }

  /** The low byte and the remaining value of `low + 256 * high` are `low` and `high`. */
  lemma SplitLowByte(low: byte, high: nat)
    ensures (low + 256 * high) % 256 == low
    ensures (low + 256 * high) / 256 == high
  {
  }

  /** Encoding a value that fits in `width` bytes then decoding gives back the value. */
  lemma {:induction false} FromLEToLE(n: nat, width: nat)
    requires n < Pow256(width)
    ensures FromLE(ToLE(n, width)) == n
  {
    if width > 0 {
      var low, high := n % 256, n / 256;
      HighBytesFit(n, Pow256(width - 1));
      FromLEToLE(high, width - 1);
      var enc := ToLE(n, width);
      assert enc[0] == low && enc[1..] == ToLE(high, width - 1);
      assert FromLE(enc) == low + 256 * high;
    }
  }

  /** Dropping the low byte of a value below `256 * p` leaves a value below `p`. */
  lemma HighBytesFit(n: nat, p: nat)
    requires n < 256 * p
    ensures n / 256 < p
    ensures n == n % 256 + 256 * (n / 256)
  {
  }

  /** Two values that fit in `width` bytes have the same encoding only if they are equal. */
  lemma ToLEInjective(m: nat, n: nat, width: nat)
    requires m < Pow256(width) && n < Pow256(width)
    requires ToLE(m, width) == ToLE(n, width)
    ensures m == n
  {
    FromLEToLE(m, width);
    FromLEToLE(n, width);
  }
}
