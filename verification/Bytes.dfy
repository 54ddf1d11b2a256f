/** Machine integers and the bit fields the video code extracts from them. */
module Bytes {
  type uint8 = x: int | 0 <= x < 0x100
  type uint16 = x: int | 0 <= x < 0x1_0000
  type uint32 = x: int | 0 <= x < 0x1_0000_0000

  /** A colour number, or a shade: two bits. */
  type Colour = x: int | 0 <= x < 4

  datatype Option<+T> = None | Some(value: T)

  function Pow2(k: nat): (p: nat)
    ensures p > 0
  {
    if k == 0 then 1 else 2 * Pow2(k - 1)
  }

  /** `(v >> k) & 1`. */
  function BitOf(v: uint8, k: nat): (b: int)
    ensures 0 <= b <= 1
  {
    v / Pow2(k) % 2
  }

  /** The two bit planes of a tile row, combined at one bit position. */
  function ColourNumber(lo: uint8, hi: uint8, bit: nat): Colour {
    2 * BitOf(hi, bit) + BitOf(lo, bit)
  }

  /** A palette register maps colour number `c` to bits 2c+1..2c. */
  function Shade(palette: uint8, c: Colour): Colour {
    palette / Pow2(2 * c) % 4
  }

  function Zeros(n: nat): (z: seq<uint8>)
    ensures |z| == n && forall k :: 0 <= k < n ==> z[k] == 0
  {
    seq(n, _ => 0)
  }
}
