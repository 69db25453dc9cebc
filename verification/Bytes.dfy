/** Octets between integer and bit-vector arithmetic, the bytes of a 32-bit word, and the two words of a 64-bit one. */
module Bytes {

  /** The conversion to unsigned char. */
  function ToByte(n: int): bv8 { (n % 256) as bv8 }

  lemma ByteRange(b: bv8)
    ensures 0 <= b as int < 256
  {
  }

  lemma SmallModulo(n: int)
    requires 0 <= n < 256
    ensures n % 256 == n
  {
  }

  lemma ThereAndBack(b: bv8)
    ensures (b as int) as bv8 == b
  {
  }

  lemma ToByteOfByte(b: bv8)
    ensures 0 <= b as int < 256 && ToByte(b as int) == b
  {
    ByteRange(b);
    SmallModulo(b as int);
    ThereAndBack(b);
  }

  lemma SmallToByte(n: nat)
    requires n < 256
    ensures (n as bv8) as nat == n
  {
    SmallModulo(n);
  }

  lemma ByteValue(n: int)
    ensures ToByte(n) as int == n % 256
  {
    SmallToByte(n % 256);
  }

  /** `(w >> 8*k) & 0xFF`. */
  function ByteOf(w: bv32, k: nat): bv8
    requires k < 4
  {
    if k == 0 then (w & 0xFF) as bv8
    else if k == 1 then ((w >> 8) & 0xFF) as bv8
    else if k == 2 then ((w >> 16) & 0xFF) as bv8
    else ((w >> 24) & 0xFF) as bv8
  }

  function Or(w: bv32, mask: bv32): bv32 { w | mask }

  function And(w: bv32, mask: bv32): bv32 { w & mask }

  lemma OrNothing(w: bv32)
    ensures Or(w, 0) == w
  {
  }

  function LowWord(d: bv64): bv32 { (d & 0xFFFF_FFFF) as bv32 }

  function HighWord(d: bv64): bv32 { (d >> 32) as bv32 }

  function Rejoined(high: bv32, low: bv32): bv64 { ((high as bv64) << 32) | (low as bv64) }

  lemma SplitRejoins(d: bv64)
    ensures Rejoined(HighWord(d), LowWord(d)) == d
  {
  }
}
