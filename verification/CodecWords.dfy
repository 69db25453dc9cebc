/** The words exchanged with the codec controller: the fields of the control word, and 64-bit payloads whose
    bytes are left-justified on the way out and right-justified on the way back. All arithmetic is that of the
    unsigned 32- and 64-bit types. */
module CodecWords {
  import opened Bytes

  type Length = n: bv32 | 1 <= n <= 8 witness 1

  type RegisterAddress = a: bv32 | a <= 0xFFFF

  // ---- the control word ----------------------------------------------------------------------------

  /** Address from bit 0, length - 1 from bit 16, and the read bit. */
  function ControlWord(addr: bv32, n: Length, read: bool): bv32 {
    (if read then 0x8_0000 else 0) | ((n - 1) << 16) | addr
  }

  function WithStart(w: bv32): bv32 { w | 0x100_0000 }

  function AddressField(w: bv32): bv32 { w & 0xFFFF }

  function LengthField(w: bv32): bv32 { ((w >> 16) & 7) + 1 }

  predicate ReadField(w: bv32) { w & 0x8_0000 != 0 }

  predicate StartField(w: bv32) { w & 0x100_0000 != 0 }

  predicate ResetField(w: bv32) { w & 0x200_0000 != 0 }

  /** A 16-bit register address, a length and a direction are recovered from their control word, which neither
      starts nor resets. */
  lemma ControlWordDecodes(addr: RegisterAddress, n: Length, read: bool)
    ensures AddressField(ControlWord(addr, n, read)) == addr
    ensures LengthField(ControlWord(addr, n, read)) == n
    ensures ReadField(ControlWord(addr, n, read)) == read
    ensures !StartField(ControlWord(addr, n, read))
    ensures !ResetField(ControlWord(addr, n, read))
  {
  }

  /** The fields by the numbers of their bits: the address in bits 0 to 15, the length less one in bits 16 to 18, the
      direction in bit 19; START is bit 24 and nothing else. */
  lemma ControlWordByNumber(addr: RegisterAddress, n: Length, read: bool)
    ensures var w := ControlWord(addr, n, read);
            && w & 0xFFFF == addr && (w >> 16) & 7 == n - 1 && (w & 0x8_0000 != 0) == read && w & 0xFFF0_0000 == 0
            && WithStart(w) - w == 0x100_0000
  {
  }

  /** The start bit disturbs no other field. */
  lemma StartLeavesFields(w: bv32)
    ensures AddressField(WithStart(w)) == AddressField(w)
    ensures LengthField(WithStart(w)) == LengthField(w)
    ensures ReadField(WithStart(w)) == ReadField(w)
    ensures ResetField(WithStart(w)) == ResetField(w)
    ensures StartField(WithStart(w))
  {
  }

  // ---- payloads ------------------------------------------------------------------------------------

  /** `data << (8 * (8 - nbytes))`. */
  function LeftJustified(data: bv64, n: Length): bv64 { data << (8 * (8 - n)) }

  /** What a device keeps that takes the top `n` bytes of the payload. */
  function TopBytes(payload: bv64, n: Length): bv64 { payload >> (8 * (8 - n)) }

  /** `(1 << 8 * nbytes) - 1`; all ones for eight bytes. */
  function Mask(n: Length): bv64 { if n == 8 then 0xFFFF_FFFF_FFFF_FFFF else (1 << (8 * n)) - 1 }

  function Truncated(data: bv64, n: Length): bv64 { data & Mask(n) }

  /** A right-justified answer of `n` bytes; the bytes above it are whatever the device leaves there. */
  function Answer(kept: bv64, n: Length, rest: bv64): bv64 { (kept & Mask(n)) | (rest & !Mask(n)) }

  /** The low bytes are the remainder modulo 2^(8n): below it, and short of the value by a multiple of it. */
  lemma TruncatedIsRemainder(data: bv64, n: Length)
    requires n < 8
    ensures Truncated(data, n) < 1 << (8 * n)
    ensures data == ((data >> (8 * n)) << (8 * n)) + Truncated(data, n)
  {
  }

  /** The payload carries the low `n` bytes of the data at its top and zeros below them. */
  lemma PayloadIsTopAligned(data: bv64, n: Length)
    ensures LeftJustified(data, n) >> (8 * (8 - n)) == Truncated(data, n)
    ensures n < 8 ==> LeftJustified(data, n) << (8 * n) == 0
  {
  }

  /** Split into two words, left-justified data comes back from the device's top bytes modulo 2^(8n). */
  lemma PayloadKeepsData(data: bv64, n: Length)
    ensures var payload := LeftJustified(data, n);
            TopBytes(Rejoined(HighWord(payload), LowWord(payload)), n) == Truncated(data, n)
  {
    SplitRejoins(LeftJustified(data, n));
  }

  /** Masking the joined answer words drops whatever lay above the `n` bytes. */
  lemma AnswerUnmasks(kept: bv64, n: Length, rest: bv64)
    ensures var answer := Answer(kept, n, rest);
            Truncated(Rejoined(HighWord(answer), LowWord(answer)), n) == Truncated(kept, n)
  {
  }
}
