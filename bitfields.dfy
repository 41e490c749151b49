/**
 The mask-and-shift formulas of src/MAX30100.cpp, as functions on register
 bytes. Each contract says which bits of the result come from the old
 register value and which from the new setting; `Bit` and `MaskBit` state
 the same at the level of single bits.
 */
module BitFields {
  import opened Options
  import opened Registers
  import opened Settings

  /** The byte with only bit `i` set. */
  function MaskBit(i: nat): (m: Byte)
    requires i < 8
  {
    [0x01, 0x02, 0x04, 0x08, 0x10, 0x20, 0x40, 0x80][i]
  }

  /** Bit `i` of `x` is set. */
  predicate Bit(x: Byte, i: nat)
    requires i < 8
  {
    x & MaskBit(i) != 0
  }

  /** Two bytes that agree under a mask agree on every bit the mask selects. */
  lemma MaskedBitsAgree(x: Byte, y: Byte, m: Byte, i: nat)
    requires i < 8 && Bit(m, i)
    requires x & m == y & m
    ensures Bit(x, i) == Bit(y, i)
  {
    assert MaskBit(i) & m == MaskBit(i) by {
      assert i == 0 || i == 1 || i == 2 || i == 3 || i == 4 || i == 5 || i == 6 || i == 7;
    }
    assert x & MaskBit(i) == (x & m) & MaskBit(i);
    assert y & MaskBit(i) == (y & m) & MaskBit(i);
  }

  /** `setLEDs`: the SpO2-config byte with its LED_PW field (bits 0-1) replaced. */
  function PulseWidthField(reg: Byte, pw: PulseWidth): (r: Byte)
    ensures r & 0xFC == reg & 0xFC
    ensures r & 0x03 == PulseWidthCode(pw)
  {
    (reg & 0xFC) | PulseWidthCode(pw)
  }

  /** `setSPO2`, first write: the SpO2-config byte with its SPO2_SR field (bits 2-4) replaced. */
  function SampleRateField(reg: Byte, sr: SampleRate): (r: Byte)
    ensures r & 0xE3 == reg & 0xE3
    ensures (r >> 2) & 0x07 == SampleRateCode(sr)
  {
    (reg & 0xE3) | (SampleRateCode(sr) << 2)
  }

  /** `setLEDs`: the LED-config byte, red current in the high nibble, infrared in the low. */
  function LedConfigByte(red: LedCurrent, ir: LedCurrent): (r: Byte)
    ensures r >> 4 == LedCurrentCode(red)
    ensures r & 0x0F == LedCurrentCode(ir)
  {
    (LedCurrentCode(red) << 4) | LedCurrentCode(ir)
  }

  /** `setSPO2`, second write: the mode-config byte with its MODE field (bits 0-2) set to 0b011. */
  function SpO2FromMode(mode: Byte): (r: Byte)
    ensures r & 0xF8 == mode & 0xF8
    ensures r & 0x07 == 0x03
  {
    (mode & 0xF8) | 0x03
  }

  /** `shutdown`: the mode-config byte with SHDN (bit 7) set. */
  function WithShutdown(mode: Byte): (r: Byte)
    ensures r & 0x7F == mode & 0x7F
    ensures r & 0x80 == 0x80
  {
    mode | 0x80
  }

  /** `startup`: the mode-config byte with SHDN (bit 7) cleared. */
  function WithoutShutdown(mode: Byte): (r: Byte)
    ensures r & 0x7F == mode & 0x7F
    ensures r & 0x80 == 0
  {
    mode & 0x7F
  }

  /** `reset`: the mode-config byte with RESET (bit 6) set. */
  function WithReset(mode: Byte): (r: Byte)
    ensures r & 0xBF == mode & 0xBF
    ensures r & 0x40 == 0x40
  {
    mode | 0x40
  }

  /** `begin`: heart-rate-only mode, written to mode-config. */
  const HEART_RATE_MODE: Byte := 0x02

  /** `begin`: the SpO2-config byte built from nothing but the two settings. */
  function BaselineSpO2(sr: SampleRate, pw: PulseWidth): (r: Byte)
    ensures r & 0x03 == PulseWidthCode(pw)
    ensures (r >> 2) & 0x07 == SampleRateCode(sr)
    ensures r & 0xE0 == 0
  {
    (SampleRateCode(sr) << 2) | PulseWidthCode(pw)
  }

  /** `shutdown` sets bit 7 and leaves bits 0-6 as they were. */
  lemma ShutdownChangesOnlyBit7(mode: Byte)
    ensures Bit(WithShutdown(mode), 7)
    ensures forall i :: 0 <= i < 7 ==> Bit(WithShutdown(mode), i) == Bit(mode, i)
  {
    forall i | 0 <= i < 7 ensures Bit(WithShutdown(mode), i) == Bit(mode, i) {
      MaskedBitsAgree(WithShutdown(mode), mode, 0x7F, i);
    }
  }

  /** `startup` clears bit 7 and leaves bits 0-6 as they were. */
  lemma StartupChangesOnlyBit7(mode: Byte)
    ensures !Bit(WithoutShutdown(mode), 7)
    ensures forall i :: 0 <= i < 7 ==> Bit(WithoutShutdown(mode), i) == Bit(mode, i)
  {
    forall i | 0 <= i < 7 ensures Bit(WithoutShutdown(mode), i) == Bit(mode, i) {
      MaskedBitsAgree(WithoutShutdown(mode), mode, 0x7F, i);
    }
  }

  /** `reset` sets bit 6 and leaves the other seven bits as they were. */
  lemma ResetChangesOnlyBit6(mode: Byte)
    ensures Bit(WithReset(mode), 6)
    ensures forall i :: 0 <= i < 8 && i != 6 ==> Bit(WithReset(mode), i) == Bit(mode, i)
  {
    forall i | 0 <= i < 8 && i != 6 ensures Bit(WithReset(mode), i) == Bit(mode, i) {
      MaskedBitsAgree(WithReset(mode), mode, 0xBF, i);
    }
  }

  /** `setLEDs` leaves bits 2-7 of SpO2-config as they were. */
  lemma PulseWidthFieldKeepsUpperBits(reg: Byte, pw: PulseWidth)
    ensures forall i :: 2 <= i < 8 ==> Bit(PulseWidthField(reg, pw), i) == Bit(reg, i)
  {
    forall i | 2 <= i < 8 ensures Bit(PulseWidthField(reg, pw), i) == Bit(reg, i) {
      MaskedBitsAgree(PulseWidthField(reg, pw), reg, 0xFC, i);
    }
  }

  /** Setting and clearing SHDN are idempotent, and clearing undoes setting. */
  lemma PowerBitAlgebra(mode: Byte)
    ensures WithShutdown(WithShutdown(mode)) == WithShutdown(mode)
    ensures WithoutShutdown(WithoutShutdown(mode)) == WithoutShutdown(mode)
    ensures WithoutShutdown(WithShutdown(mode)) == WithoutShutdown(mode)
    ensures mode & 0x80 == 0 ==> WithoutShutdown(WithShutdown(mode)) == mode
  {
  }

  /** Both LED currents can be read back from the LED-config byte. */
  lemma LedConfigDecodes(red: LedCurrent, ir: LedCurrent)
    ensures LedCurrentOf(LedConfigByte(red, ir) >> 4) == Some(red)
    ensures LedCurrentOf(LedConfigByte(red, ir) & 0x0F) == Some(ir)
  {
    LedCurrentRoundTrip(red);
    LedCurrentRoundTrip(ir);
  }

  /** The `begin` byte is what the two field writers make of an all-zero register. */
  lemma BaselineIsFieldWrites(sr: SampleRate, pw: PulseWidth)
    ensures BaselineSpO2(sr, pw) == PulseWidthField(SampleRateField(0, sr), pw)
    ensures BaselineSpO2(sr, pw) == SampleRateField(PulseWidthField(0, pw), sr)
  {
  }

  /**
   `getNumSamp`: unread samples in the 16-slot FIFO, `abs(16 + wr - rd) % 16`
   evaluated on C `int`s. C's `%` truncates towards zero, which agrees with
   Dafny's Euclidean `%` here because `abs` makes the left operand non-negative.
   */
  function NumSamples(wr: Byte, rd: Byte): (n: int)
    ensures 0 <= n < 16
    ensures wr as int < 16 && rd as int < 16 ==> n == (wr as int - rd as int) % 16
    ensures wr == rd ==> n == 0
  {
    var d := 16 + wr as int - rd as int;
    (if d < 0 then -d else d) % 16
  }

  /** Three pointer pairs: a wrapped FIFO, an empty one and one short of full. */
  lemma NumSamplesExamples()
    ensures NumSamples(2, 14) == 4
    ensures NumSamples(0, 0) == 0
    ensures NumSamples(15, 0) == 15
  {
  }

  lemma SplitWord(w: bv16)
    ensures w as int == (w >> 8) as int * 256 + (w & 0xFF) as int
  {
  }

  lemma WidenByte(b: Byte)
    ensures (b as bv16) as int == b as int
  {
  }

  /** `readSensor`: a 16-bit sample from two FIFO bytes, high byte first. */
  function Word(hi: Byte, lo: Byte): (w: bv16)
    ensures HighByte(w) == hi && LowByte(w) == lo
  {
    (hi as bv16 << 8) | lo as bv16
  }

  /** The two bytes of a sample, as 16-bit values. */
  lemma WordParts(hi: Byte, lo: Byte)
    ensures Word(hi, lo) >> 8 == hi as bv16 && Word(hi, lo) & 0xFF == lo as bv16
  {
  }

  /** The sample's numeric value is hi * 256 + lo. */
  lemma WordValue(hi: Byte, lo: Byte)
    ensures Word(hi, lo) as int == hi as int * 256 + lo as int
  {
    var w := Word(hi, lo);
    WordParts(hi, lo);
    SplitWord(w);
    var h, l := w >> 8, w & 0xFF;
    assert h as int == hi as int by { WidenByte(hi); }
    assert l as int == lo as int by { WidenByte(lo); }
  }

  function HighByte(w: bv16): Byte
  {
    (w >> 8) as Byte
  }

  function LowByte(w: bv16): Byte
  {
    (w & 0xFF) as Byte
  }

  /** Every 16-bit value is the word of its own two bytes. */
  lemma WordOfBytes(w: bv16)
    ensures Word(HighByte(w), LowByte(w)) == w
  {
  }

  lemma WordExample()
    ensures Word(0x01, 0x02) == 0x0102 && Word(0x03, 0x04) == 0x0304
  {
  }
}
