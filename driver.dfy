/**
 The driver class of src/MAX30100.cpp. The chip is an array of 256 register
 bytes that the driver reads and writes in place; the two bus helpers for
 single bytes become an array read and an array write, and the burst read
 copies a sequence of delivered bytes into the destination buffer. A ghost
 log records every register write, in order, so that each operation's
 contract fixes not only the final registers but the writes that produced them.
 */
module Driver {
  import opened Registers
  import opened Settings
  import opened BitFields
  import opened RegisterFile

  /** Byte `k` of the zeroed four-byte sample buffer after the delivered bytes are stored. */
  function Received(delivered: seq<Byte>, k: nat): (b: Byte)
    requires |delivered| <= 4 && k < 4
    ensures b == (delivered + [0, 0, 0, 0])[k]
  {
    if k < |delivered| then delivered[k] else 0
  }

  class Max30100 {
    /** The chip's registers; the driver always talks to the same chip. */
    const regs: array<Byte>
    /** Last infrared reflectance sample. */
    var IR: bv16
    /** Last red reflectance sample. */
    var RED: bv16
    /** Every register write so far, as (sub-address, value), oldest first. */
    ghost var writes: seq<(Byte, Byte)>

    ghost predicate Valid()
    {
      regs.Length == 256
    }

    /** The driver for the chip whose registers are `chip`; no register is touched. */
    constructor (chip: array<Byte>)
      requires chip.Length == 256
      ensures Valid() && regs == chip
      ensures IR == 0 && RED == 0
      ensures writes == []
    {
      regs := chip;
      IR, RED := 0, 0;
      writes := [];
    }

    /** `I2CwriteByte`: one register write. */
    method WriteByte(subAddress: Byte, data: Byte)
      requires Valid()
      modifies regs, this`writes
      ensures regs[..] == old(regs[..])[subAddress as int := data]
      ensures writes == old(writes) + [(subAddress, data)]
    {
      regs[subAddress as int] := data;
      writes := writes + [(subAddress, data)];
    }

    /** `I2CreadByte`: one register read; the chip returns the last value written. */
    method ReadByte(subAddress: Byte) returns (data: Byte)
      requires Valid()
      ensures data == regs[subAddress as int]
    {
      data := regs[subAddress as int];
    }

    /**
     `I2CreadBytes`: asks for `count` bytes starting at `subAddress` and stores
     every byte the bus delivers, in order, from the start of `dest`; the rest
     of `dest` keeps its contents. `delivered` stands for what the bus makes
     available; `subAddress` only selects where the chip reads from.
     */
    method ReadBytes(subAddress: Byte, dest: array<Byte>, count: Byte, delivered: seq<Byte>)
      requires |delivered| <= count as int <= dest.Length
      modifies dest
      ensures dest[..] == delivered + old(dest[|delivered|..])
    {
      var i := 0;
      while i < |delivered|
        invariant 0 <= i <= |delivered|
        invariant dest[..i] == delivered[..i]
        invariant dest[i..] == old(dest[i..])
      {
        dest[i] := delivered[i];
        i := i + 1;
      }
    }

    /** `setLEDs(pw, red, ir)`. */
    method SetLeds(pw: PulseWidth, red: LedCurrent, ir: LedCurrent)
      requires Valid()
      modifies regs, this`writes
      ensures regs[..] == RegisterFile.SetLeds(old(regs[..]), pw, red, ir)
      ensures writes == old(writes) + [
        (Address(SpO2Config), PulseWidthField(old(regs[Index(SpO2Config)]), pw)),
        (Address(LedConfig), LedConfigByte(red, ir))]
    {
      var reg := ReadByte(Address(SpO2Config));
      reg := reg & 0xFC;
      WriteByte(Address(SpO2Config), reg | PulseWidthCode(pw));
      WriteByte(Address(LedConfig), (LedCurrentCode(red) << 4) | LedCurrentCode(ir));
    }

    /** `setSPO2(sr)`, with both writes going to SpO2-config as in the source. */
    method SetSpO2(sr: SampleRate)
      requires Valid()
      modifies regs, this`writes
      ensures regs[..] == RegisterFile.SetSpO2(old(regs[..]), sr)
      ensures writes == old(writes) + [
        (Address(SpO2Config), SampleRateField(old(regs[Index(SpO2Config)]), sr)),
        (Address(SpO2Config), SpO2FromMode(old(regs[Index(ModeConfig)])))]
    {
      SetSpO2AsUpdates(regs[..], sr);
      var reg := ReadByte(Address(SpO2Config));
      reg := reg & 0xE3;
      WriteByte(Address(SpO2Config), reg | (SampleRateCode(sr) << 2));
      reg := ReadByte(Address(ModeConfig));
      reg := reg & 0xF8;
      WriteByte(Address(SpO2Config), reg | 0x03);
    }

    /** `getNumSamp()`: unread samples in the FIFO. */
    method GetNumSamp() returns (n: int)
      requires Valid()
      ensures n == NumSamples(regs[Index(FifoWrPtr)], regs[Index(FifoRdPtr)])
      ensures 0 <= n < 16
    {
      var wrPtr := ReadByte(Address(FifoWrPtr));
      var rdPtr := ReadByte(Address(FifoRdPtr));
      var d := 16 + wrPtr as int - rdPtr as int;
      n := (if d < 0 then -d else d) % 16;
    }

    /**
     `readSensor()`: a four-byte burst read from FIFO-data into a zeroed
     buffer, decoded as two big-endian 16-bit samples.
     */
    method ReadSensor(delivered: seq<Byte>)
      requires Valid()
      requires |delivered| <= 4
      modifies this`IR, this`RED
      ensures IR == Word(Received(delivered, 0), Received(delivered, 1))
      ensures RED == Word(Received(delivered, 2), Received(delivered, 3))
      ensures IR as int == Received(delivered, 0) as int * 256 + Received(delivered, 1) as int
      ensures RED as int == Received(delivered, 2) as int * 256 + Received(delivered, 3) as int
      ensures regs[..] == old(regs[..])
    {
      var temp := new Byte[4] [0, 0, 0, 0];
      ReadBytes(Address(FifoData), temp, 4, delivered);
      assert temp[..] == delivered + [0, 0, 0, 0][|delivered|..];
      IR := Word(temp[0], temp[1]);
      RED := Word(temp[2], temp[3]);
      WordValue(temp[0], temp[1]);
      WordValue(temp[2], temp[3]);
    }

    /** `shutdown()`: enter power-save mode. */
    method Shutdown()
      requires Valid()
      modifies regs, this`writes
      ensures regs[..] == RegisterFile.Shutdown(old(regs[..]))
      ensures writes == old(writes) + [(Address(ModeConfig), WithShutdown(old(regs[Index(ModeConfig)])))]
    {
      var reg := ReadByte(Address(ModeConfig));
      WriteByte(Address(ModeConfig), reg | 0x80);
    }

    /** `reset()`: request a reset. */
    method Reset()
      requires Valid()
      modifies regs, this`writes
      ensures regs[..] == RegisterFile.Reset(old(regs[..]))
      ensures writes == old(writes) + [(Address(ModeConfig), WithReset(old(regs[Index(ModeConfig)])))]
    {
      var reg := ReadByte(Address(ModeConfig));
      WriteByte(Address(ModeConfig), reg | 0x40);
    }

    /** `startup()`: leave power-save mode. */
    method Startup()
      requires Valid()
      modifies regs, this`writes
      ensures regs[..] == RegisterFile.Startup(old(regs[..]))
      ensures writes == old(writes) + [(Address(ModeConfig), WithoutShutdown(old(regs[Index(ModeConfig)])))]
    {
      var reg := ReadByte(Address(ModeConfig));
      WriteByte(Address(ModeConfig), reg & 0x7F);
    }

    /** `getRevID()`. */
    method GetRevId() returns (id: int)
      requires Valid()
      ensures id == regs[Index(RevId)] as int
      ensures 0 <= id < 256
    {
      var b := ReadByte(Address(RevId));
      id := b as int;
    }

    /** `getPartID()`. */
    method GetPartId() returns (id: int)
      requires Valid()
      ensures id == regs[Index(PartId)] as int
      ensures 0 <= id < 256
    {
      var b := ReadByte(Address(PartId));
      id := b as int;
    }

    /** `begin(pw, ir, sr)`, with the header's default arguments: three writes, nothing read. */
    method Begin(pw: PulseWidth := DEFAULT_PULSE_WIDTH, ir: LedCurrent := DEFAULT_IR_CURRENT,
                 sr: SampleRate := DEFAULT_SAMPLE_RATE)
      requires Valid()
      modifies regs, this`writes
      ensures regs[..] == RegisterFile.Begin(old(regs[..]), pw, ir, sr)
      ensures writes == old(writes) + [
        (Address(ModeConfig), HEART_RATE_MODE),
        (Address(LedConfig), LedCurrentCode(ir)),
        (Address(SpO2Config), BaselineSpO2(sr, pw))]
    {
      WriteByte(Address(ModeConfig), 0x02);
      WriteByte(Address(LedConfig), LedCurrentCode(ir));
      WriteByte(Address(SpO2Config), (SampleRateCode(sr) << 2) | PulseWidthCode(pw));
    }
  }
}
