/**
 The register map and bus address of the MAX30100 (src/MAX30100.h, lines 7-22).
 The header names each register with a `#define`; here the names form a
 datatype and `Address` is the one table that maps them to their 8-bit
 sub-addresses, with `RegisterAt` as its inverse.
 */
module Registers {
  import opened Options

  /** A register value or sub-address: the source's `uint8_t`. */
  type Byte = bv8

  /** The thirteen registers the driver names. */
  datatype Register =
    | IntStatus   // which interrupts are tripped
    | IntEnable   // which interrupts are active
    | FifoWrPtr   // where the chip is writing samples
    | OvrflowCtr  // number of lost samples
    | FifoRdPtr   // where to read samples from
    | FifoData    // sample output
    | ModeConfig  // control register: shutdown, reset, mode
    | SpO2Config  // oximetry settings: sample rate, pulse width
    | LedConfig   // red and infrared LED currents
    | TempIntg    // temperature, whole part
    | TempFrac    // temperature, fraction
    | RevId       // part revision
    | PartId      // part identifier

  /** The sub-address of each register: all lie in 0x00-0x17 or 0xFE-0xFF. */
  function Address(r: Register): (a: Byte)
    ensures a <= 0x17 || 0xFE <= a
  {
    match r
    case IntStatus => 0x00
    case IntEnable => 0x01
    case FifoWrPtr => 0x02
    case OvrflowCtr => 0x03
    case FifoRdPtr => 0x04
    case FifoData => 0x05
    case ModeConfig => 0x06
    case SpO2Config => 0x07
    case LedConfig => 0x09
    case TempIntg => 0x16
    case TempFrac => 0x17
    case RevId => 0xFE
    case PartId => 0xFF
  }

  /** The named register at sub-address `a`, if there is one. */
  function RegisterAt(a: Byte): (r: Option<Register>)
    ensures r.Some? ==> Address(r.value) == a
  {
    if a == 0x00 then Some(IntStatus)
    else if a == 0x01 then Some(IntEnable)
    else if a == 0x02 then Some(FifoWrPtr)
    else if a == 0x03 then Some(OvrflowCtr)
    else if a == 0x04 then Some(FifoRdPtr)
    else if a == 0x05 then Some(FifoData)
    else if a == 0x06 then Some(ModeConfig)
    else if a == 0x07 then Some(SpO2Config)
    else if a == 0x09 then Some(LedConfig)
    else if a == 0x16 then Some(TempIntg)
    else if a == 0x17 then Some(TempFrac)
    else if a == 0xFE then Some(RevId)
    else if a == 0xFF then Some(PartId)
    else None
  }

  /** Looking up the address of a register gives that register back. */
  lemma AddressRoundTrip(r: Register)
    ensures RegisterAt(Address(r)) == Some(r)
  {
    match r
    case IntStatus =>
    case IntEnable =>
    case FifoWrPtr =>
    case OvrflowCtr =>
    case FifoRdPtr =>
    case FifoData =>
    case ModeConfig =>
    case SpO2Config =>
    case LedConfig =>
    case TempIntg =>
    case TempFrac =>
    case RevId =>
    case PartId =>
  }

  /** The thirteen addresses are pairwise distinct. */
  lemma AddressesDistinct(r1: Register, r2: Register)
    ensures Address(r1) == Address(r2) <==> r1 == r2
  {
    AddressRoundTrip(r1);
    AddressRoundTrip(r2);
  }

  /** The 7-bit bus address of the chip (the 8-bit address 0xAE shifted right once). */
  const DEVICE_ADDRESS: Byte := 0x57

  /** The device address fits the 7 address bits of a bus transaction. */
  lemma DeviceAddressIsSevenBit()
    ensures DEVICE_ADDRESS < 0x80
    ensures (DEVICE_ADDRESS << 1) >> 1 == DEVICE_ADDRESS
  {
  }
}
