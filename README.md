# MAX30100 pulse-oximeter driver, modelled in Dafny

This project models the Arduino driver class for the Maxim MAX30100
pulse-oximetry sensor. The driver configures the chip through read-modify-write
sequences on its registers:

- LED pulse width and currents (`setLEDs`);
- sample rate (`setSPO2`);
- power-save and reset bits (`shutdown`, `startup`, `reset`);
- a fixed baseline configuration (`begin`).

It also reads the chip:

- the number of unread FIFO samples, from the two FIFO pointers (`getNumSamp`);
- the two identification registers (`getRevID`, `getPartID`);
- one infrared/red sample pair as two big-endian 16-bit values (`readSensor`).

The chip is an array of 256 register bytes, and a read returns the last value
written there. The class `Driver.Max30100` holds that array and the two cached
samples `IR` and `RED`, and its methods update them in place. The single-byte
bus helpers become an array read and an array write. The burst read copies an
abstract sequence of delivered bytes, at most `count` of them, into its
destination buffer.

Modules, in dependency order:

- `Options`: the `Option` datatype.
- `Registers` (src/MAX30100.h): the register map as a datatype, with the
  `Address` table, its inverse and the device address.
- `Settings` (src/MAX30100.h): the enums `PulseWidth`, `SampleRate` and
  `LedCurrent`, their bit encodings and decoders, the physical quantities
  named in the header's comments, and the defaults of `begin`.
- `BitFields` (src/MAX30100.cpp): the mask and shift formulas, the FIFO count
  and the big-endian word, each with a contract that says which result bits
  come from where.
- `RegisterFile`: each operation as a function from the register image before
  the call to the image after it, the lemmas about how the operations
  combine, and `Run`, the effect of any sequence of driver calls.
- `Driver`: the class. Each operation that changes registers ensures
  `regs[..] == RegisterFile.X(old(regs[..]), …)`. The bus helper `WriteByte`
  ensures a one-register update by sub-address. A ghost log `writes` records
  every register write as (sub-address, value), and each operation also
  states the exact writes it appends, in order.

`setSPO2` is modelled as the source writes it. It first writes the sample-rate
field into SPO2_CONFIG. It then reads MODE_CONFIG, puts `0b011` into its low
three bits and writes the result into SPO2_CONFIG too, not into MODE_CONFIG
(src/MAX30100.cpp:28). So the registers end up the same whatever sample rate
is passed (`RegisterFile.SetSpO2IgnoresSampleRate`). Bits 3-4 of the sample-rate
field come from MODE_CONFIG and bit 2 is cleared, so only even rate codes can
result. The pulse-width field reads 1600 us, whatever
`setLEDs` chose (`RegisterFile.SetSpO2Fields`). MODE_CONFIG does not change.
One consequence: no sequence of driver calls ever sets the MODE field of
MODE_CONFIG to SpO2 mode (`RegisterFile.RunNeverEntersSpO2Mode`).
Whether the authors meant this cannot be settled from the source
alone, so the model keeps this behaviour and the corrected variant is not
modelled.

Two points where the code could be read two ways; the model follows the code:

- The code computes the FIFO count as `abs(16 + wr - rd) % 16`, not as
  `(16 + wr - rd) mod 16`. The two agree whenever both pointers are below 16,
  which `BitFields.NumSamples` states. The chip's pointers are 4 bits wide.
- The code has no failure path for bus transactions, so the model has none.

## Model

| member | source | states |
|---|---|---|
| `Registers.Address` | src/MAX30100.h:8-20 | the register table: every named register lies at 0x00-0x17 or 0xFE-0xFF |
| `Registers.RegisterAt` | src/MAX30100.h:8-20 | a sub-address that decodes to a named register is that register's address |
| `Registers.AddressRoundTrip` | src/MAX30100.h:8-20 | decoding the address of any of the thirteen registers gives that register back |
| `Registers.AddressesDistinct` | src/MAX30100.h:8-20 | two registers have the same address exactly when they are the same register |
| `Registers.DeviceAddressIsSevenBit` | src/MAX30100.h:22 | the device address 0x57 is below 0x80 and survives the shift into an 8-bit bus address |
| `Settings.PulseWidthCode` | src/MAX30100.h:24-29 | every pulse-width code fits the two-bit LED_PW field (at most 3) |
| `Settings.PulseWidthOf` | src/MAX30100.h:24-29 | a field value decodes to a pulse width exactly when it is at most 3, and that pulse width encodes back to it |
| `Settings.PulseWidthMicros` | src/MAX30100.h:25-28 | each pulse width's duration from the header comments, between 200 and 1600 us |
| `Settings.PulseWidthRoundTrip` | src/MAX30100.h:24-29 | decoding an encoded pulse width gives it back, so the encoding is injective |
| `Settings.PulseWidthCodeOrder` | src/MAX30100.h:24-29 | pulse-width codes are ordered as the pulse durations in microseconds |
| `Settings.SampleRateCode` | src/MAX30100.h:31-40 | every sample-rate code fits the three-bit SPO2_SR field (at most 7) |
| `Settings.SampleRateOf` | src/MAX30100.h:31-40 | a field value decodes to a sample rate exactly when it is at most 7, and that rate encodes back to it |
| `Settings.SamplesPerSecond` | src/MAX30100.h:32-39 | each sample rate's samples per second from the header comments, between 50 and 1000 |
| `Settings.SampleRateRoundTrip` | src/MAX30100.h:31-40 | decoding an encoded sample rate gives it back |
| `Settings.SampleRateCodeOrder` | src/MAX30100.h:31-40 | sample-rate codes are ordered as the samples per second |
| `Settings.LedCurrentCode` | src/MAX30100.h:42-58 | every LED-current code fits a nibble (at most 14) |
| `Settings.LedCurrentOf` | src/MAX30100.h:42-58 | a nibble decodes to a current exactly when it is at most 14, and that current encodes back to it |
| `Settings.LedCurrentTenthsMilliamp` | src/MAX30100.h:43-57 | each LED current from the header comments in tenths of a mA, at most 50.0 mA, and zero only for i0 |
| `Settings.LedCurrentRoundTrip` | src/MAX30100.h:42-58 | decoding an encoded LED current gives it back |
| `Settings.LedCurrentCodeOrder` | src/MAX30100.h:42-58 | LED-current codes are ordered as the currents in tenths of a milliampere |
| `Settings.DefaultsAreExtremes` | src/MAX30100.h:75-77 | the default pulse width is the longest, the default current the highest, and only 50/s is below the default rate |
| `Settings.DefaultCodes` | src/MAX30100.h:75-77 | the defaults encode as 3, 14 and 1 |
| `BitFields.PulseWidthField` | src/MAX30100.cpp:16-18 | bits 2-7 of SpO2-config are kept; bits 0-1 become the pulse-width code |
| `BitFields.PulseWidthFieldKeepsUpperBits` | src/MAX30100.cpp:16-18 | each of bits 2-7 individually is unchanged by the pulse-width write |
| `BitFields.SampleRateField` | src/MAX30100.cpp:23-25 | bits 0-1 and 5-7 of SpO2-config are kept; bits 2-4 become the sample-rate code |
| `BitFields.LedConfigByte` | src/MAX30100.cpp:19 | the high nibble of LED-config is the red code and the low nibble the infrared code |
| `BitFields.LedConfigDecodes` | src/MAX30100.cpp:19 | both LED currents are recovered from the LED-config byte |
| `BitFields.SpO2FromMode` | src/MAX30100.cpp:26-28 | the byte written has mode-config's bits 3-7 and 0b011 in bits 0-2 |
| `BitFields.WithShutdown` | src/MAX30100.cpp:44-47 | bit 7 of mode-config is set and bits 0-6 are kept |
| `BitFields.ShutdownChangesOnlyBit7` | src/MAX30100.cpp:44-47 | bit by bit: bit 7 is set, each of bits 0-6 is unchanged |
| `BitFields.WithoutShutdown` | src/MAX30100.cpp:54-57 | bit 7 of mode-config is cleared and bits 0-6 are kept |
| `BitFields.StartupChangesOnlyBit7` | src/MAX30100.cpp:54-57 | bit by bit: bit 7 is clear, each of bits 0-6 is unchanged |
| `BitFields.WithReset` | src/MAX30100.cpp:49-52 | bit 6 of mode-config is set and the other seven bits are kept |
| `BitFields.ResetChangesOnlyBit6` | src/MAX30100.cpp:49-52 | bit by bit: bit 6 is set, each other bit is unchanged |
| `BitFields.PowerBitAlgebra` | src/MAX30100.cpp:44-57 | setting or clearing SHDN twice is the same as once; clearing after setting equals clearing, and restores a byte whose bit 7 was clear |
| `BitFields.BaselineSpO2` | src/MAX30100.cpp:70 | the `begin` SpO2 byte carries the pulse-width code in bits 0-1, the sample-rate code in bits 2-4 and zeros above |
| `BitFields.BaselineIsFieldWrites` | src/MAX30100.cpp:67-71 | the `begin` SpO2 byte is what the two field writers make of a zero register, in either order |
| `BitFields.NumSamples` | src/MAX30100.cpp:31-35 | the count is in 0..15, equals (wr - rd) mod 16 when both pointers are below 16, and is 0 when they are equal |
| `BitFields.NumSamplesExamples` | src/MAX30100.cpp:31-35 | pointer pairs (2, 14), (0, 0) and (15, 0) give 4, 0 and 15 |
| `BitFields.Word` | src/MAX30100.cpp:40-41 | the high byte of the sample is the first FIFO byte and the low byte the second |
| `BitFields.WordParts` | src/MAX30100.cpp:40-41 | the high and low bytes of the word, widened to 16 bits, are hi and lo |
| `BitFields.WordValue` | src/MAX30100.cpp:40-41 | the sample's numeric value is hi * 256 + lo |
| `BitFields.WordOfBytes` | src/MAX30100.cpp:40-41 | every 16-bit value is the word of its own high and low bytes |
| `BitFields.WordExample` | src/MAX30100.cpp:37-42 | bytes 01 02 03 04 decode to IR 0x0102 and RED 0x0304 |
| `RegisterFile.Put` | src/MAX30100.cpp:90-96 | a write sets the named register and no other |
| `RegisterFile.SetLeds` | src/MAX30100.cpp:15-20 | SpO2-config gets the pulse-width field, LED-config gets both currents, no other register changes |
| `RegisterFile.SetLedsFields` | src/MAX30100.cpp:15-20 | after `setLEDs` the upper six SpO2 bits are the old ones and the pulse width, red and infrared currents decode to the arguments |
| `RegisterFile.WriteSampleRate` | src/MAX30100.cpp:23-25 | the intermediate write changes only SpO2-config, to the sample-rate field |
| `RegisterFile.WriteSampleRateFields` | src/MAX30100.cpp:23-25 | after the intermediate write, bits 2-4 decode to `sr` and the other bits are the old ones |
| `RegisterFile.WriteModeIntoSpO2` | src/MAX30100.cpp:26-28 | the second write puts the mode-derived byte into SpO2-config and changes nothing else |
| `RegisterFile.SetSpO2` | src/MAX30100.cpp:22-29 | SpO2-config ends as (MODE_CONFIG & 0xF8) \| 0x03, mode-config is unchanged, no other register changes |
| `RegisterFile.SetSpO2AsUpdates` | src/MAX30100.cpp:23-28 | the two in-place updates of SpO2-config, the second computed from mode-config, give `SetSpO2` |
| `RegisterFile.SetSpO2IgnoresSampleRate` | src/MAX30100.cpp:22-29 | any two sample rates give the same registers |
| `RegisterFile.SetSpO2Fields` | src/MAX30100.cpp:26-28 | after `setSPO2`, bits 3-7 of SpO2-config are mode-config's, bit 2 is clear and the pulse width decodes to 1600 us |
| `RegisterFile.SetSpO2DropsRequestedRate` | src/MAX30100.cpp:22-29 | from all-zero registers, `setSPO2(sr1000)` leaves the rate field at 50/s |
| `RegisterFile.Shutdown` | src/MAX30100.cpp:44-47 | only mode-config changes, and it gains bit 7 |
| `RegisterFile.ShutdownIdempotent` | src/MAX30100.cpp:44-47 | `shutdown` twice equals `shutdown` once, and the chip is then in power-save |
| `RegisterFile.Startup` | src/MAX30100.cpp:54-57 | only mode-config changes, and it loses bit 7 |
| `RegisterFile.StartupAfterShutdown` | src/MAX30100.cpp:44-57 | `startup` after `shutdown` equals `startup`: the original image with bit 7 of mode-config cleared |
| `RegisterFile.ShutdownStartupRestores` | src/MAX30100.cpp:44-57 | from an active chip, `shutdown` then `startup` restores every register |
| `RegisterFile.Reset` | src/MAX30100.cpp:49-52 | only mode-config changes, and it gains bit 6 |
| `RegisterFile.Begin` | src/MAX30100.cpp:67-71 | mode-config becomes 0x02, LED-config the infrared code and SpO2-config the baseline byte, whatever they held; nothing else changes |
| `RegisterFile.BeginIgnoresPriorContents` | src/MAX30100.cpp:67-71 | images that differ only in the three written registers are equal after `begin` |
| `RegisterFile.BeginLedCurrents` | src/MAX30100.cpp:69 | `begin` leaves the red current at zero and sets the infrared current |
| `RegisterFile.BeginDefaults` | src/MAX30100.h:75-77 | with default arguments, `begin` writes 0x02, 0x0E and 0x07 |
| `RegisterFile.Run` | src/MAX30100.cpp:15-71 | after any sequence of driver calls, every register other than mode-config, SpO2-config and LED-config holds what it held before |
| `RegisterFile.RunNeverEntersSpO2Mode` | src/MAX30100.cpp:22-29 | no sequence of driver calls sets the MODE field of mode-config to SpO2 (0b011) unless it held that value at the start |
| `Driver.Received` | src/MAX30100.cpp:38-39 | byte k of the sample buffer is byte k of the delivered bytes followed by the buffer's zeros |
| `Driver.Max30100.constructor` | src/MAX30100.h:62-65 | a new driver has IR = 0 and RED = 0, has written nothing, and uses the given chip's registers without touching them |
| `Driver.Max30100.WriteByte` | src/MAX30100.cpp:90-96 | the register at the sub-address takes the value, every other register keeps its own, and the write is appended to the log |
| `Driver.Max30100.ReadByte` | src/MAX30100.cpp:98-107 | the value returned is the register's current content |
| `Driver.Max30100.ReadBytes` | src/MAX30100.cpp:109-121 | the delivered bytes fill the start of the buffer in order and the rest keeps its old contents; the sub-address chooses no bytes |
| `Driver.Max30100.SetLeds` | src/MAX30100.cpp:15-20 | the registers become `RegisterFile.SetLeds` of the old registers, by writing the pulse-width byte to SpO2-config and then the LED byte to LED-config |
| `Driver.Max30100.SetSpO2` | src/MAX30100.cpp:22-29 | the registers become `RegisterFile.SetSpO2` of the old registers, by two writes to SpO2-config: first the sample-rate byte from the old SpO2-config, then the byte from the old mode-config |
| `Driver.Max30100.GetNumSamp` | src/MAX30100.cpp:31-35 | the result is `NumSamples` of the write and read pointers, in 0..15 |
| `Driver.Max30100.ReadSensor` | src/MAX30100.cpp:37-42 | IR = b0 * 256 + b1 and RED = b2 * 256 + b3, undelivered bytes count as 0, no register changes |
| `Driver.Max30100.Shutdown` | src/MAX30100.cpp:44-47 | the registers become `RegisterFile.Shutdown` of the old registers, by one write of mode-config with SHDN set |
| `Driver.Max30100.Reset` | src/MAX30100.cpp:49-52 | the registers become `RegisterFile.Reset` of the old registers, by one write of mode-config with RESET set |
| `Driver.Max30100.Startup` | src/MAX30100.cpp:54-57 | the registers become `RegisterFile.Startup` of the old registers, by one write of mode-config with SHDN cleared |
| `Driver.Max30100.GetRevId` | src/MAX30100.cpp:59-61 | the result is the byte at 0xFE, and nothing changes |
| `Driver.Max30100.GetPartId` | src/MAX30100.cpp:63-65 | the result is the byte at 0xFF, and nothing changes |
| `Driver.Max30100.Begin` | src/MAX30100.cpp:67-71 | the registers become `RegisterFile.Begin` of the old registers by exactly three writes (mode, LED, SpO2 config, in that order); the defaults are pw1600, i50 and sr100 |

## Left out

- `printRegisters` (src/MAX30100.cpp:73-87): it only prints the thirteen registers over the serial port.
- The Wire transport (`beginTransmission`, `write`, `endTransmission`, `requestFrom`, `available`, `read`, repeated start) is a foreign library. Its effect is modelled as register-array access, plus the delivered-byte sequence for burst reads.
- The device-address argument of the three bus helpers is dropped. The model has one chip, and it sits at `Registers.DEVICE_ADDRESS`.
- Driver.Max30100.ReadBytes: the sub-address argument (`FifoData` in `readSensor`) is kept but does not choose the bytes. The bytes come from the abstract delivered sequence, because the chip's FIFO output is not modelled.
- Bus failures, timing and concurrent access are not modelled. The code has no error path, retry or lock, so a failed transaction is not propagated.
- The chip's own behaviour beyond "a read returns the last value written" is left out. That covers FIFO pointers advancing on reads, the reset bit clearing itself, what the chip does with its interrupt and temperature registers, and its part ID 0x11.
- Driver.Max30100.ReadBytes: the source's `uint8_t` index is an unbounded counter here. It never exceeds `count`, which is at most 255, so it cannot wrap.
- Driver.Max30100.ReadBytes: the bus is assumed to deliver at most `count` bytes, as `requestFrom(address, count)` asks. The source would write past `dest` if more were available.
