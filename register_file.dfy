/**
 What each driver operation does to the chip's 256 registers, as functions
 from the register image before the call to the image after it. The chip is
 taken to return, on a read, the last value written.
 Each function follows the reads and writes of its operation in
 src/MAX30100.cpp in order; the driver's methods are proved to produce
 exactly these images.
 */
module RegisterFile {
  import opened Options
  import opened Registers
  import opened Settings
  import opened BitFields

  /** The contents of the chip's 256 byte-wide registers. */
  type RegisterImage = s: seq<Byte> | |s| == 256 witness seq(256, _ => 0)

  /** The position of a named register in the image. */
  function Index(r: Register): (i: nat)
    ensures i < 256
  {
    Address(r) as int
  }

  function Get(s: RegisterImage, r: Register): Byte
  {
    s[Index(r)]
  }

  /** One register write: `I2CwriteByte`. */
  function Put(s: RegisterImage, r: Register, v: Byte): (t: RegisterImage)
    ensures Get(t, r) == v
    ensures SameExcept(s, t, {Index(r)})
  {
    s[Index(r) := v]
  }

  /** `s` and `t` agree on every register outside `changed`. */
  predicate SameExcept(s: RegisterImage, t: RegisterImage, changed: set<nat>)
  {
    forall a :: 0 <= a < 256 && a !in changed ==> s[a] == t[a]
  }

  /** `setLEDs(pw, red, ir)`. */
  function SetLeds(s: RegisterImage, pw: PulseWidth, red: LedCurrent, ir: LedCurrent): (t: RegisterImage)
    ensures Get(t, SpO2Config) == PulseWidthField(Get(s, SpO2Config), pw)
    ensures Get(t, LedConfig) == LedConfigByte(red, ir)
    ensures SameExcept(s, t, {Index(SpO2Config), Index(LedConfig)})
  {
    var spo2 := Put(s, SpO2Config, PulseWidthField(Get(s, SpO2Config), pw));
    Put(spo2, LedConfig, LedConfigByte(red, ir))
  }

  /** `setSPO2`, lines 23-25: the sample-rate field written into SpO2-config. */
  function WriteSampleRate(s: RegisterImage, sr: SampleRate): (t: RegisterImage)
    ensures Get(t, SpO2Config) == SampleRateField(Get(s, SpO2Config), sr)
    ensures SameExcept(s, t, {Index(SpO2Config)})
  {
    Put(s, SpO2Config, SampleRateField(Get(s, SpO2Config), sr))
  }

  /** `setSPO2`, lines 26-28: mode-config with MODE = 0b011, written into SpO2-config. */
  function WriteModeIntoSpO2(s: RegisterImage): (t: RegisterImage)
    ensures Get(t, SpO2Config) == SpO2FromMode(Get(s, ModeConfig))
    ensures SameExcept(s, t, {Index(SpO2Config)})
  {
    Put(s, SpO2Config, SpO2FromMode(Get(s, ModeConfig)))
  }

  /**
   `setSPO2(sr)` as written: both writes go to SpO2-config, so the second one
   replaces the first and mode-config is only read.
   */
  function SetSpO2(s: RegisterImage, sr: SampleRate): (t: RegisterImage)
    ensures Get(t, SpO2Config) == SpO2FromMode(Get(s, ModeConfig))
    ensures Get(t, ModeConfig) == Get(s, ModeConfig)
    ensures SameExcept(s, t, {Index(SpO2Config)})
  {
    WriteModeIntoSpO2(WriteSampleRate(s, sr))
  }

  /** `setSPO2` as the two register updates the driver performs in place. */
  lemma SetSpO2AsUpdates(s: RegisterImage, sr: SampleRate)
    ensures var i, m := Index(SpO2Config), Index(ModeConfig);
            s[i := SampleRateField(s[i], sr)][i := SpO2FromMode(s[m])] == SetSpO2(s, sr)
  {
  }

  /** `shutdown()`. */
  function Shutdown(s: RegisterImage): (t: RegisterImage)
    ensures Get(t, ModeConfig) == WithShutdown(Get(s, ModeConfig))
    ensures SameExcept(s, t, {Index(ModeConfig)})
  {
    Put(s, ModeConfig, WithShutdown(Get(s, ModeConfig)))
  }

  /** `startup()`. */
  function Startup(s: RegisterImage): (t: RegisterImage)
    ensures Get(t, ModeConfig) == WithoutShutdown(Get(s, ModeConfig))
    ensures SameExcept(s, t, {Index(ModeConfig)})
  {
    Put(s, ModeConfig, WithoutShutdown(Get(s, ModeConfig)))
  }

  /** `reset()`. */
  function Reset(s: RegisterImage): (t: RegisterImage)
    ensures Get(t, ModeConfig) == WithReset(Get(s, ModeConfig))
    ensures SameExcept(s, t, {Index(ModeConfig)})
  {
    Put(s, ModeConfig, WithReset(Get(s, ModeConfig)))
  }

  /** `begin(pw, ir, sr)`: three plain writes, nothing read first. */
  function Begin(s: RegisterImage, pw: PulseWidth, ir: LedCurrent, sr: SampleRate): (t: RegisterImage)
    ensures Get(t, ModeConfig) == HEART_RATE_MODE
    ensures Get(t, LedConfig) == LedCurrentCode(ir)
    ensures Get(t, SpO2Config) == BaselineSpO2(sr, pw)
    ensures SameExcept(s, t, {Index(ModeConfig), Index(LedConfig), Index(SpO2Config)})
  {
    var mode := Put(s, ModeConfig, HEART_RATE_MODE);
    var led := Put(mode, LedConfig, LedCurrentCode(ir));
    Put(led, SpO2Config, BaselineSpO2(sr, pw))
  }

  /** The chip is in power-save mode. */
  predicate IsShutdown(s: RegisterImage)
  {
    Get(s, ModeConfig) & 0x80 != 0
  }

  /** Two images that agree on `changed` and outside it are equal. */
  lemma SameOnChangedAndOutside(s: RegisterImage, t: RegisterImage, u: RegisterImage, changed: set<nat>)
    requires SameExcept(s, t, changed) && SameExcept(s, u, changed)
    requires forall a :: a in changed && a < 256 ==> t[a] == u[a]
    ensures t == u
  {
    assert forall a :: 0 <= a < 256 ==> t[a] == u[a];
  }

  /** `setLEDs` leaves bits 2-7 of SpO2-config alone and sets bits 0-1 to the pulse-width code. */
  lemma SetLedsFields(s: RegisterImage, pw: PulseWidth, red: LedCurrent, ir: LedCurrent)
    ensures Get(SetLeds(s, pw, red, ir), SpO2Config) & 0xFC == Get(s, SpO2Config) & 0xFC
    ensures PulseWidthOf(Get(SetLeds(s, pw, red, ir), SpO2Config) & 0x03) == Some(pw)
    ensures LedCurrentOf(Get(SetLeds(s, pw, red, ir), LedConfig) >> 4) == Some(red)
    ensures LedCurrentOf(Get(SetLeds(s, pw, red, ir), LedConfig) & 0x0F) == Some(ir)
  {
    PulseWidthRoundTrip(pw);
    LedConfigDecodes(red, ir);
  }

  /** The sample rate passed to `setSPO2` has no effect on the registers. */
  lemma SetSpO2IgnoresSampleRate(s: RegisterImage, sr1: SampleRate, sr2: SampleRate)
    ensures SetSpO2(s, sr1) == SetSpO2(s, sr2)
  {
    SameOnChangedAndOutside(s, SetSpO2(s, sr1), SetSpO2(s, sr2), {Index(SpO2Config)});
  }

  /**
   After `setSPO2`, SpO2-config holds bits 3-7 of mode-config over 0b011: bits
   3-4 of its sample-rate field come from mode-config, bit 2 is cleared, and
   its pulse-width field reads 1600 us, whatever `setLEDs` had chosen.
   */
  lemma SetSpO2Fields(s: RegisterImage, sr: SampleRate)
    ensures Get(SetSpO2(s, sr), SpO2Config) & 0xF8 == Get(s, ModeConfig) & 0xF8
    ensures PulseWidthOf(Get(SetSpO2(s, sr), SpO2Config) & 0x03) == Some(Pw1600)
    ensures Get(SetSpO2(s, sr), SpO2Config) & 0x04 == 0
  {
  }

  /** The intermediate image after line 25 does carry `sr` in bits 2-4 and keeps the other bits. */
  lemma WriteSampleRateFields(s: RegisterImage, sr: SampleRate)
    ensures SampleRateOf((Get(WriteSampleRate(s, sr), SpO2Config) >> 2) & 0x07) == Some(sr)
    ensures Get(WriteSampleRate(s, sr), SpO2Config) & 0xE3 == Get(s, SpO2Config) & 0xE3
  {
    SampleRateRoundTrip(sr);
  }

  /** With every register zero, `setSPO2(sr1000)` leaves the sample-rate field at 50 per second. */
  lemma SetSpO2DropsRequestedRate()
    ensures var t := SetSpO2(seq(256, _ => 0), Sr1000);
            SampleRateOf((Get(t, SpO2Config) >> 2) & 0x07) == Some(Sr50)
  {
  }

  /** `shutdown` twice is `shutdown` once. */
  lemma ShutdownIdempotent(s: RegisterImage)
    ensures Shutdown(Shutdown(s)) == Shutdown(s)
    ensures IsShutdown(Shutdown(s))
  {
    SameOnChangedAndOutside(s, Shutdown(Shutdown(s)), Shutdown(s), {Index(ModeConfig)});
  }

  /** `startup` after `shutdown` gives the original image with bit 7 of mode-config cleared. */
  lemma StartupAfterShutdown(s: RegisterImage)
    ensures Startup(Shutdown(s)) == Startup(s)
    ensures Startup(Shutdown(s)) == s[Index(ModeConfig) := Get(s, ModeConfig) & 0x7F]
    ensures !IsShutdown(Startup(Shutdown(s)))
  {
    SameOnChangedAndOutside(s, Startup(Shutdown(s)), Startup(s), {Index(ModeConfig)});
  }

  /** From an active chip, `shutdown` then `startup` restores every register bit for bit. */
  lemma ShutdownStartupRestores(s: RegisterImage)
    requires !IsShutdown(s)
    ensures Startup(Shutdown(s)) == s
  {
    StartupAfterShutdown(s);
    assert Get(s, ModeConfig) & 0x7F == Get(s, ModeConfig);
  }

  /** `begin` forgets the three registers it writes: two images that differ only there end equal. */
  lemma BeginIgnoresPriorContents(s1: RegisterImage, s2: RegisterImage, pw: PulseWidth, ir: LedCurrent, sr: SampleRate)
    requires SameExcept(s1, s2, {Index(ModeConfig), Index(LedConfig), Index(SpO2Config)})
    ensures Begin(s1, pw, ir, sr) == Begin(s2, pw, ir, sr)
  {
    var t1, t2 := Begin(s1, pw, ir, sr), Begin(s2, pw, ir, sr);
    assert forall a :: 0 <= a < 256 ==> t1[a] == t2[a];
  }

  /** `begin` leaves the red LED off and sets the infrared current. */
  lemma BeginLedCurrents(s: RegisterImage, pw: PulseWidth, ir: LedCurrent, sr: SampleRate)
    ensures Get(Begin(s, pw, ir, sr), LedConfig) == LedConfigByte(I0, ir)
  {
  }

  /** With its default arguments `begin` writes 0x02, 0x0E and 0x07. */
  lemma BeginDefaults(s: RegisterImage)
    ensures Get(Begin(s, DEFAULT_PULSE_WIDTH, DEFAULT_IR_CURRENT, DEFAULT_SAMPLE_RATE), ModeConfig) == 0x02
    ensures Get(Begin(s, DEFAULT_PULSE_WIDTH, DEFAULT_IR_CURRENT, DEFAULT_SAMPLE_RATE), LedConfig) == 0x0E
    ensures Get(Begin(s, DEFAULT_PULSE_WIDTH, DEFAULT_IR_CURRENT, DEFAULT_SAMPLE_RATE), SpO2Config) == 0x07
  {
  }

  /** A call to one of the driver operations that write registers. */
  datatype Call =
    | SetLedsCall(pw: PulseWidth, red: LedCurrent, ir: LedCurrent)
    | SetSpO2Call(sr: SampleRate)
    | ShutdownCall
    | StartupCall
    | ResetCall
    | BeginCall(bpw: PulseWidth, bir: LedCurrent, bsr: SampleRate)

  function Apply(s: RegisterImage, c: Call): RegisterImage
  {
    match c
    case SetLedsCall(pw, red, ir) => SetLeds(s, pw, red, ir)
    case SetSpO2Call(sr) => SetSpO2(s, sr)
    case ShutdownCall => Shutdown(s)
    case StartupCall => Startup(s)
    case ResetCall => Reset(s)
    case BeginCall(pw, ir, sr) => Begin(s, pw, ir, sr)
  }

  /** The three registers the driver ever writes. */
  function ConfigRegisters(): set<nat>
  {
    {Index(ModeConfig), Index(SpO2Config), Index(LedConfig)}
  }

  /**
   The registers after a sequence of driver calls, in order. The read-only
   operations (`getNumSamp`, `readSensor`, `getRevID`, `getPartID`) write no
   register and so do not appear.
   Whatever the calls, only the three configuration registers change: the
   FIFO pointers, the identification bytes and every other register keep
   their contents.
   */
  function Run(s: RegisterImage, calls: seq<Call>): (t: RegisterImage)
    ensures SameExcept(s, t, ConfigRegisters())
    decreases |calls|
  {
    if calls == [] then s else Run(Apply(s, calls[0]), calls[1..])
  }

  /**
   Since `setSPO2` never writes mode-config, no sequence of driver calls puts
   the chip into SpO2 mode (MODE = 0b011) unless it was in that mode already.
   */
  lemma {:induction false} RunNeverEntersSpO2Mode(s: RegisterImage, calls: seq<Call>)
    requires Get(s, ModeConfig) & 0x07 != 0x03
    ensures Get(Run(s, calls), ModeConfig) & 0x07 != 0x03
    decreases |calls|
  {
    if calls != [] {
      var mode := Get(s, ModeConfig);
      assert Get(Apply(s, calls[0]), ModeConfig) & 0x07 != 0x03 by {
        match calls[0]
        case SetLedsCall(pw, red, ir) =>
        case SetSpO2Call(sr) =>
        case ShutdownCall => assert WithShutdown(mode) & 0x07 == mode & 0x07;
        case StartupCall => assert WithoutShutdown(mode) & 0x07 == mode & 0x07;
        case ResetCall => assert WithReset(mode) & 0x07 == mode & 0x07;
        case BeginCall(pw, ir, sr) =>
      }
      RunNeverEntersSpO2Mode(Apply(s, calls[0]), calls[1..]);
    }
  }
}

