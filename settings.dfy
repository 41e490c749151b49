/**
 The three configuration enumerations of src/MAX30100.h (lines 24-58) and the
 defaults of `begin` (lines 75-77). Each enumeration's code is its position in
 the C `enum`, which is also the bit pattern the chip expects in the field it
 goes into; `...Code` is that encoding and `...Of` decodes a field value.
 The physical quantities come from the header's comments.
 */
module Settings {
  import opened Options
  import opened Registers

  /** LED pulse width; the same setting drives both LEDs. */
  datatype PulseWidth = Pw200 | Pw400 | Pw800 | Pw1600

  function PulseWidthCode(pw: PulseWidth): (c: Byte)
    ensures c <= 3
  {
    match pw
    case Pw200 => 0
    case Pw400 => 1
    case Pw800 => 2
    case Pw1600 => 3
  }

  function PulseWidthOf(c: Byte): (pw: Option<PulseWidth>)
    ensures pw.Some? <==> c <= 3
    ensures pw.Some? ==> PulseWidthCode(pw.value) == c
  {
    if c == 0 then Some(Pw200)
    else if c == 1 then Some(Pw400)
    else if c == 2 then Some(Pw800)
    else if c == 3 then Some(Pw1600)
    else None
  }

  /** The pulse duration in microseconds. */
  function PulseWidthMicros(pw: PulseWidth): (us: nat)
    ensures 200 <= us <= 1600
  {
    match pw
    case Pw200 => 200
    case Pw400 => 400
    case Pw800 => 800
    case Pw1600 => 1600
  }

  /** Sample rate of the oximeter, in samples per second. */
  datatype SampleRate = Sr50 | Sr100 | Sr167 | Sr200 | Sr400 | Sr600 | Sr800 | Sr1000

  function SampleRateCode(sr: SampleRate): (c: Byte)
    ensures c <= 7
  {
    match sr
    case Sr50 => 0
    case Sr100 => 1
    case Sr167 => 2
    case Sr200 => 3
    case Sr400 => 4
    case Sr600 => 5
    case Sr800 => 6
    case Sr1000 => 7
  }

  function SampleRateOf(c: Byte): (sr: Option<SampleRate>)
    ensures sr.Some? <==> c <= 7
    ensures sr.Some? ==> SampleRateCode(sr.value) == c
  {
    if c == 0 then Some(Sr50)
    else if c == 1 then Some(Sr100)
    else if c == 2 then Some(Sr167)
    else if c == 3 then Some(Sr200)
    else if c == 4 then Some(Sr400)
    else if c == 5 then Some(Sr600)
    else if c == 6 then Some(Sr800)
    else if c == 7 then Some(Sr1000)
    else None
  }

  function SamplesPerSecond(sr: SampleRate): (n: nat)
    ensures 50 <= n <= 1000
  {
    match sr
    case Sr50 => 50
    case Sr100 => 100
    case Sr167 => 167
    case Sr200 => 200
    case Sr400 => 400
    case Sr600 => 600
    case Sr800 => 800
    case Sr1000 => 1000
  }

  /** LED drive current; the same scale serves the red and the infrared LED. */
  datatype LedCurrent =
    I0 | I4 | I8 | I11 | I14 | I17 | I21 | I27 | I31 | I34 | I37 | I40 | I44 | I47 | I50

  function LedCurrentCode(i: LedCurrent): (c: Byte)
    ensures c <= 14
  {
    match i
    case I0 => 0
    case I4 => 1
    case I8 => 2
    case I11 => 3
    case I14 => 4
    case I17 => 5
    case I21 => 6
    case I27 => 7
    case I31 => 8
    case I34 => 9
    case I37 => 10
    case I40 => 11
    case I44 => 12
    case I47 => 13
    case I50 => 14
  }

  function LedCurrentOf(c: Byte): (i: Option<LedCurrent>)
    ensures i.Some? <==> c <= 14
    ensures i.Some? ==> LedCurrentCode(i.value) == c
  {
    if c == 0 then Some(I0)
    else if c == 1 then Some(I4)
    else if c == 2 then Some(I8)
    else if c == 3 then Some(I11)
    else if c == 4 then Some(I14)
    else if c == 5 then Some(I17)
    else if c == 6 then Some(I21)
    else if c == 7 then Some(I27)
    else if c == 8 then Some(I31)
    else if c == 9 then Some(I34)
    else if c == 10 then Some(I37)
    else if c == 11 then Some(I40)
    else if c == 12 then Some(I44)
    else if c == 13 then Some(I47)
    else if c == 14 then Some(I50)
    else None
  }

  /** The drive current in tenths of a milliampere. */
  function LedCurrentTenthsMilliamp(i: LedCurrent): (t: nat)
    ensures t <= 500
    ensures t == 0 <==> i == I0
  {
    match i
    case I0 => 0
    case I4 => 44
    case I8 => 76
    case I11 => 110
    case I14 => 142
    case I17 => 174
    case I21 => 208
    case I27 => 271
    case I31 => 306
    case I34 => 338
    case I37 => 370
    case I40 => 402
    case I44 => 436
    case I47 => 468
    case I50 => 500
  }

  /** Decoding an encoded pulse width gives it back, so the encoding is injective. */
  lemma PulseWidthRoundTrip(pw: PulseWidth)
    ensures PulseWidthOf(PulseWidthCode(pw)) == Some(pw)
  {
    match pw
    case Pw200 =>
    case Pw400 =>
    case Pw800 =>
    case Pw1600 =>
  }

  lemma SampleRateRoundTrip(sr: SampleRate)
    ensures SampleRateOf(SampleRateCode(sr)) == Some(sr)
  {
    match sr
    case Sr50 =>
    case Sr100 =>
    case Sr167 =>
    case Sr200 =>
    case Sr400 =>
    case Sr600 =>
    case Sr800 =>
    case Sr1000 =>
  }

  lemma LedCurrentRoundTrip(i: LedCurrent)
    ensures LedCurrentOf(LedCurrentCode(i)) == Some(i)
  {
    match i
    case I0 =>
    case I4 =>
    case I8 =>
    case I11 =>
    case I14 =>
    case I17 =>
    case I21 =>
    case I27 =>
    case I31 =>
    case I34 =>
    case I37 =>
    case I40 =>
    case I44 =>
    case I47 =>
    case I50 =>
  }

  /** The codes are ordered as the physical quantities are. */
  lemma PulseWidthCodeOrder(a: PulseWidth, b: PulseWidth)
    ensures PulseWidthCode(a) < PulseWidthCode(b) <==> PulseWidthMicros(a) < PulseWidthMicros(b)
  {
  }

  lemma SampleRateCodeOrder(a: SampleRate, b: SampleRate)
    ensures SampleRateCode(a) < SampleRateCode(b) <==> SamplesPerSecond(a) < SamplesPerSecond(b)
  {
  }

  lemma LedCurrentCodeOrder(a: LedCurrent, b: LedCurrent)
    ensures LedCurrentCode(a) < LedCurrentCode(b) <==> LedCurrentTenthsMilliamp(a) < LedCurrentTenthsMilliamp(b)
  {
  }

  /** Defaults of `begin`: the longest pulse, the highest current, the second-lowest rate. */
  const DEFAULT_PULSE_WIDTH: PulseWidth := Pw1600
  const DEFAULT_IR_CURRENT: LedCurrent := I50
  const DEFAULT_SAMPLE_RATE: SampleRate := Sr100

  lemma DefaultsAreExtremes(pw: PulseWidth, i: LedCurrent, sr: SampleRate)
    ensures PulseWidthMicros(pw) <= PulseWidthMicros(DEFAULT_PULSE_WIDTH)
    ensures LedCurrentTenthsMilliamp(i) <= LedCurrentTenthsMilliamp(DEFAULT_IR_CURRENT)
    ensures SamplesPerSecond(sr) < SamplesPerSecond(DEFAULT_SAMPLE_RATE) <==> sr == Sr50
  {
  }

  lemma DefaultCodes()
    ensures PulseWidthCode(DEFAULT_PULSE_WIDTH) == 3
    ensures LedCurrentCode(DEFAULT_IR_CURRENT) == 14
    ensures SampleRateCode(DEFAULT_SAMPLE_RATE) == 1
  {
  }
}
