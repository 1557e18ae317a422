/** The drive's register map and the pure transforms between raw 16-bit
    register words and the values the accessors return or accept. */
module Parameters {
  import opened Types
  import opened Errors

  /** Every named parameter the driver exposes. */
  datatype Parameter =
    | ModbusEnabled | DriveEnabled | TargetRpm | Acceleration | WeakMagneticAngle
    | SpeedKp | SpeedITime | PositionKp | SpeedFeed | DirPolarity
    | GearNumerator | GearDenominator | TargetPosition | Alarm | Current
    | Speed | Voltage | Temperature | Pwm | ParameterSaveFlag
    | DeviceAddress | AbsolutePosition | StillMaxCurrent | SpecificFunction

  /** First register address of a parameter; getter and setter both use it,
      and every parameter's registers lie within 0x00..0x19. */
  function Register(p: Parameter): (a: Word)
    ensures a + Width(p) <= 0x1A
  {
    match p
    case ModbusEnabled => 0x00
    case DriveEnabled => 0x01
    case TargetRpm => 0x02
    case Acceleration => 0x03
    case WeakMagneticAngle => 0x04
    case SpeedKp => 0x05
    case SpeedITime => 0x06
    case PositionKp => 0x07
    case SpeedFeed => 0x08
    case DirPolarity => 0x09
    case GearNumerator => 0x0A
    case GearDenominator => 0x0B
    case TargetPosition => 0x0C
    case Alarm => 0x0E
    case Current => 0x0F
    case Speed => 0x10
    case Voltage => 0x11
    case Temperature => 0x12
    case Pwm => 0x13
    case ParameterSaveFlag => 0x14
    case DeviceAddress => 0x15
    case AbsolutePosition => 0x16
    case StillMaxCurrent => 0x18
    case SpecificFunction => 0x19
  }

  /** Number of consecutive registers a parameter occupies. */
  function Width(p: Parameter): nat
  {
    if p == TargetPosition || p == AbsolutePosition then 2 else 1
  }

  /** The register map read the other way: which parameter owns an address. */
  function ParameterAt(a: Word): (r: Option<Parameter>)
    ensures r.None? <==> a > 0x19
    ensures r.Some? ==> Register(r.value) <= a < Register(r.value) + Width(r.value)
  {
    match a
    case 0x00 => Some(ModbusEnabled)
    case 0x01 => Some(DriveEnabled)
    case 0x02 => Some(TargetRpm)
    case 0x03 => Some(Acceleration)
    case 0x04 => Some(WeakMagneticAngle)
    case 0x05 => Some(SpeedKp)
    case 0x06 => Some(SpeedITime)
    case 0x07 => Some(PositionKp)
    case 0x08 => Some(SpeedFeed)
    case 0x09 => Some(DirPolarity)
    case 0x0A => Some(GearNumerator)
    case 0x0B => Some(GearDenominator)
    case 0x0C => Some(TargetPosition)
    case 0x0D => Some(TargetPosition)
    case 0x0E => Some(Alarm)
    case 0x0F => Some(Current)
    case 0x10 => Some(Speed)
    case 0x11 => Some(Voltage)
    case 0x12 => Some(Temperature)
    case 0x13 => Some(Pwm)
    case 0x14 => Some(ParameterSaveFlag)
    case 0x15 => Some(DeviceAddress)
    case 0x16 => Some(AbsolutePosition)
    case 0x17 => Some(AbsolutePosition)
    case 0x18 => Some(StillMaxCurrent)
    case 0x19 => Some(SpecificFunction)
    case _ => None
  }

  /** Every register a parameter spans is owned by that parameter alone. */
  lemma SpanOwner(p: Parameter, a: Word)
    requires Register(p) <= a < Register(p) + Width(p)
    ensures ParameterAt(a) == Some(p)
  {
    match p
    case TargetPosition => assert a == 0x0C || a == 0x0D;
    case AbsolutePosition => assert a == 0x16 || a == 0x17;
    case _ => assert a == Register(p);
  }

  /** No two parameters share a register. */
  lemma SpansDisjoint(p: Parameter, q: Parameter, a: Word)
    requires Register(p) <= a < Register(p) + Width(p)
    requires Register(q) <= a < Register(q) + Width(q)
    ensures p == q
  {
    SpanOwner(p, a);
    SpanOwner(q, a);
  }

  // ---------------------------------------------------------------------
  // Booleans: modbus enable, drive enable, parameter save flag.

  function DecodeBool(w: Word): (r: Result<bool>)
    ensures r.Ok? <==> w == 0 || w == 1
    ensures r.Ok? ==> (r.value <==> w == 1)
    ensures r.Err? ==> r.error == UnexpectedResponseData
  {
    match w
    case 0 => Ok(false)
    case 1 => Ok(true)
    case _ => Err(UnexpectedResponseData)
  }

  function EncodeBool(b: bool): (r: Result<Word>)
    ensures r.Ok? && DecodeBool(r.value) == Ok(b)
  {
    match b
    case false => Ok(0)
    case true => Ok(1)
  }

  /** Encoding undoes every successful decoding. */
  lemma BoolWordRoundTrip(w: Word)
    requires DecodeBool(w).Ok?
    ensures EncodeBool(DecodeBool(w).value) == Ok(w)
  {
  }

  // ---------------------------------------------------------------------
  // Direction polarity.

  function DecodeDirection(w: Word): (r: Result<Direction>)
    ensures r.Ok? <==> w == 0 || w == 1
    ensures r == Ok(Clockwise) <==> w == 1
    ensures r.Err? ==> r.error == UnexpectedResponseData
  {
    match w
    case 0 => Ok(CounterClockwise)
    case 1 => Ok(Clockwise)
    case _ => Err(UnexpectedResponseData)
  }

  function EncodeDirection(d: Direction): (r: Result<Word>)
    ensures r.Ok? && DecodeDirection(r.value) == Ok(d)
  {
    match d
    case CounterClockwise => Ok(0)
    case Clockwise => Ok(1)
  }

  lemma DirectionWordRoundTrip(w: Word)
    requires DecodeDirection(w).Ok?
    ensures EncodeDirection(DecodeDirection(w).value) == Ok(w)
  {
  }

  // ---------------------------------------------------------------------
  // Alarm code (read only).

  /** The documented word of each alarm state. */
  function AlarmWord(a: Option<AlarmCode>): Word
  {
    match a
    case None => 0
    case Some(PowerFailure) => 0x10
    case Some(Overflow) => 0x12
    case Some(Block) => 0x14
    case Some(Overpressure) => 0x15
  }

  function DecodeAlarm(w: Word): (r: Result<Option<AlarmCode>>)
    ensures r.Ok? <==> w in {0, 0x10, 0x12, 0x14, 0x15}
    ensures r.Ok? ==> AlarmWord(r.value) == w
    ensures r.Err? ==> r.error == UnexpectedResponseData
  {
    match w
    case 0 => Ok(None)
    case 0x10 => Ok(Some(PowerFailure))
    case 0x12 => Ok(Some(Overflow))
    case 0x14 => Ok(Some(Block))
    case 0x15 => Ok(Some(Overpressure))
    case _ => Err(UnexpectedResponseData)
  }

  /** Every alarm state is recognised from its documented word. */
  lemma AlarmWordDecodes(a: Option<AlarmCode>)
    ensures DecodeAlarm(AlarmWord(a)) == Ok(a)
  {
  }

  // ---------------------------------------------------------------------
  // Plain 16-bit parameters pass the word through unchanged.

  function Raw(w: Word): (r: Result<Word>)
    ensures r.Ok? && r.value == w
  {
    Ok(w)
  }

  // ---------------------------------------------------------------------
  // Speed integral time: a word of milliseconds.

  /** `Duration::from_millis`. */
  function FromMillis(w: Word): (r: Result<Micros>)
    ensures r.Ok? && r.value % 1000 == 0 && r.value / 1000 == w
  {
    Ok(w * 1000)
  }

  /** `as_millis() as u16`: whole milliseconds, wrapped to 16 bits. */
  function ToMillisWord(d: Micros): (r: Result<Word>)
    ensures r.Ok? && r.value * 1000 <= d
    ensures d < 0x1_0000 * 1000 ==> d - r.value * 1000 < 1000
  {
    Ok((d / 1000) % 0x1_0000)
  }

  /** Every register word survives a read followed by a write. */
  lemma MillisWordRoundTrip(w: Word)
    ensures ToMillisWord(FromMillis(w).value) == Ok(w)
  {
  }

  /** A duration survives a write followed by a read exactly when it is a
      whole number of milliseconds below 65536 ms. */
  lemma MillisDurationRoundTrip(d: Micros)
    ensures FromMillis(ToMillisWord(d).value) == Ok(d) <==> d % 1000 == 0 && d < 0x1_0000 * 1000
  {
  }

  // ---------------------------------------------------------------------
  // Big-endian byte conversions of `u16` and `u32`.

  /** `u16::to_be_bytes`. */
  function WordBytes(w: Word): (b: seq<Byte>)
    ensures |b| == 2 && b[0] as int * 0x100 + b[1] == w
  {
    [w / 0x100, w % 0x100]
  }

  /** `u16::from_be_bytes`. */
  function WordOfBytes(hi: Byte, lo: Byte): (w: Word)
    ensures WordBytes(w) == [hi, lo]
  {
    hi as int * 0x100 + lo
  }

  /** `u32::to_be_bytes`: most significant byte first. */
  function DWordBytes(v: DWord): (b: seq<Byte>)
    ensures |b| == 4
    ensures b[0] as int * 0x100 + b[1] == v / 0x1_0000
    ensures b[2] as int * 0x100 + b[3] == v % 0x1_0000
  {
    var high, low := v / 0x1_0000, v % 0x1_0000;
    [high / 0x100, high % 0x100, low / 0x100, low % 0x100]
  }

  /** `u32::from_be_bytes`. */
  function DWordOfBytes(b: seq<Byte>): (v: DWord)
    requires |b| == 4
    ensures v / 0x1_0000 == b[0] as int * 0x100 + b[1]
    ensures v % 0x1_0000 == b[2] as int * 0x100 + b[3]
  {
    var hi := b[0] as int * 0x100 + b[1];
    var lo := b[2] as int * 0x100 + b[3];
    assert hi * 0x1_0000 + lo < 0x1_0000_0000;
    hi * 0x1_0000 + lo
  }

  lemma DWordBytesRoundTrip(v: DWord)
    ensures DWordOfBytes(DWordBytes(v)) == v
  {
  }

  /** Two bytes are determined by the word they form. */
  lemma ByteDigitsUnique(a: Byte, b: Byte, c: Byte, d: Byte)
    requires a as int * 0x100 + b == c as int * 0x100 + d
    ensures a == c && b == d
  {
  }

  lemma DWordOfBytesRoundTrip(b: seq<Byte>)
    requires |b| == 4
    ensures DWordBytes(DWordOfBytes(b)) == b
  {
    var b' := DWordBytes(DWordOfBytes(b));
    ByteDigitsUnique(b'[0], b'[1], b[0], b[1]);
    ByteDigitsUnique(b'[2], b'[3], b[2], b[3]);
  }

  // ---------------------------------------------------------------------
  // 32-bit positions over two registers: the register at the base address
  // holds the LOW word, the next register the HIGH word.

  /** Reads (raw0, raw1) at (address, address + 1) as a position. */
  function DecodePosition(raw0: Word, raw1: Word): (r: Result<DWord>)
    ensures r == Ok(raw1 * 0x1_0000 + raw0)
  {
    var first := WordBytes(raw0);
    var second := WordBytes(raw1);
    Ok(DWordOfBytes([second[0], second[1], first[0], first[1]]))
  }

  /** Splits a position into the words for (address, address + 1). */
  function EncodePosition(v: DWord): (r: Result<(Word, Word)>)
    ensures r == Ok((v % 0x1_0000, v / 0x1_0000))
  {
    var data := DWordBytes(v);
    var high := WordOfBytes(data[0], data[1]);
    var low := WordOfBytes(data[2], data[3]);
    Ok((low, high))
  }

  lemma PositionRoundTrip(v: DWord)
    ensures var (w0, w1) := EncodePosition(v).value; DecodePosition(w0, w1) == Ok(v)
  {
  }

  lemma PositionWordsRoundTrip(w0: Word, w1: Word)
    ensures EncodePosition(DecodePosition(w0, w1).value) == Ok((w0, w1))
  {
  }

  /** The two worked examples of the word order. */
  lemma PositionExamples()
    ensures EncodePosition(0x1122_3344) == Ok((0x3344, 0x1122))
    ensures DecodePosition(0x0005, 0x0000) == Ok(5)
  {
  }
}
