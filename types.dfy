/** Plain value types of the driver: machine integers, the abstract clock,
    the supported RTU baud rates with their silence timers, and the alarm
    and direction enumerations. */
module Types {

  /** `u8`, `u16` and `u32` of the driver. */
  type Byte = x: int | 0 <= x < 0x100
  type Word = x: int | 0 <= x < 0x1_0000
  type DWord = x: int | 0 <= x < 0x1_0000_0000

  /** Instants and durations of the monotonic clock, in microseconds. */
  type Micros = nat

  datatype Option<+T> = None | Some(value: T)

  function Max(a: int, b: int): int { if a < b then b else a }
  function Min(a: int, b: int): int { if a < b then a else b }

  /** The serial speeds the driver can configure. */
  datatype RtuBaud = Baud115200 | Baud38400 | Baud19200 | Baud9600

  /** The line speed a variant stands for, in bits per second. */
  function BitsPerSecond(b: RtuBaud): nat
  {
    match b
    case Baud115200 => 115200
    case Baud38400 => 38400
    case Baud19200 => 19200
    case Baud9600 => 9600
  }

  /** Inter-character silence threshold T1.5 (Modbus over Serial Line
      Specification V1.02, section 2.5.1.1). Above 19200 baud the
      standard's fixed 750 us is used; at 19200 and 9600 the driver uses
      the same literals as for T3.5. */
  function T15(b: RtuBaud): (d: Micros)
    ensures d > 0
    ensures d <= T35(b)
    ensures d == T35(b) <==> BitsPerSecond(b) <= 19200
  {
    match b
    case Baud115200 => 750
    case Baud38400 => 750
    case Baud19200 => 1979
    case Baud9600 => 3958
  }

  /** Inter-frame silence T3.5, the least gap before a new request
      (same section of the standard; 1750 us above 19200 baud). */
  function T35(b: RtuBaud): (d: Micros)
    ensures d > 0
  {
    match b
    case Baud115200 => 1750
    case Baud38400 => 1750
    case Baud19200 => 1979
    case Baud9600 => 3958
  }

  /** A faster line never waits longer, for either timer. */
  lemma TimersShrinkWithSpeed(a: RtuBaud, b: RtuBaud)
    requires BitsPerSecond(a) >= BitsPerSecond(b)
    ensures T15(a) <= T15(b)
    ensures T35(a) <= T35(b)
  {
    match a
    case Baud115200 =>
    case Baud38400 =>
    case Baud19200 =>
    case Baud9600 =>
  }

  /** Halving the speed from 19200 to 9600 doubles both timers. */
  lemma SlowTimersDouble()
    ensures T15(Baud9600) == 2 * T15(Baud19200)
    ensures T35(Baud9600) == 2 * T35(Baud19200)
  {
  }

  /** Alarm states the drive reports; "no alarm" is `None` of an `Option`. */
  datatype AlarmCode = PowerFailure | Overflow | Block | Overpressure

  datatype Direction = Clockwise | CounterClockwise
}
