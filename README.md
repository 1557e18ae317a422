# AIM servo motor driver over Modbus RTU

A Dafny model of the core of a driver for AIM integrated servo motors. The
driver speaks Modbus RTU over a serial line and covers three pieces.

- **The register map and codecs.** Each named parameter is a holding
  register address plus a decode/encode transform: booleans, direction,
  alarm codes, plain 16-bit words, milliseconds, and 32-bit positions split
  over two registers with the low word first.
- **The transaction engine.** It paces requests by the inter-frame delay
  T3.5, writes the encoded request, and collects the response purely by
  silence: the first read waits for the response timeout, each later read
  waits T1.5, and an elapsed wait ends the frame. It decodes only the bytes
  received, the first `total_read` bytes of its 64-byte buffer, and maps
  every failure to an `Error`. The access helpers then
  check the shape of the decoded reply. Baud rate changes are a fixed
  sequence of four writes, and the two custom position writes
  (function codes 0x78 and 0x7B) require an exact echo.
- **The timing table.** T1.5 and T3.5 per baud rate (Modbus over Serial
  Line Specification V1.02, section 2.5.1.1), with the driver's literals.

Layout:

- `types.dfy`: words, durations in microseconds, the baud rates and their
  timers, alarm codes and directions.
- `error.dfy`: the driver's `Error` and a `Result` usable with `:-`.
- `parameters.dfy`: the register map and the pure transforms, with their
  round-trip lemmas.
- `modbus.dfy`: the interface of the Modbus codec library.
  - Requests, responses and decoder outcomes are datatypes.
  - The encoder and decoder are the two function values of a `Codec`, about
    which nothing is assumed.
- `transport.dfy`: the serial line and the clock as a finite script of
  events.
  - A chunk of bytes due at some time.
  - A read error at some time.
  - A write error.

  The pure step functions `Paced`, `Sent` and `NextRead` define the line.
  `Port` is the stateful object the driver owns.
- `motor.dfy`: the `Motor` class. It holds the 64-byte buffer array, the
  pacing instant `earliestNextFrame` and the fixed configuration.
  - Its methods are proved against ghost functions of the session (the
    line plus the pacing instant).
  - `Receive` is the receive loop.
  - `Transaction` is one whole transaction.
  - `ReadOne`, `ReadTwo`, `WriteOne`, `WriteTwo`, `WriteCustom` and
    `WriteSequence` are the helpers.
  - Every accessor states its result and new state as one of those,
    applied to its register and transform.
- `motor_facts.dfy`: what those functions guarantee.
  - Framing by silence.
  - Pacing.
  - Timeout and error outcomes.
  - The identity, alarm and position accessors, end to end.
  - The baud change sequence.
  - The custom echo.

Durations are whole microseconds. `Error.UnexpectedResponseLength(actual,
expected)` follows the argument order of the code
(src/motor/mod.rs:108 and :128). The message text at src/error.rs:19 names
the two numbers the other way round.

## Model

| member | source | states |
|---|---|---|
| Types.T15 | src/types.rs:15-22 | T1.5 is positive, never exceeds T3.5, and equals it exactly at 19200 baud and below |
| Types.T35 | src/types.rs:26-33 | T3.5 is positive for every baud rate |
| Types.TimersShrinkWithSpeed | src/types.rs:15-33 | a faster baud rate never has a longer T1.5 or T3.5 |
| Types.SlowTimersDouble | src/types.rs:19-20 | both timers at 9600 baud are twice those at 19200 |
| Errors.Error | src/error.rs:6-24 | the six failures the driver reports; `UnexpectedResponseLength` carries the count received and the count expected |
| Parameters.ParameterAt | src/motor/parameters.rs:5-258 | the register map read backwards: every address up to 0x19 belongs to a parameter whose span contains it; addresses above 0x19 belong to none |
| Parameters.Register | src/motor/parameters.rs:6-257 | the register address each getter and setter uses; every parameter's registers lie within 0x00..0x19 |
| Parameters.SpanOwner | src/motor/parameters.rs:149-241 | every register a parameter spans (0x0C-0x0D and 0x16-0x17 for the positions) maps back to that parameter |
| Parameters.SpansDisjoint | src/motor/parameters.rs:5-258 | no two parameters share a register |
| Parameters.DecodeBool | src/motor/parameters.rs:7-11 | succeeds exactly on 0 and 1, true exactly for 1; otherwise `UnexpectedResponseData` |
| Parameters.EncodeBool | src/motor/parameters.rs:16-19 | always succeeds and decodes back to the argument |
| Parameters.BoolWordRoundTrip | src/motor/parameters.rs:6-38 | every word that decodes is re-encoded to itself |
| Parameters.DecodeDirection | src/motor/parameters.rs:110-114 | succeeds exactly on 0 and 1, clockwise exactly for 1; otherwise `UnexpectedResponseData` |
| Parameters.EncodeDirection | src/motor/parameters.rs:119-122 | always succeeds and decodes back to the argument |
| Parameters.DirectionWordRoundTrip | src/motor/parameters.rs:109-124 | every word that decodes is re-encoded to itself |
| Parameters.DecodeAlarm | src/motor/parameters.rs:169-176 | succeeds exactly on 0, 0x10, 0x12, 0x14 and 0x15, and then yields the alarm state whose documented word it is; otherwise `UnexpectedResponseData` |
| Parameters.AlarmWordDecodes | src/motor/parameters.rs:168-178 | each alarm state, and no alarm, is recognised from its word |
| Parameters.FromMillis | src/motor/parameters.rs:82 | a word w becomes exactly w whole milliseconds |
| Parameters.ToMillisWord | src/motor/parameters.rs:87 | never rounds up; below 65536 ms it loses less than a millisecond |
| Parameters.MillisWordRoundTrip | src/motor/parameters.rs:81-89 | encode after decode gives back every word |
| Parameters.MillisDurationRoundTrip | src/motor/parameters.rs:81-89 | decode after encode gives back a duration exactly when it is whole milliseconds below 65536 ms |
| Parameters.WordBytes | src/motor/parameters.rs:151-152 | two big-endian bytes whose value is the word |
| Parameters.WordOfBytes | src/motor/parameters.rs:161-162 | the inverse of `WordBytes` |
| Parameters.DWordBytes | src/motor/mod.rs:207 | four big-endian bytes: the first pair is the high word, the second the low word |
| Parameters.DWordOfBytes | src/motor/parameters.rs:153 | reads four big-endian bytes: high word from the first pair, low word from the second |
| Parameters.DWordBytesRoundTrip | src/motor/mod.rs:207 | bytes of a value read back as that value |
| Parameters.DWordOfBytesRoundTrip | src/motor/parameters.rs:153 | the value of four bytes converts back to the same bytes |
| Parameters.DecodePosition | src/motor/parameters.rs:150-154 | the word at the base address is the low half: (w0, w1) gives w1 * 65536 + w0 |
| Parameters.EncodePosition | src/motor/parameters.rs:159-164 | a position gives (v mod 65536, v / 65536), low word first |
| Parameters.PositionRoundTrip | src/motor/parameters.rs:149-166 | decode after encode is the identity on positions |
| Parameters.PositionWordsRoundTrip | src/motor/parameters.rs:149-166 | encode after decode is the identity on word pairs |
| Parameters.PositionExamples | src/motor/parameters.rs:149-166 | 0x11223344 is written as (0x3344, 0x1122); words (5, 0) read as 5 |
| Parameters.Raw | src/motor/parameters.rs:45 | the `Ok` transform of the plain accessors: every word passes through unchanged |
| Transport.Paced | src/motor/mod.rs:39 | waiting for an instant leaves the clock at that instant or later, and never earlier than before |
| Transport.Port.SleepUntil | src/motor/mod.rs:39 | the line's new state is `Paced` of the old one: the clock reaches the instant and never goes back |
| Transport.Sent | src/motor/mod.rs:56-59 | a write either fails, sending nothing, or appends exactly the frame, stamped with the current time |
| Transport.NextRead | src/motor/mod.rs:66 | one bounded read: the clock advances by at most the timeout, by exactly the timeout when nothing completes, and a completed chunk fits the free room |
| Transport.Port.WriteAll | src/motor/mod.rs:56-59 | the line's new state is `Sent` of the old one |
| Transport.Port.Read | src/motor/mod.rs:66 | the chunk lands right after the bytes already held and the rest of the buffer is untouched |
| Motor.Receive | src/motor/mod.rs:61-78 | the receive loop never holds more than 64 bytes and only ever appends to what it has received |
| Motor.Transaction | src/motor/mod.rs:37-94 | the transaction as a function of the session: at most 64 bytes received; success only on a nonempty reception that `Interpret` accepts; failures are only `Transport`, `Timeout` or `Modbus`; unless the result is `Transport`, `Timeout` exactly when nothing was received (including zero-byte reads followed by silence); a request that cannot be encoded is `Transport` and sends nothing |
| Motor.Interpret | src/motor/mod.rs:88-92 | success exactly on a decoded normal reply; a decoder error is `Transport`; no frame or a device exception is `Modbus` |
| Motor.ReadOneReply | src/motor/mod.rs:102-112 | transform of the word only on a one-word register reply; another count n gives `UnexpectedResponseLength(n, 1)`, another kind `UnexpectedResponseType` |
| Motor.ReadTwoReply | src/motor/mod.rs:121-132 | as above with two words and `UnexpectedResponseLength(n, 2)` |
| Motor.WriteOneReply | src/motor/mod.rs:148-157 | success exactly on an echo of the same address and value; a different echo is `UnexpectedResponseData`, another kind `UnexpectedResponseType` |
| Motor.WriteTwoReply | src/motor/mod.rs:176-185 | success exactly on an echo of the address with count 2; `UnexpectedResponseData` exactly when the count is 2 but the address differs; everything else is `UnexpectedResponseType` |
| Motor.CustomReply | src/motor/mod.rs:210-219 | success exactly on an echo of the same code and bytes; `UnexpectedResponseData` exactly when only the bytes differ |
| Motor.ReadOne | src/motor/mod.rs:96-113 | a failed transaction's error is passed on unchanged; success only on a one-word register reply, giving the transform of that word |
| Motor.ReadTwo | src/motor/mod.rs:115-133 | as above with a two-word register reply, the transform applied to both words in order |
| Motor.WriteOne | src/motor/mod.rs:135-158 | a transform error is returned before anything is sent; success only when the device echoed the same address and word; any other failure is one of the transaction's errors or a wrong echo |
| Motor.WriteTwo | src/motor/mod.rs:160-186 | as above for a two-word write, success only on the echo of the address with count 2 |
| Motor.WriteCustom | src/motor/mod.rs:204-238 | success exactly when the device echoed the function code and the value's four big-endian bytes |
| Motor.WriteSequence | src/motor/mod.rs:196-199 | a sequence of plain writes fails only with an error a single write can give: never a length error |
| Motor.BaudSteps | src/motor/mod.rs:189-199 | four writes starting and ending at register 0x00; the second carries the code of the requested rate and of no other rate |
| Motor.BaudCode | src/motor/mod.rs:189-194 | the drive's rate codes lie in 800..803 (distinct per rate, see `BaudChangeSequence`) |
| Motor.Motor.constructor | src/motor/mod.rs:25-35 | slave address 1, timers from the baud rate, a zeroed 64-byte buffer, first request allowed at once |
| Motor.Motor.ModbusTransaction | src/motor/mod.rs:37-94 | result and new state are those of `Transaction`, and the bytes decoded are exactly the received ones at the start of the buffer |
| Motor.Motor.ReceiveResponse | src/motor/mod.rs:61-78 | the loop ends as `Receive` does: same failure flag, `totalRead` bytes at the start of the buffer, same line, pacing instant T3.5 after the last completed read or unchanged |
| Motor.Motor.ReceiveOnce | src/motor/mod.rs:66-77 | one pass of the receive loop is one step of `Receive`: a completed read continues with T1.5 and moves the pacing instant to T3.5 after it; a read error or an elapsed wait ends the loop, failed exactly on the error |
| Motor.Motor.ReadOneWordParameter | src/motor/mod.rs:96-113 | result and new state are a transaction reading one register followed by `ReadOneReply` |
| Motor.Motor.ReadTwoWordParameter | src/motor/mod.rs:115-133 | likewise for two registers and `ReadTwoReply` |
| Motor.Motor.WriteOneWordParameter | src/motor/mod.rs:135-158 | a transform error is returned with nothing changed; otherwise a single-register write followed by `WriteOneReply` |
| Motor.Motor.WriteTwoWordParameter | src/motor/mod.rs:160-186 | a transform error is returned with nothing changed; otherwise a two-register write followed by `WriteTwoReply` |
| Motor.Motor.SetBaudRate | src/motor/mod.rs:188-202 | the four plain writes of `BaudSteps`, stopping at the first failure |
| Motor.Motor.SetTargetPositionCustom | src/motor/mod.rs:204-220 | sends the value's big-endian bytes under function code 0x78 and checks the echo with `CustomReply` |
| Motor.Motor.SetAbsolutePositionCustom | src/motor/mod.rs:222-238 | likewise under function code 0x7B |
| Motor.Motor.ModbusEnabled | src/motor/parameters.rs:6-13 | reads register 0x00 through `DecodeBool`: 0 is false, 1 is true, any other word is `UnexpectedResponseData` |
| Motor.Motor.SetModbusEnabled | src/motor/parameters.rs:15-21 | writes `EncodeBool(value)` to register 0x00 and accepts only the exact echo |
| Motor.Motor.DriveEnabled | src/motor/parameters.rs:23-30 | reads register 0x01 through `DecodeBool` |
| Motor.Motor.SetDriveEnabled | src/motor/parameters.rs:32-38 | writes `EncodeBool(value)` to register 0x01 |
| Motor.Motor.TargetRpm | src/motor/parameters.rs:44-46 | reads register 0x02 unchanged |
| Motor.Motor.SetTargetRpm | src/motor/parameters.rs:53-55 | writes the value unchanged to register 0x02 |
| Motor.Motor.Acceleration | src/motor/parameters.rs:57-59 | reads register 0x03 unchanged |
| Motor.Motor.SetAcceleration | src/motor/parameters.rs:61-63 | writes the value unchanged to register 0x03 |
| Motor.Motor.WeakMagneticAngle | src/motor/parameters.rs:65-67 | reads register 0x04 unchanged |
| Motor.Motor.SetWeakMagneticAngle | src/motor/parameters.rs:69-71 | writes the value unchanged to register 0x04 |
| Motor.Motor.SpeedKp | src/motor/parameters.rs:73-75 | reads register 0x05 unchanged |
| Motor.Motor.SetSpeedKp | src/motor/parameters.rs:77-79 | writes the value unchanged to register 0x05 |
| Motor.Motor.SpeedITime | src/motor/parameters.rs:81-84 | reads register 0x06 as that many milliseconds |
| Motor.Motor.SetSpeedITime | src/motor/parameters.rs:86-89 | writes the whole milliseconds of the duration, wrapped to 16 bits, to register 0x06 |
| Motor.Motor.PositionKp | src/motor/parameters.rs:91-93 | reads register 0x07 unchanged |
| Motor.Motor.SetPositionKp | src/motor/parameters.rs:95-97 | writes the value unchanged to register 0x07 |
| Motor.Motor.DirPolarity | src/motor/parameters.rs:109-116 | reads register 0x09 through `DecodeDirection` |
| Motor.Motor.SetDirPolarity | src/motor/parameters.rs:118-124 | writes `EncodeDirection(value)` to register 0x09 |
| Motor.Motor.ElectronicGearNumerator | src/motor/parameters.rs:126-128 | reads register 0x0A unchanged |
| Motor.Motor.SetElectronicGearNumerator | src/motor/parameters.rs:134-136 | writes the value unchanged to register 0x0A |
| Motor.Motor.ElectronicGearDenominator | src/motor/parameters.rs:138-140 | reads register 0x0B unchanged |
| Motor.Motor.SetElectronicGearDenominator | src/motor/parameters.rs:145-147 | writes the value unchanged to register 0x0B |
| Motor.Motor.TargetPosition | src/motor/parameters.rs:149-156 | reads two words at 0x0C and combines them low word first through `DecodePosition` |
| Motor.Motor.SetTargetPosition | src/motor/parameters.rs:158-166 | writes `EncodePosition(value)` (low word first) to 0x0C and 0x0D and accepts only an echo of address 0x0C with count 2 |
| Motor.Motor.AlarmCode | src/motor/parameters.rs:168-178 | reads register 0x0E through `DecodeAlarm` |
| Motor.Motor.Temperature | src/motor/parameters.rs:195-197 | reads register 0x12 unchanged |
| Motor.Motor.Pwm | src/motor/parameters.rs:199-201 | reads register 0x13 unchanged |
| Motor.Motor.ParameterSaveFlag | src/motor/parameters.rs:203-210 | reads register 0x14 through `DecodeBool` |
| Motor.Motor.SetParameterSaveFlag | src/motor/parameters.rs:212-218 | writes `EncodeBool(value)` to register 0x14 |
| Motor.Motor.DeviceAddress | src/motor/parameters.rs:220-222 | reads register 0x15 unchanged |
| Motor.Motor.AbsolutePosition | src/motor/parameters.rs:224-231 | reads two words at 0x16 and combines them low word first |
| Motor.Motor.SetAbsolutePosition | src/motor/parameters.rs:233-241 | writes `EncodePosition(value)` to 0x16 and 0x17 |
| Motor.Motor.StillMaximumAllowedCurrent | src/motor/parameters.rs:243-245 | reads register 0x18 unchanged |
| Motor.Motor.SetStillMaximumAllowedCurrent | src/motor/parameters.rs:247-249 | writes the value unchanged to register 0x18 |
| Motor.Motor.SpecificFunction | src/motor/parameters.rs:251-253 | reads register 0x19 unchanged |
| Motor.Motor.SetSpecificFunction | src/motor/parameters.rs:255-257 | writes the value unchanged to register 0x19 |
| MotorFacts.FramedBySilence | src/motor/mod.rs:61-78 | the first read completes within the first wait, each later one within T1.5 of the one before, the clock only moves forward, nothing is written, and a loop ended by silence ends T1.5 after the last completed read |
| MotorFacts.PacingNeverDecreases | src/motor/mod.rs:39-69 | the clock and the pacing instant never decrease; the instant moves only when a read completes, and then to T3.5 after the last one |
| MotorFacts.RequestNotBeforeEarliest | src/motor/mod.rs:39-59 | at most one frame is written per transaction: the request's encoding, never before the pacing instant; a successful transaction wrote it |
| MotorFacts.SilenceBeforeNextRequest | src/motor/mod.rs:39-69 | a request goes out at least T3.5 after the last byte of the previous response |
| MotorFacts.SilentDeviceTimesOut | src/motor/mod.rs:61-82 | silence during the whole response timeout gives `Timeout`, leaves the pacing instant alone and ends exactly one timeout after sending |
| MotorFacts.AnswerIsNoTimeout | src/motor/mod.rs:61-82 | bytes arriving within the response timeout never give `Timeout` |
| MotorFacts.ReceiveConsumes | src/motor/mod.rs:61-78 | each read takes the next event off the line: every event taken is a chunk of bytes except, for a loop ended by a read error, the last one, which is that error |
| MotorFacts.ReadFaultIsTransport | src/motor/mod.rs:66-73 | a read error on any read, first or later, ends the transaction at once with `Transport`, every event before it being a chunk of bytes; after a sent request `Transport` comes only from a read error or the decoder |
| MotorFacts.SendFailureIsTransport | src/motor/mod.rs:50-59 | an encoding failure, a request larger than the buffer or a failed write is `Transport`, with nothing read and the pacing instant unchanged |
| MotorFacts.ResponseFramedBySilence | src/motor/mod.rs:61-93 | a successful transaction decoded 1 to 64 bytes gathered by silence timing; afterwards the clock is T1.5 and the pacing instant T3.5 after the last read |
| MotorFacts.PlainReadIsIdentity | src/motor/parameters.rs:44-79 | a plain register read yields w exactly when the device replied with the single word w |
| MotorFacts.PlainWriteIsIdentity | src/motor/parameters.rs:126-147 | a plain register write succeeds exactly when the device echoed the address and the unchanged value |
| MotorFacts.AlarmReadExamples | src/motor/parameters.rs:168-178 | a reply of 0x12 is an overflow alarm; 0x11 is `UnexpectedResponseData` |
| MotorFacts.AbsolutePositionReadExamples | src/motor/parameters.rs:224-231 | words (5, 0) read as position 5; a one-word reply is `UnexpectedResponseLength(1, 2)` |
| MotorFacts.PositionWriteThenRead | src/motor/parameters.rs:149-166 | a position written and read back from a device that stored the words is the same position |
| MotorFacts.EnableWriteThenRead | src/motor/parameters.rs:6-21 | writing true and reading it back gives true |
| MotorFacts.CustomEchoCarriesValue | src/motor/mod.rs:204-238 | a custom position write succeeds exactly when the echo has the same code and its four bytes read back as the value |
| MotorFacts.WriteSequenceSendsSteps | src/motor/mod.rs:196-199 | successful writes in sequence sent one frame per step, in order, each the encoding of that step |
| MotorFacts.BaudChangeSequence | src/motor/mod.rs:188-202 | a successful baud change sent (0x00, 1), (0x02, code), (0x03, 129), (0x00, 506) in that order; distinct rates have distinct codes |
| MotorFacts.WriteSequenceStep | src/motor/mod.rs:196-199 | a sequence of writes performs its first write and continues only if it succeeded |
| MotorFacts.WriteSequenceFailsAtOneStep | src/motor/mod.rs:196-199 | a failed sequence of writes failed at exactly one step: every earlier step succeeded and that step's own write gave the result and session |
| MotorFacts.WriteSequenceStopsAtFailure | src/motor/mod.rs:196-199 | once a prefix of the writes fails, nothing after it is written: the result and session are the prefix's |
| MotorFacts.BaudChangeStopsAtFailure | src/motor/mod.rs:196-199 | a baud change that fails does so at one of its four writes after the earlier ones succeeded; a failure at any write, the first or the rate-code write included, means none of the later writes, the final 506 among them, is sent |
| MotorFacts.ExitsWithin | src/motor/mod.rs:65-78 | the as-written receive loop, built on `ReadAsWritten`, given `fuel` reads: with no reads left it has not ended, and it ends as soon as a read fails or times out |
| MotorFacts.ReadAsWritten | src/motor/mod.rs:66 | the read as written: with no room left it completes at once with zero bytes and takes nothing from the line |
| MotorFacts.FullBufferNeverExits | src/motor/mod.rs:65-78 | as written, a loop holding 64 bytes never ends, whatever the number of reads |
| MotorFacts.LongReplyNeverEndsAsWritten | src/motor/mod.rs:65-78 | as written, a reply whose first chunk has 64 bytes or more never ends the loop |
| MotorFacts.LongReplyEndsInModel | src/motor/mod.rs:65-78 | in the model, the same reply ends the loop by silence T1.5 after it arrived, with its first 64 bytes held |

## Left out

- Floating-point parameters `speed_feed`, `current`, `speed` and `voltage`
  (src/motor/parameters.rs:99-107 and 180-193): their scaling is floating
  point. Only their register addresses appear, in `Parameters.Register`.
- The Modbus codec library (frame layout, function codes, CRC): not part of
  this model. Its encoder and decoder are arbitrary function values, so
  every property holds for any codec. The reply's slave address is not
  checked, as in the source.
- Time is an abstract clock in microseconds. The async runtime, the
  executor and the transmission time of a write are not modelled: a write
  completes at the instant it starts.
- The serial transport is a finite script of events. A real transport that
  kept answering reads with zero bytes could keep the loop running forever.
- Motor.Receive: a chunk larger than the free room is cut to the room left
  and the event is consumed. This includes a read into a full buffer. Once
  64 bytes are held the source reads into an empty slice, which the
  transport may answer with zero bytes at once (the loop then never ends)
  or with an error (`Transport`); this happens for any response of 64
  bytes or more. The model instead reads and drops bytes until the line
  falls silent; see "## Findings".
- Motor.Interpret: the decoder's error and "no frame" outcomes are taken as
  the library reports them. Which byte strings give which outcome is the
  library's business.
- Debug logging of the encoded request and the received bytes: no effect
  on behaviour.
- The display texts of `Error`: no effect on behaviour.
- The example applications (UART setup, retries, sleeps) and the drive's
  behaviour after a baud rate change (power cycling): application code and
  device behaviour, not driver logic.
- Motor.Motor.SpeedITime and Motor.Motor.SetSpeedITime: a duration is a
  whole number of microseconds, so sub-microsecond precision and the
  runtime's tick rate are not modelled.

## Findings

| source | as written | input that shows it | evidently intended | confidence | as-written member | corrected member |
|---|---|---|---|---|---|---|
| src/motor/mod.rs:65-78 | the receive loop keeps reading into `buffer[total_read..]` after the buffer is full; a read into an empty slice may complete at once with zero bytes, so neither the timeout nor the loop's exit is ever reached | a response of 64 bytes or more, arriving at once | stop reading when the buffer is full, or let the line fall silent and decode what fits | medium (depends on the transport answering an empty read with `Ok(0)`, which the embedded-io contract allows); not executed | MotorFacts.LongReplyNeverEndsAsWritten | MotorFacts.LongReplyEndsInModel |
