/** The transaction engine and the parameter accessors of the driver.

    A `Motor` owns the line, a 64-byte scratch buffer and the instant before
    which no new request may be sent. One transaction paces, encodes, writes,
    collects the response by silence timing, and decodes it. The ghost
    function `Transaction` states what one transaction does to the session;
    the access helpers check the decoded response's shape. */
module Motor {
  import opened Types
  import opened Errors
  import opened Modbus
  import opened Transport
  import opened Parameters

  /** Size of the scratch buffer used for both the request and the response. */
  const BufferSize: nat := 64

  /** Everything about a motor that never changes after construction. */
  datatype Config = Config(
    address: Byte,
    t15: Micros,
    t35: Micros,
    responseTimeout: Micros,
    codec: Codec)

  /** Everything a transaction changes: the pacing instant and the line. */
  datatype Session = Session(earliest: Micros, line: Line)

  /** How the receive loop ended: after a read error or a timeout, with the
      bytes collected and the instant each completed read returned. */
  datatype RxEnd = RxEnd(failed: bool, received: seq<Byte>, arrivals: seq<Micros>, line: Line)

  function Last(s: seq<Micros>): Micros
    requires |s| > 0
  {
    s[|s| - 1]
  }

  /** The receive loop from some point on: read with the current timeout;
      a completed read appends its bytes and continues with T1.5; a read
      error or an elapsed wait ends the loop. */
  ghost function Receive(c: Config, line: Line, timeout: Micros, received: seq<Byte>, arrivals: seq<Micros>): (e: RxEnd)
    requires |received| <= BufferSize
    ensures |received| <= |e.received| <= BufferSize
    ensures e.received[..|received|] == received
    ensures |arrivals| <= |e.arrivals| && e.arrivals[..|arrivals|] == arrivals
    decreases |line.script|
  {
    var next := NextRead(line, BufferSize - |received|, timeout);
    match next.0
    case TimedOut => RxEnd(false, received, arrivals, next.1)
    case Failed => RxEnd(true, received, arrivals, next.1)
    case Completed(bytes) =>
      var e := Receive(c, next.1, c.t15, received + bytes, arrivals + [next.1.now]);
      assert (received + bytes)[..|received|] == received;
      assert (arrivals + [next.1.now])[..|arrivals|] == arrivals;
      e
  }

  /** One step of the receive loop: a completed read continues the loop
      with T1.5 from the line and the buffer it leaves behind. */
  lemma ReceiveStep(c: Config, line: Line, timeout: Micros, received: seq<Byte>, arrivals: seq<Micros>)
    requires |received| <= BufferSize
    requires NextRead(line, BufferSize - |received|, timeout).0.Completed?
    ensures var next := NextRead(line, BufferSize - |received|, timeout);
            Receive(c, line, timeout, received, arrivals)
            == Receive(c, next.1, c.t15, received + next.0.bytes, arrivals + [next.1.now])
  {
  }

  /** The receive loop ends with the first read that does not complete. */
  lemma ReceiveStop(c: Config, line: Line, timeout: Micros, received: seq<Byte>, arrivals: seq<Micros>)
    requires |received| <= BufferSize
    requires !NextRead(line, BufferSize - |received|, timeout).0.Completed?
    ensures var next := NextRead(line, BufferSize - |received|, timeout);
            Receive(c, line, timeout, received, arrivals) == RxEnd(next.0.Failed?, received, arrivals, next.1)
  {
  }

  /** Decoding the received bytes: a decoder error is a transport error, no
      complete frame or an exception reply is a Modbus error. The reply's
      slave address is not checked. */
  function Interpret(codec: Codec, received: seq<Byte>): (r: Result<Response>)
    ensures r.Ok? <==> codec.decode(received).Frame? && codec.decode(received).pdu.Normal?
    ensures r.Ok? ==> r.value == codec.decode(received).pdu.response
    ensures r.Err? ==> (r.error == Transport <==> codec.decode(received).DecodeError?)
    ensures r.Err? ==> r.error == Transport || r.error == Modbus
  {
    match codec.decode(received)
    case DecodeError => Err(Transport)
    case NoFrame => Err(Modbus)
    case Frame(_, Exception(_)) => Err(Modbus)
    case Frame(_, Normal(response)) => Ok(response)
  }

  /** The outcome of one transaction: the result, the new session, the bytes
      left at the front of the buffer, and the instants reads completed. */
  datatype Exchange = Exchange(result: Result<Response>, session: Session, received: seq<Byte>, arrivals: seq<Micros>)

  /** One request/response exchange, as `modbus_transaction` performs it. */
  ghost function Transaction(c: Config, s: Session, req: Request): (x: Exchange)
    ensures |x.received| <= BufferSize
    ensures x.result.Ok? ==> 0 < |x.received| && x.result == Interpret(c.codec, x.received)
    ensures x.result.Err? ==> x.result.error in {Transport, Timeout, Modbus}
    ensures x.result == Err(Timeout) ==> x.received == []
    ensures x.result != Err(Transport) ==> (x.result == Err(Timeout) <==> x.received == [])
    ensures c.codec.encode(c.address, req).None? ==> x.result == Err(Transport) && x.session.line.sent == s.line.sent
  {
    var paced := Paced(s.line, s.earliest);
    var encoded := c.codec.encode(c.address, req);
    if encoded.None? || |encoded.value| > BufferSize then
      Exchange(Err(Transport), Session(s.earliest, paced), [], [])
    else
      var written := Sent(paced, encoded.value);
      if !written.0 then
        Exchange(Err(Transport), Session(s.earliest, written.1), [], [])
      else
        var rx := Receive(c, written.1, c.responseTimeout, [], []);
        var earliest := if |rx.arrivals| > 0 then Last(rx.arrivals) + c.t35 else s.earliest;
        var session := Session(earliest, rx.line);
        if rx.failed then Exchange(Err(Transport), session, rx.received, rx.arrivals)
        else if |rx.received| == 0 then Exchange(Err(Timeout), session, [], rx.arrivals)
        else Exchange(Interpret(c.codec, rx.received), session, rx.received, rx.arrivals)
  }

  // ---------------------------------------------------------------------
  // Checking the decoded response of each kind of access.

  /** A one-register read succeeds only on a register reply of exactly one
      word, and then yields the transformed word. */
  function ReadOneReply<T>(response: Response, transform: Word -> Result<T>): (r: Result<T>)
    ensures r.Ok? ==> response.ReadHoldingRegisters? && |response.words| == 1
                      && r == transform(response.words[0])
    ensures response.ReadHoldingRegisters? && |response.words| == 1 ==> r == transform(response.words[0])
    ensures response.ReadHoldingRegisters? && |response.words| != 1
            ==> r == Err(UnexpectedResponseLength(|response.words|, 1))
    ensures !response.ReadHoldingRegisters? ==> r == Err(UnexpectedResponseType)
  {
    match response
    case ReadHoldingRegisters(data) =>
      if |data| == 1 then transform(data[0])
      else Err(UnexpectedResponseLength(|data|, 1))
    case _ => Err(UnexpectedResponseType)
  }

  /** A two-register read succeeds only on a register reply of exactly two
      words, and then yields the transformed pair. */
  function ReadTwoReply<T>(response: Response, transform: (Word, Word) -> Result<T>): (r: Result<T>)
    ensures r.Ok? ==> response.ReadHoldingRegisters? && |response.words| == 2
                      && r == transform(response.words[0], response.words[1])
    ensures response.ReadHoldingRegisters? && |response.words| == 2
            ==> r == transform(response.words[0], response.words[1])
    ensures response.ReadHoldingRegisters? && |response.words| != 2
            ==> r == Err(UnexpectedResponseLength(|response.words|, 2))
    ensures !response.ReadHoldingRegisters? ==> r == Err(UnexpectedResponseType)
  {
    match response
    case ReadHoldingRegisters(data) =>
      if |data| == 2 then transform(data[0], data[1])
      else Err(UnexpectedResponseLength(|data|, 2))
    case _ => Err(UnexpectedResponseType)
  }

  /** A one-register write succeeds exactly when the device echoes the same
      address and value. */
  function WriteOneReply(response: Response, address: Word, data: Word): (r: Result<()>)
    ensures r.Ok? <==> response == Response.WriteSingleRegister(address, data)
    ensures r.Err? && response.WriteSingleRegister? ==> r.error == UnexpectedResponseData
    ensures !response.WriteSingleRegister? ==> r == Err(UnexpectedResponseType)
  {
    match response
    case WriteSingleRegister(a, d) =>
      if a == address && d == data then Ok(()) else Err(UnexpectedResponseData)
    case _ => Err(UnexpectedResponseType)
  }

  /** A two-register write succeeds exactly when the device echoes the same
      address with a count of 2; a count other than 2 is the wrong type. */
  function WriteTwoReply(response: Response, address: Word): (r: Result<()>)
    ensures r.Ok? <==> response == Response.WriteMultipleRegisters(address, 2)
    ensures r == Err(UnexpectedResponseData)
            <==> response.WriteMultipleRegisters? && response.quantity == 2 && response.address != address
    ensures r.Err? ==> r.error == UnexpectedResponseData || r.error == UnexpectedResponseType
  {
    match response
    case WriteMultipleRegisters(a, 2) =>
      if a == address then Ok(()) else Err(UnexpectedResponseData)
    case _ => Err(UnexpectedResponseType)
  }

  /** A custom-function write succeeds exactly when the device echoes the
      same function code with identical bytes. */
  function CustomReply(response: Response, code: Byte, data: seq<Byte>): (r: Result<()>)
    ensures r.Ok? <==> response == Response.Custom(code, data)
    ensures r == Err(UnexpectedResponseData)
            <==> response.Custom? && response.code == code && response.bytes != data
    ensures r.Err? ==> r.error == UnexpectedResponseData || r.error == UnexpectedResponseType
  {
    match response
    case Custom(fc, d) =>
      if fc == code then (if d == data then Ok(()) else Err(UnexpectedResponseData))
      else Err(UnexpectedResponseType)
    case _ => Err(UnexpectedResponseType)
  }

  // ---------------------------------------------------------------------
  // The access helpers as functions of the session.

  /** A one-register read: the transaction's own error passes through, and
      success means a one-word register reply whose word transformed. */
  ghost function ReadOne<T>(c: Config, s: Session, address: Word, transform: Word -> Result<T>): (r: (Result<T>, Session))
    ensures var x := Transaction(c, s, Request.ReadHoldingRegisters(address, 1));
            && (x.result.Err? ==> r.0 == Err(x.result.error))
            && (r.0.Ok? ==> x.result.Ok? && x.result.value.ReadHoldingRegisters? && |x.result.value.words| == 1
                            && r.0 == transform(x.result.value.words[0]))
  {
    var x := Transaction(c, s, Request.ReadHoldingRegisters(address, 1));
    (if x.result.Err? then Err(x.result.error) else ReadOneReply(x.result.value, transform), x.session)
  }

  /** A two-register read, likewise with a two-word reply. */
  ghost function ReadTwo<T>(c: Config, s: Session, address: Word, transform: (Word, Word) -> Result<T>): (r: (Result<T>, Session))
    ensures var x := Transaction(c, s, Request.ReadHoldingRegisters(address, 2));
            && (x.result.Err? ==> r.0 == Err(x.result.error))
            && (r.0.Ok? ==> x.result.Ok? && x.result.value.ReadHoldingRegisters? && |x.result.value.words| == 2
                            && r.0 == transform(x.result.value.words[0], x.result.value.words[1]))
  {
    var x := Transaction(c, s, Request.ReadHoldingRegisters(address, 2));
    (if x.result.Err? then Err(x.result.error) else ReadTwoReply(x.result.value, transform), x.session)
  }

  /** A one-register write. A transform error is reported before anything
      is sent; success means the device echoed the address and the word; a
      write never fails with a length error. */
  ghost function WriteOne<T>(c: Config, s: Session, address: Word, value: T, transform: T -> Result<Word>): (r: (Result<()>, Session))
    ensures transform(value).Err? ==> r == (Err(transform(value).error), s)
    ensures r.0.Ok? ==> transform(value).Ok?
                        && var data := transform(value).value;
                           Transaction(c, s, Request.WriteSingleRegister(address, data)).result
                           == Ok(Response.WriteSingleRegister(address, data))
    ensures r.0.Err? && transform(value).Ok?
            ==> r.0.error in {Transport, Timeout, Modbus, UnexpectedResponseType, UnexpectedResponseData}
  {
    match transform(value)
    case Err(e) => (Err(e), s)
    case Ok(data) =>
      var x := Transaction(c, s, Request.WriteSingleRegister(address, data));
      (if x.result.Err? then Err(x.result.error) else WriteOneReply(x.result.value, address, data), x.session)
  }

  /** A two-register write: as `WriteOne`, with an echo of the address and
      a count of 2. */
  ghost function WriteTwo<T>(c: Config, s: Session, address: Word, value: T, transform: T -> Result<(Word, Word)>): (r: (Result<()>, Session))
    ensures transform(value).Err? ==> r == (Err(transform(value).error), s)
    ensures r.0.Ok? ==> transform(value).Ok?
                        && var data := transform(value).value;
                           Transaction(c, s, Request.WriteMultipleRegisters(address, [data.0, data.1])).result
                           == Ok(Response.WriteMultipleRegisters(address, 2))
    ensures r.0.Err? && transform(value).Ok?
            ==> r.0.error in {Transport, Timeout, Modbus, UnexpectedResponseType, UnexpectedResponseData}
  {
    match transform(value)
    case Err(e) => (Err(e), s)
    case Ok(data) =>
      var x := Transaction(c, s, Request.WriteMultipleRegisters(address, [data.0, data.1]));
      (if x.result.Err? then Err(x.result.error) else WriteTwoReply(x.result.value, address), x.session)
  }

  /** A 32-bit value sent big-endian under a custom function code. */
  ghost function WriteCustom(c: Config, s: Session, code: Byte, value: DWord): (r: (Result<()>, Session))
    ensures r.0.Ok? <==> Transaction(c, s, Request.Custom(code, DWordBytes(value))).result
                         == Ok(Response.Custom(code, DWordBytes(value)))
    ensures r.0.Err? ==> r.0.error in {Transport, Timeout, Modbus, UnexpectedResponseType, UnexpectedResponseData}
  {
    var data := DWordBytes(value);
    var x := Transaction(c, s, Request.Custom(code, data));
    (if x.result.Err? then Err(x.result.error) else CustomReply(x.result.value, code, data), x.session)
  }

  /** Plain one-register writes in order, stopping at the first failure,
      which is a transaction or echo error and never a length error. */
  ghost function WriteSequence(c: Config, s: Session, steps: seq<(Word, Word)>): (r: (Result<()>, Session))
    ensures r.0.Err? ==> r.0.error in {Transport, Timeout, Modbus, UnexpectedResponseType, UnexpectedResponseData}
    decreases |steps|
  {
    if steps == [] then (Ok(()), s)
    else
      var first := WriteOne(c, s, steps[0].0, steps[0].1, Raw);
      if first.0.Err? then first else WriteSequence(c, first.1, steps[1..])
  }

  /** The drive's code for each baud rate. */
  function BaudCode(baud: RtuBaud): (code: Word)
    ensures 800 <= code <= 803
  {
    match baud
    case Baud115200 => 803
    case Baud38400 => 802
    case Baud19200 => 801
    case Baud9600 => 800
  }

  /** The four writes of a baud rate change: enter configuration, the new
      code, the confirmation word, commit. */
  function BaudSteps(baud: RtuBaud): (steps: seq<(Word, Word)>)
    ensures |steps| == 4 && steps[0].0 == 0x00 && steps[3].0 == 0x00
    ensures forall other: RtuBaud :: BaudCode(other) == steps[1].1 <==> other == baud
  {
    [(0x00, 1), (0x02, BaudCode(baud)), (0x03, 129), (0x00, 506)]
  }

  /** Function codes of the two custom position writes. */
  const SetTargetPositionCode: Byte := 0x78
  const SetAbsolutePositionCode: Byte := 0x7B

  // ---------------------------------------------------------------------

  class Motor {
    const comm: Port
    const t15: Micros
    const t35: Micros
    const responseTimeout: Micros
    const address: Byte
    const buffer: array<Byte>
    var earliestNextFrame: Micros
    const codec: Codec

    ghost predicate Valid()
    {
      buffer.Length == BufferSize
    }

    function Cfg(): Config
    {
      Config(address, t15, t35, responseTimeout, codec)
    }

    function State(): Session
      reads this, comm
    {
      Session(earliestNextFrame, comm.State())
    }

    /** `Motor::new`: the timers come from the baud rate, the slave address
        is 1, and the first request may go out at once. */
    constructor (comm: Port, baud: RtuBaud, responseTimeout: Micros, codec: Codec)
      ensures Valid() && fresh(buffer)
      ensures this.comm == comm && address == 1
      ensures t15 == T15(baud) && t35 == T35(baud) && this.responseTimeout == responseTimeout
      ensures this.codec == codec
      ensures earliestNextFrame == comm.now
      ensures forall i :: 0 <= i < BufferSize ==> buffer[i] == 0
    {
      this.comm := comm;
      t15 := T15(baud);
      t35 := T35(baud);
      this.responseTimeout := responseTimeout;
      address := 0x01;
      buffer := new Byte[BufferSize](_ => 0);
      earliestNextFrame := comm.Now();
      this.codec := codec;
    }

    method ModbusTransaction(req: Request) returns (r: Result<Response>)
      requires Valid()
      modifies this, comm, buffer
      ensures var x := Transaction(Cfg(), old(State()), req);
              r == x.result && State() == x.session && buffer[..|x.received|] == x.received
    {
      // No request before the pacing instant
      comm.SleepUntil(earliestNextFrame);

      // Encode the request into the scratch buffer
      var encoded := codec.encode(address, req);
      if encoded.None? || |encoded.value| > buffer.Length {
        return Err(Transport);
      }
      var frame := encoded.value;
      forall k | 0 <= k < |frame| {
        buffer[k] := frame[k];
      }
      assert buffer[..|frame|] == frame;

      // Send it
      var ok := comm.WriteAll(buffer, |frame|);
      if !ok {
        return Err(Transport);
      }

      // Receive until the line falls silent
      var failed, totalRead := ReceiveResponse();
      if failed {
        return Err(Transport);
      }
      if totalRead == 0 {
        return Err(Timeout);
      }
      r := Interpret(codec, buffer[..totalRead]);
    }

    /** The receive loop of `modbus_transaction`: the first read waits up to
        the response timeout, every later one up to T1.5; each completed read
        appends to the buffer and moves the pacing instant to now + T3.5. */
    method ReceiveResponse() returns (failed: bool, totalRead: nat)
      requires Valid()
      modifies this, comm, buffer
      ensures var e := Receive(Cfg(), old(comm.State()), responseTimeout, [], []);
              failed == e.failed && totalRead == |e.received| && buffer[..totalRead] == e.received
              && comm.State() == e.line
              && earliestNextFrame == if |e.arrivals| > 0 then Last(e.arrivals) + t35 else old(earliestNextFrame)
    {
      ghost var start := comm.State();
      ghost var arrivals: seq<Micros> := [];
      var timeout := responseTimeout;
      totalRead := 0;
      while true
        invariant totalRead <= buffer.Length
        invariant Receive(Cfg(), start, responseTimeout, [], [])
                  == Receive(Cfg(), comm.State(), timeout, buffer[..totalRead], arrivals)
        invariant earliestNextFrame == if |arrivals| > 0 then Last(arrivals) + t35 else old(earliestNextFrame)
        decreases |comm.script|
      {
        var res;
        res, totalRead, arrivals := ReceiveOnce(timeout, totalRead, arrivals);
        if !res.Got? {
          return res.IoError?, totalRead;
        }
        timeout := t15;
      }
    }

    /** One pass of the receive loop: a read into the free room within
        `timeout`. A completed read moves the pacing instant to T3.5 after
        it and the loop goes on with T1.5; otherwise the loop ends, failed
        exactly on a read error. */
    method ReceiveOnce(timeout: Micros, totalRead: nat, ghost arrivals: seq<Micros>)
      returns (res: ReadResult, totalRead': nat, ghost arrivals': seq<Micros>)
      requires Valid() && totalRead <= BufferSize
      modifies this, comm, buffer
      ensures totalRead' <= BufferSize
      ensures res.Got? ==> Receive(Cfg(), old(comm.State()), timeout, old(buffer[..totalRead]), arrivals)
                           == Receive(Cfg(), comm.State(), t15, buffer[..totalRead'], arrivals')
      ensures !res.Got? ==> Receive(Cfg(), old(comm.State()), timeout, old(buffer[..totalRead]), arrivals)
                            == RxEnd(res.IoError?, buffer[..totalRead'], arrivals', comm.State())
      ensures res.Got? ==> |arrivals'| > 0 && earliestNextFrame == Last(arrivals') + t35
                           && |comm.script| < old(|comm.script|)
      ensures !res.Got? ==> arrivals' == arrivals && earliestNextFrame == old(earliestNextFrame)
    {
      res := comm.Read(buffer, totalRead, timeout);
      if res.Got? {
        ReceiveStep(Cfg(), old(comm.State()), timeout, old(buffer[..totalRead]), arrivals);
        totalRead' := totalRead + res.n;
        earliestNextFrame := comm.Now() + t35;
        arrivals' := arrivals + [comm.Now()];
      } else {
        ReceiveStop(Cfg(), old(comm.State()), timeout, old(buffer[..totalRead]), arrivals);
        totalRead', arrivals' := totalRead, arrivals;
      }
    }

    // -------------------------------------------------------------------
    // Access helpers.

    method ReadOneWordParameter<T>(address: Word, transform: Word -> Result<T>) returns (r: Result<T>)
      requires Valid()
      modifies this, comm, buffer
      ensures (r, State()) == ReadOne(Cfg(), old(State()), address, transform)
    {
      var response :- ModbusTransaction(Request.ReadHoldingRegisters(address, 1));
      r := ReadOneReply(response, transform);
    }

    method ReadTwoWordParameter<T>(address: Word, transform: (Word, Word) -> Result<T>) returns (r: Result<T>)
      requires Valid()
      modifies this, comm, buffer
      ensures (r, State()) == ReadTwo(Cfg(), old(State()), address, transform)
    {
      var response :- ModbusTransaction(Request.ReadHoldingRegisters(address, 2));
      r := ReadTwoReply(response, transform);
    }

    method WriteOneWordParameter<T>(address: Word, value: T, transform: T -> Result<Word>) returns (r: Result<()>)
      requires Valid()
      modifies this, comm, buffer
      ensures (r, State()) == WriteOne(Cfg(), old(State()), address, value, transform)
      ensures transform(value).Err? ==> unchanged(this, comm, buffer)
    {
      var data :- transform(value);
      var response :- ModbusTransaction(Request.WriteSingleRegister(address, data));
      r := WriteOneReply(response, address, data);
    }

    method WriteTwoWordParameter<T>(address: Word, value: T, transform: T -> Result<(Word, Word)>) returns (r: Result<()>)
      requires Valid()
      modifies this, comm, buffer
      ensures (r, State()) == WriteTwo(Cfg(), old(State()), address, value, transform)
      ensures transform(value).Err? ==> unchanged(this, comm, buffer)
    {
      var data :- transform(value);
      var response :- ModbusTransaction(Request.WriteMultipleRegisters(address, [data.0, data.1]));
      r := WriteTwoReply(response, address);
    }

    /** Changes the drive's baud rate: four plain writes, stopping at the
        first failure. */
    method SetBaudRate(baud: RtuBaud) returns (r: Result<()>)
      requires Valid()
      modifies this, comm, buffer
      ensures (r, State()) == WriteSequence(Cfg(), old(State()), BaudSteps(baud))
    {
      var code := BaudCode(baud);
      ghost var steps := BaudSteps(baud);
      ghost var s0 := State();
      var u :- WriteOneWordParameter<Word>(0x00, 1, Raw);
      ghost var s1 := State();
      assert WriteSequence(Cfg(), s0, steps) == WriteSequence(Cfg(), s1, steps[1..]);
      u :- WriteOneWordParameter<Word>(0x02, code, Raw);
      ghost var s2 := State();
      assert WriteSequence(Cfg(), s1, steps[1..]) == WriteSequence(Cfg(), s2, steps[2..]);
      u :- WriteOneWordParameter<Word>(0x03, 129, Raw);
      ghost var s3 := State();
      assert WriteSequence(Cfg(), s2, steps[2..]) == WriteSequence(Cfg(), s3, steps[3..]);
      u :- WriteOneWordParameter<Word>(0x00, 506, Raw);
      assert WriteSequence(Cfg(), s3, steps[3..]) == WriteSequence(Cfg(), State(), []);
      r := Ok(());
    }

    method SetTargetPositionCustom(value: DWord) returns (r: Result<()>)
      requires Valid()
      modifies this, comm, buffer
      ensures (r, State()) == WriteCustom(Cfg(), old(State()), SetTargetPositionCode, value)
    {
      var data := DWordBytes(value);
      var response :- ModbusTransaction(Request.Custom(SetTargetPositionCode, data));
      r := CustomReply(response, SetTargetPositionCode, data);
    }

    method SetAbsolutePositionCustom(value: DWord) returns (r: Result<()>)
      requires Valid()
      modifies this, comm, buffer
      ensures (r, State()) == WriteCustom(Cfg(), old(State()), SetAbsolutePositionCode, value)
    {
      var data := DWordBytes(value);
      var response :- ModbusTransaction(Request.Custom(SetAbsolutePositionCode, data));
      r := CustomReply(response, SetAbsolutePositionCode, data);
    }

    // -------------------------------------------------------------------
    // The named parameters (the floating-point ones are not modelled).

    method ModbusEnabled() returns (r: Result<bool>)
      requires Valid()
      modifies this, comm, buffer
      ensures (r, State()) == ReadOne(Cfg(), old(State()), Register(Parameter.ModbusEnabled), DecodeBool)
    {
      r := ReadOneWordParameter(Register(Parameter.ModbusEnabled), DecodeBool);
    }

    method SetModbusEnabled(value: bool) returns (r: Result<()>)
      requires Valid()
      modifies this, comm, buffer
      ensures (r, State()) == WriteOne(Cfg(), old(State()), Register(Parameter.ModbusEnabled), value, EncodeBool)
    {
      r := WriteOneWordParameter(Register(Parameter.ModbusEnabled), value, EncodeBool);
    }

    method DriveEnabled() returns (r: Result<bool>)
      requires Valid()
      modifies this, comm, buffer
      ensures (r, State()) == ReadOne(Cfg(), old(State()), Register(Parameter.DriveEnabled), DecodeBool)
    {
      r := ReadOneWordParameter(Register(Parameter.DriveEnabled), DecodeBool);
    }

    method SetDriveEnabled(value: bool) returns (r: Result<()>)
      requires Valid()
      modifies this, comm, buffer
      ensures (r, State()) == WriteOne(Cfg(), old(State()), Register(Parameter.DriveEnabled), value, EncodeBool)
    {
      r := WriteOneWordParameter(Register(Parameter.DriveEnabled), value, EncodeBool);
    }

    method TargetRpm() returns (r: Result<Word>)
      requires Valid()
      modifies this, comm, buffer
      ensures (r, State()) == ReadOne(Cfg(), old(State()), Register(Parameter.TargetRpm), Raw)
    {
      r := ReadOneWordParameter(Register(Parameter.TargetRpm), Raw);
    }

    method SetTargetRpm(value: Word) returns (r: Result<()>)
      requires Valid()
      modifies this, comm, buffer
      ensures (r, State()) == WriteOne(Cfg(), old(State()), Register(Parameter.TargetRpm), value, Raw)
    {
      r := WriteOneWordParameter(Register(Parameter.TargetRpm), value, Raw);
    }

    method Acceleration() returns (r: Result<Word>)
      requires Valid()
      modifies this, comm, buffer
      ensures (r, State()) == ReadOne(Cfg(), old(State()), Register(Parameter.Acceleration), Raw)
    {
      r := ReadOneWordParameter(Register(Parameter.Acceleration), Raw);
    }

    method SetAcceleration(value: Word) returns (r: Result<()>)
      requires Valid()
      modifies this, comm, buffer
      ensures (r, State()) == WriteOne(Cfg(), old(State()), Register(Parameter.Acceleration), value, Raw)
    {
      r := WriteOneWordParameter(Register(Parameter.Acceleration), value, Raw);
    }

    method WeakMagneticAngle() returns (r: Result<Word>)
      requires Valid()
      modifies this, comm, buffer
      ensures (r, State()) == ReadOne(Cfg(), old(State()), Register(Parameter.WeakMagneticAngle), Raw)
    {
      r := ReadOneWordParameter(Register(Parameter.WeakMagneticAngle), Raw);
    }

    method SetWeakMagneticAngle(value: Word) returns (r: Result<()>)
      requires Valid()
      modifies this, comm, buffer
      ensures (r, State()) == WriteOne(Cfg(), old(State()), Register(Parameter.WeakMagneticAngle), value, Raw)
    {
      r := WriteOneWordParameter(Register(Parameter.WeakMagneticAngle), value, Raw);
    }

    method SpeedKp() returns (r: Result<Word>)
      requires Valid()
      modifies this, comm, buffer
      ensures (r, State()) == ReadOne(Cfg(), old(State()), Register(Parameter.SpeedKp), Raw)
    {
      r := ReadOneWordParameter(Register(Parameter.SpeedKp), Raw);
    }

    method SetSpeedKp(value: Word) returns (r: Result<()>)
      requires Valid()
      modifies this, comm, buffer
      ensures (r, State()) == WriteOne(Cfg(), old(State()), Register(Parameter.SpeedKp), value, Raw)
    {
      r := WriteOneWordParameter(Register(Parameter.SpeedKp), value, Raw);
    }

    method SpeedITime() returns (r: Result<Micros>)
      requires Valid()
      modifies this, comm, buffer
      ensures (r, State()) == ReadOne(Cfg(), old(State()), Register(Parameter.SpeedITime), FromMillis)
    {
      r := ReadOneWordParameter(Register(Parameter.SpeedITime), FromMillis);
    }

    method SetSpeedITime(value: Micros) returns (r: Result<()>)
      requires Valid()
      modifies this, comm, buffer
      ensures (r, State()) == WriteOne(Cfg(), old(State()), Register(Parameter.SpeedITime), value, ToMillisWord)
    {
      r := WriteOneWordParameter(Register(Parameter.SpeedITime), value, ToMillisWord);
    }

    method PositionKp() returns (r: Result<Word>)
      requires Valid()
      modifies this, comm, buffer
      ensures (r, State()) == ReadOne(Cfg(), old(State()), Register(Parameter.PositionKp), Raw)
    {
      r := ReadOneWordParameter(Register(Parameter.PositionKp), Raw);
    }

    method SetPositionKp(value: Word) returns (r: Result<()>)
      requires Valid()
      modifies this, comm, buffer
      ensures (r, State()) == WriteOne(Cfg(), old(State()), Register(Parameter.PositionKp), value, Raw)
    {
      r := WriteOneWordParameter(Register(Parameter.PositionKp), value, Raw);
    }

    method DirPolarity() returns (r: Result<Direction>)
      requires Valid()
      modifies this, comm, buffer
      ensures (r, State()) == ReadOne(Cfg(), old(State()), Register(Parameter.DirPolarity), DecodeDirection)
    {
      r := ReadOneWordParameter(Register(Parameter.DirPolarity), DecodeDirection);
    }

    method SetDirPolarity(value: Direction) returns (r: Result<()>)
      requires Valid()
      modifies this, comm, buffer
      ensures (r, State()) == WriteOne(Cfg(), old(State()), Register(Parameter.DirPolarity), value, EncodeDirection)
    {
      r := WriteOneWordParameter(Register(Parameter.DirPolarity), value, EncodeDirection);
    }

    method ElectronicGearNumerator() returns (r: Result<Word>)
      requires Valid()
      modifies this, comm, buffer
      ensures (r, State()) == ReadOne(Cfg(), old(State()), Register(Parameter.GearNumerator), Raw)
    {
      r := ReadOneWordParameter(Register(Parameter.GearNumerator), Raw);
    }

    method SetElectronicGearNumerator(value: Word) returns (r: Result<()>)
      requires Valid()
      modifies this, comm, buffer
      ensures (r, State()) == WriteOne(Cfg(), old(State()), Register(Parameter.GearNumerator), value, Raw)
    {
      r := WriteOneWordParameter(Register(Parameter.GearNumerator), value, Raw);
    }

    method ElectronicGearDenominator() returns (r: Result<Word>)
      requires Valid()
      modifies this, comm, buffer
      ensures (r, State()) == ReadOne(Cfg(), old(State()), Register(Parameter.GearDenominator), Raw)
    {
      r := ReadOneWordParameter(Register(Parameter.GearDenominator), Raw);
    }

    method SetElectronicGearDenominator(value: Word) returns (r: Result<()>)
      requires Valid()
      modifies this, comm, buffer
      ensures (r, State()) == WriteOne(Cfg(), old(State()), Register(Parameter.GearDenominator), value, Raw)
    {
      r := WriteOneWordParameter(Register(Parameter.GearDenominator), value, Raw);
    }

    method TargetPosition() returns (r: Result<DWord>)
      requires Valid()
      modifies this, comm, buffer
      ensures (r, State()) == ReadTwo(Cfg(), old(State()), Register(Parameter.TargetPosition), DecodePosition)
    {
      r := ReadTwoWordParameter(Register(Parameter.TargetPosition), DecodePosition);
    }

    method SetTargetPosition(value: DWord) returns (r: Result<()>)
      requires Valid()
      modifies this, comm, buffer
      ensures (r, State()) == WriteTwo(Cfg(), old(State()), Register(Parameter.TargetPosition), value, EncodePosition)
    {
      r := WriteTwoWordParameter(Register(Parameter.TargetPosition), value, EncodePosition);
    }

    method AlarmCode() returns (r: Result<Option<AlarmCode>>)
      requires Valid()
      modifies this, comm, buffer
      ensures (r, State()) == ReadOne(Cfg(), old(State()), Register(Parameter.Alarm), DecodeAlarm)
    {
      r := ReadOneWordParameter(Register(Parameter.Alarm), DecodeAlarm);
    }

    method Temperature() returns (r: Result<Word>)
      requires Valid()
      modifies this, comm, buffer
      ensures (r, State()) == ReadOne(Cfg(), old(State()), Register(Parameter.Temperature), Raw)
    {
      r := ReadOneWordParameter(Register(Parameter.Temperature), Raw);
    }

    method Pwm() returns (r: Result<Word>)
      requires Valid()
      modifies this, comm, buffer
      ensures (r, State()) == ReadOne(Cfg(), old(State()), Register(Parameter.Pwm), Raw)
    {
      r := ReadOneWordParameter(Register(Parameter.Pwm), Raw);
    }

    method ParameterSaveFlag() returns (r: Result<bool>)
      requires Valid()
      modifies this, comm, buffer
      ensures (r, State()) == ReadOne(Cfg(), old(State()), Register(Parameter.ParameterSaveFlag), DecodeBool)
    {
      r := ReadOneWordParameter(Register(Parameter.ParameterSaveFlag), DecodeBool);
    }

    method SetParameterSaveFlag(value: bool) returns (r: Result<()>)
      requires Valid()
      modifies this, comm, buffer
      ensures (r, State()) == WriteOne(Cfg(), old(State()), Register(Parameter.ParameterSaveFlag), value, EncodeBool)
    {
      r := WriteOneWordParameter(Register(Parameter.ParameterSaveFlag), value, EncodeBool);
    }

    method DeviceAddress() returns (r: Result<Word>)
      requires Valid()
      modifies this, comm, buffer
      ensures (r, State()) == ReadOne(Cfg(), old(State()), Register(Parameter.DeviceAddress), Raw)
    {
      r := ReadOneWordParameter(Register(Parameter.DeviceAddress), Raw);
    }

    method AbsolutePosition() returns (r: Result<DWord>)
      requires Valid()
      modifies this, comm, buffer
      ensures (r, State()) == ReadTwo(Cfg(), old(State()), Register(Parameter.AbsolutePosition), DecodePosition)
    {
      r := ReadTwoWordParameter(Register(Parameter.AbsolutePosition), DecodePosition);
    }

    method SetAbsolutePosition(value: DWord) returns (r: Result<()>)
      requires Valid()
      modifies this, comm, buffer
      ensures (r, State()) == WriteTwo(Cfg(), old(State()), Register(Parameter.AbsolutePosition), value, EncodePosition)
    {
      r := WriteTwoWordParameter(Register(Parameter.AbsolutePosition), value, EncodePosition);
    }

    method StillMaximumAllowedCurrent() returns (r: Result<Word>)
      requires Valid()
      modifies this, comm, buffer
      ensures (r, State()) == ReadOne(Cfg(), old(State()), Register(Parameter.StillMaxCurrent), Raw)
    {
      r := ReadOneWordParameter(Register(Parameter.StillMaxCurrent), Raw);
    }

    method SetStillMaximumAllowedCurrent(value: Word) returns (r: Result<()>)
      requires Valid()
      modifies this, comm, buffer
      ensures (r, State()) == WriteOne(Cfg(), old(State()), Register(Parameter.StillMaxCurrent), value, Raw)
    {
      r := WriteOneWordParameter(Register(Parameter.StillMaxCurrent), value, Raw);
    }

    method SpecificFunction() returns (r: Result<Word>)
      requires Valid()
      modifies this, comm, buffer
      ensures (r, State()) == ReadOne(Cfg(), old(State()), Register(Parameter.SpecificFunction), Raw)
    {
      r := ReadOneWordParameter(Register(Parameter.SpecificFunction), Raw);
    }

    method SetSpecificFunction(value: Word) returns (r: Result<()>)
      requires Valid()
      modifies this, comm, buffer
      ensures (r, State()) == WriteOne(Cfg(), old(State()), Register(Parameter.SpecificFunction), value, Raw)
    {
      r := WriteOneWordParameter(Register(Parameter.SpecificFunction), value, Raw);
    }
  }
}
