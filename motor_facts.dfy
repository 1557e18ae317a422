/** What the transaction engine guarantees: framing by silence, pacing of
    requests, the timeout and error outcomes, and the effect of the
    compound operations. */
module MotorFacts {
  import opened Types
  import opened Errors
  import opened Modbus
  import opened Transport
  import opened Parameters
  import opened Motor

  /** The receive loop from any point: the clock only moves forward, the
      first new read completes within the current window and each later one
      within T1.5 of the one before, bytes only come with completed reads,
      and a loop ended by an elapsed wait ends exactly one window after the
      last completed read. */
  lemma {:induction false} FramedBySilence(c: Config, line: Line, timeout: Micros, received: seq<Byte>, arrivals: seq<Micros>)
    requires |received| <= BufferSize
    ensures var e := Receive(c, line, timeout, received, arrivals);
            && line.now <= e.line.now
            && e.line.sent == line.sent
            && (|e.arrivals| > |arrivals| ==> line.now <= e.arrivals[|arrivals|] <= line.now + timeout
                                              && line.now <= Last(e.arrivals) <= e.line.now)
            && (forall i :: |arrivals| <= i < |e.arrivals| - 1 ==> e.arrivals[i] <= e.arrivals[i + 1] <= e.arrivals[i] + c.t15)
            && (|e.received| > |received| ==> |e.arrivals| > |arrivals|)
            && (!e.failed ==> e.line.now == if |e.arrivals| > |arrivals| then Last(e.arrivals) + c.t15 else line.now + timeout)
    decreases |line.script|
  {
    var next := NextRead(line, BufferSize - |received|, timeout);
    if !next.0.Completed? {
      ReceiveStop(c, line, timeout, received, arrivals);
    } else {
      ReceiveStep(c, line, timeout, received, arrivals);
      var received', arrivals' := received + next.0.bytes, arrivals + [next.1.now];
      FramedBySilence(c, next.1, c.t15, received', arrivals');
      var e := Receive(c, next.1, c.t15, received', arrivals');
      assert e.arrivals[..|arrivals'|] == arrivals';
      assert e.arrivals[|arrivals|] == next.1.now;
      forall i | |arrivals| <= i < |e.arrivals| - 1
        ensures e.arrivals[i] <= e.arrivals[i + 1] <= e.arrivals[i] + c.t15
      {
        if i == |arrivals| {
          assert e.arrivals[i + 1] == e.arrivals[|arrivals'|];
        }
      }
    }
  }

  /** The clock never runs backwards across a transaction, and the instant
      before which no request may be sent never decreases. It moves only
      when a read completes, and then to T3.5 after the last one. */
  lemma PacingNeverDecreases(c: Config, s: Session, req: Request)
    ensures var x := Transaction(c, s, req);
            && s.line.now <= x.session.line.now
            && s.earliest <= x.session.earliest
            && (|x.arrivals| == 0 ==> x.session.earliest == s.earliest)
            && (|x.arrivals| > 0 ==> x.session.earliest == Last(x.arrivals) + c.t35
                                     && Last(x.arrivals) <= x.session.line.now)
  {
    var paced := Paced(s.line, s.earliest);
    var encoded := c.codec.encode(c.address, req);
    if encoded.Some? && |encoded.value| <= BufferSize {
      var written := Sent(paced, encoded.value);
      if written.0 {
        FramedBySilence(c, written.1, c.responseTimeout, [], []);
      }
    }
  }

  /** A transaction writes at most one frame: the encoding of its request,
      never before the pacing instant and never before the clock's reading
      when the transaction began. A successful transaction did write it. */
  lemma RequestNotBeforeEarliest(c: Config, s: Session, req: Request)
    ensures var x := Transaction(c, s, req);
            var sent, sent' := s.line.sent, x.session.line.sent;
            && (sent' == sent || (|sent'| == |sent| + 1 && sent'[..|sent|] == sent))
            && (|sent'| > |sent| ==> var f := sent'[|sent|];
                                     f.at >= s.earliest && f.at >= s.line.now
                                     && c.codec.encode(c.address, req) == Some(f.bytes))
            && (x.result.Ok? ==> |sent'| == |sent| + 1)
  {
    var paced := Paced(s.line, s.earliest);
    var encoded := c.codec.encode(c.address, req);
    if encoded.Some? && |encoded.value| <= BufferSize {
      var written := Sent(paced, encoded.value);
      if written.0 {
        FramedBySilence(c, written.1, c.responseTimeout, [], []);
        assert written.1.sent[..|s.line.sent|] == s.line.sent;
      }
    }
  }

  /** Of two transactions in a row, the second sends its request at least
      T3.5 after the last byte of the first one's response arrived. */
  lemma SilenceBeforeNextRequest(c: Config, s: Session, first: Request, second: Request)
    ensures var x1 := Transaction(c, s, first);
            var x2 := Transaction(c, x1.session, second);
            var sent := x1.session.line.sent;
            |x1.arrivals| > 0 && |x2.session.line.sent| > |sent|
            ==> x2.session.line.sent[|sent|].at >= Last(x1.arrivals) + c.t35
  {
    var x1 := Transaction(c, s, first);
    PacingNeverDecreases(c, s, first);
    RequestNotBeforeEarliest(c, x1.session, second);
  }

  /** A device that stays silent for the whole response timeout gives
      `Timeout`; the clock then reads exactly one response timeout after the
      request went out, and the pacing instant is left alone. */
  lemma SilentDeviceTimesOut(c: Config, s: Session, req: Request, frame: seq<Byte>)
    requires c.codec.encode(c.address, req) == Some(frame) && |frame| <= BufferSize
    requires var written := Sent(Paced(s.line, s.earliest), frame);
             written.0 && NextRead(written.1, BufferSize, c.responseTimeout).0.TimedOut?
    ensures var x := Transaction(c, s, req);
            var written := Sent(Paced(s.line, s.earliest), frame).1;
            && x.result == Err(Timeout)
            && x.session.earliest == s.earliest
            && x.session.line.now == written.now + c.responseTimeout
  {
  }

  /** Bytes that arrive within the response timeout are never a `Timeout`. */
  lemma AnswerIsNoTimeout(c: Config, s: Session, req: Request, frame: seq<Byte>)
    requires c.codec.encode(c.address, req) == Some(frame) && |frame| <= BufferSize
    requires var written := Sent(Paced(s.line, s.earliest), frame);
             var first := NextRead(written.1, BufferSize, c.responseTimeout).0;
             written.0 && first.Completed? && |first.bytes| > 0
    ensures Transaction(c, s, req).result != Err(Timeout)
  {
    var written := Sent(Paced(s.line, s.earliest), frame);
    var next := NextRead(written.1, BufferSize, c.responseTimeout);
    var rx := Receive(c, written.1, c.responseTimeout, [], []);
    assert next == NextRead(written.1, BufferSize - 0, c.responseTimeout);
    var empty: seq<Byte>, none: seq<Micros> := [], [];
    assert rx == Receive(c, next.1, c.t15, empty + next.0.bytes, none + [next.1.now]);
  }

  /** The reads of the loop take events off the line in order. Each
      completed read takes a chunk of bytes; a loop ended by a read error
      took that error last, and a loop ended by silence took nothing more.
      So the loop performs at most one read per event, plus the last. */
  lemma {:induction false} ReceiveConsumes(c: Config, line: Line, timeout: Micros, received: seq<Byte>, arrivals: seq<Micros>)
    requires |received| <= BufferSize
    ensures var e := Receive(c, line, timeout, received, arrivals);
            var k := |line.script| - |e.line.script|;
            && 0 <= k && e.line.script == line.script[k..]
            && |e.arrivals| - |arrivals| == (if e.failed then k - 1 else k)
            && (forall j :: 0 <= j < k ==> line.script[j].Arrive? || (j == k - 1 && e.failed))
            && (e.failed <==> 0 < k && line.script[k - 1].ReadFault?)
    decreases |line.script|
  {
    var next := NextRead(line, BufferSize - |received|, timeout);
    if !next.0.Completed? {
      ReceiveStop(c, line, timeout, received, arrivals);
    } else {
      ReceiveStep(c, line, timeout, received, arrivals);
      var received', arrivals' := received + next.0.bytes, arrivals + [next.1.now];
      ReceiveConsumes(c, next.1, c.t15, received', arrivals');
      var e := Receive(c, next.1, c.t15, received', arrivals');
      var k := |line.script| - |e.line.script|;
      assert line.script[0].Arrive? && next.1.script == line.script[1..];
      forall j | 0 <= j < k
        ensures line.script[j].Arrive? || (j == k - 1 && e.failed)
      {
        if j > 0 {
          assert line.script[j] == next.1.script[j - 1];
        }
      }
      if 1 < k {
        assert line.script[k - 1] == next.1.script[k - 2];
      }
    }
  }

  /** `rest` is what the loop left of `script`: it took the events before
      it in order, all of them chunks of bytes except possibly the last. */
  ghost predicate TakenInOrder(script: seq<Event>, rest: seq<Event>)
  {
    var k := |script| - |rest|;
    && 0 <= k && rest == script[k..]
    && forall j :: 0 <= j < k - 1 ==> script[j].Arrive?
  }

  /** The last event the loop took before leaving `rest` was a read error. */
  ghost predicate TookFaultLast(script: seq<Event>, rest: seq<Event>)
  {
    var k := |script| - |rest|;
    0 < k <= |script| && script[k - 1].ReadFault?
  }

  /** After the request went out, a read error at any point of the loop (the
      last event it took) ends the transaction with `Transport`; every event
      taken before it was a chunk of bytes. `Transport` after a sent request
      comes only from such a read error or from the decoder. */
  lemma ReadFaultIsTransport(c: Config, s: Session, req: Request, frame: seq<Byte>)
    requires c.codec.encode(c.address, req) == Some(frame) && |frame| <= BufferSize
    requires Sent(Paced(s.line, s.earliest), frame).0
    ensures var x := Transaction(c, s, req);
            var script := Sent(Paced(s.line, s.earliest), frame).1.script;
            && TakenInOrder(script, x.session.line.script)
            && (TookFaultLast(script, x.session.line.script) ==> x.result == Err(Transport))
            && (x.result == Err(Transport)
                ==> TookFaultLast(script, x.session.line.script) || c.codec.decode(x.received).DecodeError?)
  {
    var written := Sent(Paced(s.line, s.earliest), frame).1;
    ReceiveConsumes(c, written, c.responseTimeout, [], []);
  }

  /** Requests that cannot be encoded into the buffer, and writes that fail,
      are `Transport` errors after which nothing is read. */
  lemma SendFailureIsTransport(c: Config, s: Session, req: Request)
    requires var encoded := c.codec.encode(c.address, req);
             encoded.None? || |encoded.value| > BufferSize
             || !Sent(Paced(s.line, s.earliest), encoded.value).0
    ensures var x := Transaction(c, s, req);
            x.result == Err(Transport) && x.session.earliest == s.earliest && x.received == []
            && x.session.line.sent == s.line.sent
  {
  }

  /** A successful transaction decoded a frame gathered by silence: its reads
      completed within the response timeout and then T1.5 of each other, the
      loop stopped T1.5 after the last one, and the next request may go out
      T3.5 after it. */
  lemma ResponseFramedBySilence(c: Config, s: Session, req: Request)
    ensures var x := Transaction(c, s, req);
            x.result.Ok? ==>
              && |x.arrivals| > 0
              && 0 < |x.received| <= BufferSize
              && x.result == Interpret(c.codec, x.received)
              && x.arrivals[0] <= Paced(s.line, s.earliest).now + c.responseTimeout
              && (forall i :: 0 <= i < |x.arrivals| - 1 ==> x.arrivals[i] <= x.arrivals[i + 1] <= x.arrivals[i] + c.t15)
              && x.session.line.now == Last(x.arrivals) + c.t15
              && x.session.earliest == Last(x.arrivals) + c.t35
  {
    var paced := Paced(s.line, s.earliest);
    var encoded := c.codec.encode(c.address, req);
    if encoded.Some? && |encoded.value| <= BufferSize {
      var written := Sent(paced, encoded.value);
      if written.0 {
        FramedBySilence(c, written.1, c.responseTimeout, [], []);
      }
    }
  }

  // ---------------------------------------------------------------------
  // The access layer.

  /** A plain register read returns the device's word unchanged, and only
      from a one-word register reply. */
  lemma PlainReadIsIdentity(c: Config, s: Session, address: Word, w: Word)
    ensures ReadOne(c, s, address, Raw).0 == Ok(w)
            <==> Transaction(c, s, Request.ReadHoldingRegisters(address, 1)).result
                 == Ok(Response.ReadHoldingRegisters([w]))
  {
    var x := Transaction(c, s, Request.ReadHoldingRegisters(address, 1));
    if ReadOne(c, s, address, Raw).0 == Ok(w) {
      assert x.result.value.words == [x.result.value.words[0]];
    }
  }

  /** A plain register write sends the argument unchanged and succeeds only
      on the exact echo. */
  lemma PlainWriteIsIdentity(c: Config, s: Session, address: Word, w: Word)
    ensures var x := Transaction(c, s, Request.WriteSingleRegister(address, w));
            WriteOne(c, s, address, w, Raw).0.Ok? <==> x.result == Ok(Response.WriteSingleRegister(address, w))
  {
  }

  /** Reading the alarm register: 0x12 is an overflow alarm, and 0x11 (no
      alarm state has that code) is rejected. */
  lemma AlarmReadExamples(c: Config, s: Session)
    ensures var x := Transaction(c, s, Request.ReadHoldingRegisters(Register(Alarm), 1));
            && (x.result == Ok(Response.ReadHoldingRegisters([0x12]))
                ==> ReadOne(c, s, Register(Alarm), DecodeAlarm).0 == Ok(Some(Overflow)))
            && (x.result == Ok(Response.ReadHoldingRegisters([0x11]))
                ==> ReadOne(c, s, Register(Alarm), DecodeAlarm).0 == Err(UnexpectedResponseData))
  {
  }

  /** Reading the absolute position as the words (0x0005, 0x0000) gives 5; a
      reply of one word is a length error naming 1 word got and 2 expected. */
  lemma AbsolutePositionReadExamples(c: Config, s: Session)
    ensures var x := Transaction(c, s, Request.ReadHoldingRegisters(Register(AbsolutePosition), 2));
            && (x.result == Ok(Response.ReadHoldingRegisters([0x0005, 0x0000]))
                ==> ReadTwo(c, s, Register(AbsolutePosition), DecodePosition).0 == Ok(5))
            && (x.result == Ok(Response.ReadHoldingRegisters([0x0005]))
                ==> ReadTwo(c, s, Register(AbsolutePosition), DecodePosition).0 == Err(UnexpectedResponseLength(1, 2)))
  {
  }

  /** A position written through the two-register path and read back from
      a device that stored the words it was sent is the same position. */
  lemma PositionWriteThenRead(c: Config, s: Session, p: Parameter, v: DWord)
    requires p == TargetPosition || p == AbsolutePosition
    ensures var (w0, w1) := EncodePosition(v).value;
            var sent := Transaction(c, s, Request.WriteMultipleRegisters(Register(p), [w0, w1]));
            var s' := sent.session;
            var read := Transaction(c, s', Request.ReadHoldingRegisters(Register(p), 2));
            sent.result == Ok(Response.WriteMultipleRegisters(Register(p), 2))
            && read.result == Ok(Response.ReadHoldingRegisters([w0, w1]))
            ==> WriteTwo(c, s, Register(p), v, EncodePosition).0 == Ok(())
                && ReadTwo(c, s', Register(p), DecodePosition).0 == Ok(v)
  {
    PositionRoundTrip(v);
  }

  /** Writing `true` to the modbus-enable register and reading it back from a
      device that echoed and stored the word gives `true`. */
  lemma EnableWriteThenRead(c: Config, s: Session)
    ensures var sent := Transaction(c, s, Request.WriteSingleRegister(0x00, 1));
            var s' := sent.session;
            var read := Transaction(c, s', Request.ReadHoldingRegisters(0x00, 1));
            sent.result == Ok(Response.WriteSingleRegister(0x00, 1))
            && read.result == Ok(Response.ReadHoldingRegisters([1]))
            ==> WriteOne(c, s, Register(ModbusEnabled), true, EncodeBool).0 == Ok(())
                && ReadOne(c, s', Register(ModbusEnabled), DecodeBool).0 == Ok(true)
  {
  }

  /** A custom position write succeeds only when the device echoes the
      function code and the four bytes, and those bytes are the value in
      big-endian order. */
  lemma CustomEchoCarriesValue(c: Config, s: Session, code: Byte, v: DWord)
    ensures var x := Transaction(c, s, Request.Custom(code, DWordBytes(v)));
            WriteCustom(c, s, code, v).0.Ok?
            <==> x.result.Ok? && x.result.value.Custom? && x.result.value.code == code
                 && |x.result.value.bytes| == 4 && DWordOfBytes(x.result.value.bytes) == v
  {
    var x := Transaction(c, s, Request.Custom(code, DWordBytes(v)));
    DWordBytesRoundTrip(v);
    if x.result.Ok? && x.result.value.Custom? && |x.result.value.bytes| == 4 {
      DWordOfBytesRoundTrip(x.result.value.bytes);
    }
  }

  /** Writes in sequence that all succeed sent one frame per step, in order,
      each the encoding of that step's single-register write. */
  lemma {:induction false} WriteSequenceSendsSteps(c: Config, s: Session, steps: seq<(Word, Word)>)
    ensures var (r, s') := WriteSequence(c, s, steps);
            var sent, sent' := s.line.sent, s'.line.sent;
            r.Ok? ==> && |sent'| == |sent| + |steps|
                      && sent'[..|sent|] == sent
                      && forall i :: 0 <= i < |steps| ==>
                           c.codec.encode(c.address, Request.WriteSingleRegister(steps[i].0, steps[i].1))
                           == Some(sent'[|sent| + i].bytes)
    decreases |steps|
  {
    if steps != [] {
      var req := Request.WriteSingleRegister(steps[0].0, steps[0].1);
      var first := WriteOne(c, s, steps[0].0, steps[0].1, Raw);
      var whole := WriteSequence(c, s, steps);
      if whole.0.Ok? {
        assert first.0.Ok? && whole == WriteSequence(c, first.1, steps[1..]);
        RequestNotBeforeEarliest(c, s, req);
        assert first.1 == Transaction(c, s, req).session;
        WriteSequenceSendsSteps(c, first.1, steps[1..]);
        var s' := whole.1;
        var mid := first.1.line.sent;
        assert |mid| == |s.line.sent| + 1;
        assert s'.line.sent[..|mid|] == mid;
        assert s'.line.sent[..|s.line.sent|] == mid[..|s.line.sent|];
        forall i | 0 <= i < |steps|
          ensures c.codec.encode(c.address, Request.WriteSingleRegister(steps[i].0, steps[i].1))
                  == Some(s'.line.sent[|s.line.sent| + i].bytes)
        {
          if i > 0 {
            assert steps[1..][i - 1] == steps[i];
          }
        }
      }
    }
  }

  /** The baud rate change writes 1 to 0x00, the rate's code to 0x02, 129
      to 0x03 and 506 to 0x00, in that order; the codes of distinct rates
      differ. */
  lemma BaudChangeSequence(c: Config, s: Session, baud: RtuBaud, other: RtuBaud)
    ensures var (r, s') := WriteSequence(c, s, BaudSteps(baud));
            var sent, sent' := s.line.sent, s'.line.sent;
            r.Ok? ==> && |sent'| == |sent| + 4
                      && c.codec.encode(c.address, Request.WriteSingleRegister(0x00, 1)) == Some(sent'[|sent|].bytes)
                      && c.codec.encode(c.address, Request.WriteSingleRegister(0x02, BaudCode(baud))) == Some(sent'[|sent| + 1].bytes)
                      && c.codec.encode(c.address, Request.WriteSingleRegister(0x03, 129)) == Some(sent'[|sent| + 2].bytes)
                      && c.codec.encode(c.address, Request.WriteSingleRegister(0x00, 506)) == Some(sent'[|sent| + 3].bytes)
    ensures baud != other ==> BaudCode(baud) != BaudCode(other)
  {
    WriteSequenceSendsSteps(c, s, BaudSteps(baud));
  }

  /** One step of a nonempty sequence of writes. */
  lemma WriteSequenceStep(c: Config, s: Session, steps: seq<(Word, Word)>)
    requires steps != []
    ensures var first := WriteOne(c, s, steps[0].0, steps[0].1, Raw);
            WriteSequence(c, s, steps) == if first.0.Err? then first else WriteSequence(c, first.1, steps[1..])
  {
  }

  /** The write of step `i` is the one that ended the sequence `r`: every
      step before it succeeded, and its own write gave `r`. */
  ghost predicate FailsAt(c: Config, s: Session, steps: seq<(Word, Word)>, i: nat, r: (Result<()>, Session))
  {
    && i < |steps|
    && WriteSequence(c, s, steps[..i]).0.Ok?
    && WriteOne(c, WriteSequence(c, s, steps[..i]).1, steps[i].0, steps[i].1, Raw) == r
  }

  /** A failed sequence of writes failed at one step, after all the steps
      before it had succeeded. */
  lemma {:induction false} WriteSequenceFailsAtOneStep(c: Config, s: Session, steps: seq<(Word, Word)>)
    ensures var r := WriteSequence(c, s, steps);
            r.0.Err? ==> exists i :: FailsAt(c, s, steps, i, r)
    decreases |steps|
  {
    var r := WriteSequence(c, s, steps);
    if steps != [] && r.0.Err? {
      var first := WriteOne(c, s, steps[0].0, steps[0].1, Raw);
      WriteSequenceStep(c, s, steps);
      if first.0.Err? {
        assert steps[..0] == [];
        assert FailsAt(c, s, steps, 0, r);
      } else {
        assert r == WriteSequence(c, first.1, steps[1..]);
        WriteSequenceFailsAtOneStep(c, first.1, steps[1..]);
        var j: nat :| FailsAt(c, first.1, steps[1..], j, r);
        var before := steps[..j + 1];
        assert before[0] == steps[0] && before[1..] == steps[1..][..j];
        WriteSequenceStep(c, s, before);
        assert WriteSequence(c, s, before) == WriteSequence(c, first.1, steps[1..][..j]);
        assert steps[j + 1] == steps[1..][j];
        assert FailsAt(c, s, steps, j + 1, r);
      }
    }
  }

  /** Once a prefix of the steps has failed, the remaining steps are never
      written: the whole sequence ends with the prefix's result and session. */
  lemma {:induction false} WriteSequenceStopsAtFailure(c: Config, s: Session, steps: seq<(Word, Word)>, i: nat)
    requires i <= |steps|
    ensures WriteSequence(c, s, steps[..i]).0.Err? ==> WriteSequence(c, s, steps) == WriteSequence(c, s, steps[..i])
    decreases i
  {
    if 0 < i {
      var first := WriteOne(c, s, steps[0].0, steps[0].1, Raw);
      var prefix := steps[..i];
      assert prefix[0] == steps[0];
      WriteSequenceStep(c, s, steps);
      WriteSequenceStep(c, s, prefix);
      if first.0.Ok? {
        assert prefix[1..] == steps[1..][..i - 1];
        WriteSequenceStopsAtFailure(c, first.1, steps[1..], i - 1);
      }
    }
  }

  /** A baud change stops at its first failed write. If the first write
      fails, that is the result. If the rate-code write fails, the last
      two writes, including the final commit of 506, are never sent. */
  lemma BaudChangeStopsAtFailure(c: Config, s: Session, baud: RtuBaud)
    ensures var first := WriteOne<Word>(c, s, 0x00, 1, Raw);
            first.0.Err? ==> WriteSequence(c, s, BaudSteps(baud)) == first
    ensures var r := WriteSequence(c, s, BaudSteps(baud));
            r.0.Err? ==> exists i :: FailsAt(c, s, BaudSteps(baud), i, r)
    ensures forall i :: 0 <= i <= 4 && WriteSequence(c, s, BaudSteps(baud)[..i]).0.Err?
              ==> WriteSequence(c, s, BaudSteps(baud)) == WriteSequence(c, s, BaudSteps(baud)[..i])
  {
    WriteSequenceFailsAtOneStep(c, s, BaudSteps(baud));
    forall i | 0 <= i <= 4 && WriteSequence(c, s, BaudSteps(baud)[..i]).0.Err?
      ensures WriteSequence(c, s, BaudSteps(baud)) == WriteSequence(c, s, BaudSteps(baud)[..i])
    {
      WriteSequenceStopsAtFailure(c, s, BaudSteps(baud), i);
    }
  }

  // ---------------------------------------------------------------------
  // A response of 64 bytes or more.

  /** The read of the source: once the buffer is full it reads into an empty
      slice, which the transport may answer at once with zero bytes, taking
      nothing from the line and letting no time pass. */
  function ReadAsWritten(l: Line, room: nat, timeout: Micros): (r: (ReadOutcome, Line))
    ensures room == 0 ==> r == (Completed([]), l)
    ensures r.0.Completed? ==> |r.0.bytes| <= room
  {
    if room == 0 then (Completed([]), l) else NextRead(l, room, timeout)
  }

  /** Whether the receive loop built on `ReadAsWritten` ends within `fuel`
      reads, with `total` bytes held. */
  ghost function ExitsWithin(c: Config, fuel: nat, line: Line, timeout: Micros, total: nat): (r: bool)
    requires total <= BufferSize
    ensures r ==> 0 < fuel
    ensures 0 < fuel && !ReadAsWritten(line, BufferSize - total, timeout).0.Completed? ==> r
    decreases fuel
  {
    if fuel == 0 then false
    else
      var next := ReadAsWritten(line, BufferSize - total, timeout);
      match next.0
      case Completed(bytes) => ExitsWithin(c, fuel - 1, next.1, c.t15, total + |bytes|)
      case _ => true
  }

  /** As written, a loop holding a full buffer never ends, however many
      reads it is given. */
  lemma {:induction false} FullBufferNeverExits(c: Config, fuel: nat, line: Line, timeout: Micros)
    ensures !ExitsWithin(c, fuel, line, timeout, BufferSize)
    decreases fuel
  {
    if fuel > 0 {
      FullBufferNeverExits(c, fuel - 1, line, c.t15);
    }
  }

  /** As written, a reply whose first chunk carries 64 bytes or more fills
      the buffer and the loop never ends. */
  lemma LongReplyNeverEndsAsWritten(c: Config, line: Line, bytes: seq<Byte>, fuel: nat)
    requires |line.script| > 0 && line.script[0] == Arrive(line.now, bytes) && |bytes| >= BufferSize
    ensures !ExitsWithin(c, fuel, line, c.responseTimeout, 0)
  {
    if fuel > 0 {
      var next := ReadAsWritten(line, BufferSize, c.responseTimeout);
      assert next.0 == Completed(bytes[..BufferSize]);
      FullBufferNeverExits(c, fuel - 1, next.1, c.t15);
    }
  }

  /** In the model the same reply ends the loop by silence, T1.5 after it
      arrived, with the first 64 bytes held and the rest dropped. */
  lemma LongReplyEndsInModel(c: Config, line: Line, bytes: seq<Byte>)
    requires line.script == [Arrive(line.now, bytes)] && |bytes| >= BufferSize
    ensures var e := Receive(c, line, c.responseTimeout, [], []);
            !e.failed && e.received == bytes[..BufferSize] && e.line.now == line.now + c.t15
  {
    var next := NextRead(line, BufferSize, c.responseTimeout);
    assert next.0 == Completed(bytes[..BufferSize]);
    ReceiveStep(c, line, c.responseTimeout, [], []);
    var received: seq<Byte>, arrivals: seq<Micros> := [] + bytes[..BufferSize], [] + [next.1.now];
    ReceiveStop(c, next.1, c.t15, received, arrivals);
  }
}
