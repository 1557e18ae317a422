/** The serial line and the clock, as the driver sees them through
    `write_all`, `read`, `Timer::at`, `with_timeout` and `Instant::now`.
    Instead of hardware, the line follows a finite script of events, and
    time is a number of microseconds that only moves forward. */
module Transport {
  import opened Types

  /** One thing the line will do, in order.
      `Arrive(at, bytes)`: the next read can complete at time `at` with `bytes`.
      `ReadFault(at)`: the next read fails at time `at`.
      `WriteFault`: the next `write_all` fails. */
  datatype Event =
    | Arrive(at: Micros, bytes: seq<Byte>)
    | ReadFault(at: Micros)
    | WriteFault

  /** A request frame written to the line, with the time it was sent. */
  datatype Frame = Frame(at: Micros, bytes: seq<Byte>)

  /** The clock, the events still to come, and every frame written so far. */
  datatype Line = Line(now: Micros, script: seq<Event>, sent: seq<Frame>)

  /** What one `with_timeout(timeout, read(..))` yields. */
  datatype ReadOutcome = Completed(bytes: seq<Byte>) | Failed | TimedOut

  /** `Timer::at(t)`: wait until the clock reads at least `t`. */
  function Paced(l: Line, t: Micros): (r: Line)
    ensures r.now >= t && r.now >= l.now
    ensures r.now == l.now || r.now == t
    ensures r.script == l.script && r.sent == l.sent
  {
    l.(now := Max(l.now, t))
  }

  /** `write_all`: fails when the script says so; otherwise the frame goes
      out at the current time. */
  function Sent(l: Line, bytes: seq<Byte>): (r: (bool, Line))
    ensures r.1.now == l.now
    ensures r.0 <==> !(|l.script| > 0 && l.script[0].WriteFault?)
    ensures r.0 ==> r.1.script == l.script && r.1.sent == l.sent + [Frame(l.now, bytes)]
    ensures !r.0 ==> r.1.script == l.script[1..] && r.1.sent == l.sent
  {
    if |l.script| > 0 && l.script[0].WriteFault? then (false, l.(script := l.script[1..]))
    else (true, l.(sent := l.sent + [Frame(l.now, bytes)]))
  }

  /** One read into `room` free bytes, abandoned after `timeout`. A read
      completes or fails when its event is due by the deadline; otherwise
      the wait times out at the deadline and the event stays pending. A
      chunk longer than `room` is cut to `room` bytes. */
  function NextRead(l: Line, room: nat, timeout: Micros): (r: (ReadOutcome, Line))
    ensures r.1.sent == l.sent
    ensures l.now <= r.1.now <= l.now + timeout
    ensures r.0.TimedOut? ==> r.1 == l.(now := l.now + timeout)
    ensures !r.0.TimedOut? ==> |l.script| > 0 && r.1.script == l.script[1..]
    ensures r.0.Completed? ==> |r.0.bytes| <= room
  {
    var deadline := l.now + timeout;
    if |l.script| == 0 then (TimedOut, l.(now := deadline))
    else
      match l.script[0]
      case Arrive(at, bytes) =>
        if at <= deadline
        then (Completed(bytes[..Min(|bytes|, room)]), l.(now := Max(l.now, at), script := l.script[1..]))
        else (TimedOut, l.(now := deadline))
      case ReadFault(at) =>
        if at <= deadline
        then (Failed, l.(now := Max(l.now, at), script := l.script[1..]))
        else (TimedOut, l.(now := deadline))
      case WriteFault => (TimedOut, l.(now := deadline))
  }

  /** What `read` reports back to its caller: a byte count, an I/O error,
      or (from `with_timeout`) that the wait elapsed. */
  datatype ReadResult = Got(n: nat) | IoError | Elapsed

  /** The scripted line as a stateful object owned by the driver. */
  class Port {
    var now: Micros
    var script: seq<Event>
    var sent: seq<Frame>

    function State(): Line
      reads this
    {
      Line(now, script, sent)
    }

    constructor (start: Micros, events: seq<Event>)
      ensures State() == Line(start, events, [])
    {
      now, script, sent := start, events, [];
    }

    /** `Instant::now()`. */
    function Now(): Micros
      reads this
    {
      now
    }

    method SleepUntil(t: Micros)
      modifies this
      ensures State() == Paced(old(State()), t)
    {
      now := Max(now, t);
    }

    method WriteAll(buf: array<Byte>, n: nat) returns (ok: bool)
      requires n <= buf.Length
      modifies this
      ensures (ok, State()) == Sent(old(State()), buf[..n])
    {
      var r := Sent(State(), buf[..n]);
      ok := r.0;
      now, script, sent := r.1.now, r.1.script, r.1.sent;
    }

    /** `with_timeout(timeout, read(&mut buf[from..]))`: received bytes land
        at `buf[from..]`; the rest of `buf` is left alone. */
    method Read(buf: array<Byte>, from: nat, timeout: Micros) returns (r: ReadResult)
      requires from <= buf.Length
      modifies this, buf
      ensures State() == NextRead(old(State()), buf.Length - from, timeout).1
      ensures r.Got? <==> NextRead(old(State()), buf.Length - from, timeout).0.Completed?
      ensures r.IoError? <==> NextRead(old(State()), buf.Length - from, timeout).0.Failed?
      ensures r.Got? ==> var bytes := NextRead(old(State()), buf.Length - from, timeout).0.bytes;
                         && from + r.n <= buf.Length && r.n == |bytes|
                         && buf[..from + r.n] == old(buf[..from]) + bytes
                         && buf[from + r.n..] == old(buf[from + r.n..])
      ensures !r.Got? ==> buf[..] == old(buf[..])
    {
      var next := NextRead(State(), buf.Length - from, timeout);
      now, script, sent := next.1.now, next.1.script, next.1.sent;
      match next.0
      case Completed(bytes) =>
        forall k | 0 <= k < |bytes| {
          buf[from + k] := bytes[k];
        }
        assert buf[..from + |bytes|] == old(buf[..from]) + bytes;
        r := Got(|bytes|);
      case Failed =>
        r := IoError;
      case TimedOut =>
        r := Elapsed;
    }
  }
}
