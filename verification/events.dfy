/**
 * The vocabulary shared by every session: the exceptions that cross component
 * boundaries, what a socket read can yield, the socket operations performed, and
 * the status and liveness events put on the GUI's and the watchdog's queues.
 *
 * Sockets are abstracted as scripts: `inbox[i]` is what the i-th readline on a
 * connection yields. A script that runs out behaves as a peer that has closed its
 * end, so every further readline returns the empty byte string.
 */
module Events {

  datatype Option<+T> = None | Some(value: T)

  datatype Result<+T, +E> = Success(value: T) | Failure(error: E)

  /** Exceptions, by the classes the source's `except` clauses distinguish. */
  datatype Failure =
    | Cancelled                      // asyncio.CancelledError (a BaseException)
    | Interrupt                      // KeyboardInterrupt (a BaseException)
    | ConnectionFailure(msg: string) // ConnectionError and its subclasses (an OSError)
    | OsFailure(msg: string)         // any other OSError, e.g. socket.gaierror
    | InvalidToken(msg: string)      // core.exceptions.InvalidToken
    | OtherFailure(msg: string)      // any other Exception (JSONDecodeError, AttributeError, ...)
  {
    /** Caught by `except Exception`. */
    predicate IsException() { !Cancelled? && !Interrupt? }

    /** `str(e)` for an Exception. */
    function Message(): string
      requires IsException()
    {
      match this
      case ConnectionFailure(m) => m
      case OsFailure(m) => m
      case InvalidToken(m) => m
      case OtherFailure(m) => m
    }
  }

  /** A decoded JSON value, as far as the client looks into it: `null`, a string, an
      object with its members, or any other value (a number, a list, a boolean) with
      its Python truthiness and the name of its Python type. */
  datatype Json =
    | Null
    | Str(text: string)
    | Object(members: map<string, Json>)
    | Other(truthy: bool, typeName: string)

  /** What opening a connection does. */
  datatype OpenOutcome = Opened | OpenFailed(failure: Failure)

  /** What one `readline` yields: a line (`""` is end of stream), nothing before the
      enclosing timeout fires, or an exception. */
  datatype ReadEvent = Data(raw: string) | Silence | Fault(failure: Failure)

  /** A socket operation, in the order performed: a line received, or bytes written. */
  datatype Io = Recv(raw: string) | Send(data: string)

  datatype ConnState = Initiated | Established | Closed

  /** Events put on the GUI's status queue. */
  datatype StatusEvent =
    | ReadConn(state: ConnState)       // gui.ReadConnectionStateChanged
    | SendConn(state: ConnState)       // gui.SendingConnectionStateChanged
    | NicknameReceived(nickname: Json)

  /** Events put on the watchdog's liveness queue. */
  datatype Liveness = ReadOk | SendOk | ChatRx | MsgSent

  /** The event the i-th read meets; past the end of the script the peer has closed. */
  function At(inbox: seq<ReadEvent>, i: nat): (e: ReadEvent)
    ensures i < |inbox| ==> e == inbox[i]
    ensures i >= |inbox| ==> e == Data("")
  {
    if i < |inbox| then inbox[i] else Data("")
  }

  /** Where a readline without a timeout, started at `i`, completes: silence only
      makes it wait longer. */
  function Arrival(inbox: seq<ReadEvent>, i: nat): (k: nat)
    ensures i <= k
    ensures !At(inbox, k).Silence?
    ensures k == i || k <= |inbox|
    ensures forall j :: i <= j < k ==> inbox[j].Silence?
    decreases |inbox| - i
  {
    if i < |inbox| && inbox[i].Silence? then Arrival(inbox, i + 1) else i
  }

  /** The data written, in order. */
  function Sends(io: seq<Io>): (r: seq<string>)
    ensures |r| <= |io|
  {
    if io == [] then []
    else (if io[0].Send? then [io[0].data] else []) + Sends(io[1..])
  }

  lemma SendsOne(e: Io)
    ensures Sends([e]) == if e.Send? then [e.data] else []
  {
    assert [e][1..] == [];
  }

  lemma {:induction false} SendsAppend(a: seq<Io>, b: seq<Io>)
    ensures Sends(a + b) == Sends(a) + Sends(b)
    decreases |a|
  {
    if a != [] {
      assert (a + b)[1..] == a[1..] + b;
      SendsAppend(a[1..], b);
    } else {
      assert a + b == b;
    }
  }

  /** How an untimed readline loop ends: at end of stream, or with an exception. */
  datatype StreamEnd = Eof | Broke(failure: Failure)

  /** The lines an untimed readline loop receives before the stream ends. */
  datatype Drained = Drained(lines: seq<string>, end: StreamEnd)

  /** Reference definition of a readline loop: every non-empty line, in arrival order,
      decoded by `decode`, up to the first end of stream or exception. */
  function Drain(inbox: seq<ReadEvent>, decode: string -> string): (d: Drained)
    ensures |d.lines| <= |inbox|
    decreases |inbox|
  {
    if inbox == [] then Drained([], Eof)
    else match inbox[0]
      case Silence => Drain(inbox[1..], decode)
      case Fault(f) => Drained([], Broke(f))
      case Data(raw) =>
        if raw == "" then Drained([], Eof)
        else
          var rest := Drain(inbox[1..], decode);
          Drained([decode(raw)] + rest.lines, rest.end)
  }

  /** An event that does not end a readline loop. */
  predicate Quiet(e: ReadEvent) {
    e.Silence? || (e.Data? && e.raw != "")
  }

  /** A readline that does not end the loop: a line is received, silence is waited
      out, and the loop goes on with the next readline. */
  lemma StreamGoesOn(inbox: seq<ReadEvent>, i: nat, lines: seq<string>, decode: string -> string)
    requires i <= |inbox| && Quiet(At(inbox, i))
    ensures i < |inbox|
    ensures var now := Drain(inbox[i..], decode);
            var later := Drain(inbox[i + 1..], decode);
            var got := if inbox[i].Data? then lines + [decode(inbox[i].raw)] else lines;
            Drained(lines + now.lines, now.end) == Drained(got + later.lines, later.end)
  {
    assert inbox[i..][1..] == inbox[i + 1..];
    if inbox[i].Data? {
      assert lines + ([decode(inbox[i].raw)] + Drain(inbox[i + 1..], decode).lines)
          == lines + [decode(inbox[i].raw)] + Drain(inbox[i + 1..], decode).lines;
    }
  }

  /** A readline that ends the loop: nothing more is received. */
  lemma StreamStops(inbox: seq<ReadEvent>, i: nat, lines: seq<string>, decode: string -> string)
    requires i <= |inbox| && !Quiet(At(inbox, i))
    ensures var now := Drain(inbox[i..], decode);
            lines + now.lines == lines &&
            now.end == if At(inbox, i).Fault? then Broke(At(inbox, i).failure) else Eof
  {
    assert lines + [] == lines;
  }

  /** The decoded lines of a script of quiet events. */
  function Texts(events: seq<ReadEvent>, decode: string -> string): (r: seq<string>)
    requires forall i :: 0 <= i < |events| ==> Quiet(events[i])
  {
    if events == [] then []
    else (if events[0].Data? then [decode(events[0].raw)] else []) + Texts(events[1..], decode)
  }

  /** A quiet event contributes its line, if any, ahead of the rest of the stream. */
  lemma DrainCons(e: ReadEvent, rest: seq<ReadEvent>, decode: string -> string)
    requires Quiet(e)
    ensures Drain([e] + rest, decode)
         == Drained((if e.Data? then [decode(e.raw)] else []) + Drain(rest, decode).lines, Drain(rest, decode).end)
  {
    var c := [e] + rest;
    assert c[0] == e && c[1..] == rest;
    if e.Silence? {
      assert [] + Drain(rest, decode).lines == Drain(rest, decode).lines;
    }
  }

  /** Lines are delivered in arrival order and none is lost: a quiet stretch of the
      stream contributes exactly its lines, ahead of whatever follows. */
  lemma {:induction false} DrainAppend(a: seq<ReadEvent>, b: seq<ReadEvent>, decode: string -> string)
    requires forall i :: 0 <= i < |a| ==> Quiet(a[i])
    ensures Drain(a + b, decode) == Drained(Texts(a, decode) + Drain(b, decode).lines, Drain(b, decode).end)
    decreases |a|
  {
    if a == [] {
      assert a + b == b;
      assert [] + Drain(b, decode).lines == Drain(b, decode).lines;
    } else {
      assert a + b == [a[0]] + (a[1..] + b);
      DrainCons(a[0], a[1..] + b, decode);
      DrainAppend(a[1..], b, decode);
      var head := if a[0].Data? then [decode(a[0].raw)] else [];
      assert Texts(a, decode) == head + Texts(a[1..], decode);
      assert head + (Texts(a[1..], decode) + Drain(b, decode).lines)
          == head + Texts(a[1..], decode) + Drain(b, decode).lines;
    }
  }

  /** The received lines as data events. */
  function Lines(raws: seq<string>): (r: seq<ReadEvent>)
    ensures |r| == |raws|
    ensures forall i :: 0 <= i < |r| ==> r[i] == Data(raws[i])
  {
    seq(|raws|, i requires 0 <= i < |raws| => Data(raws[i]))
  }

  /** N non-empty lines followed by end of stream are delivered exactly, in order, and
      then the loop sees the end of stream. */
  lemma LinesThenEof(raws: seq<string>, decode: string -> string)
    requires forall i :: 0 <= i < |raws| ==> raws[i] != ""
    ensures Drain(Lines(raws) + [Data("")], decode)
         == Drained(seq(|raws|, i requires 0 <= i < |raws| => decode(raws[i])), Eof)
  {
    var a := Lines(raws);
    DrainAppend(a, [Data("")], decode);
    TextsOfLines(raws, decode);
  }

  lemma {:induction false} TextsOfLines(raws: seq<string>, decode: string -> string)
    requires forall i :: 0 <= i < |raws| ==> raws[i] != ""
    ensures Texts(Lines(raws), decode) == seq(|raws|, i requires 0 <= i < |raws| => decode(raws[i]))
    decreases |raws|
  {
    if raws != [] {
      assert Lines(raws)[1..] == Lines(raws[1..]);
      TextsOfLines(raws[1..], decode);
    }
  }
}
