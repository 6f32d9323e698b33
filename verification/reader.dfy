/**
 * One read session of core/reader.py: connect, then hand every received line to the
 * GUI queue and the history queue and report it to the watchdog, until the stream
 * ends or fails. It never returns normally: every exit is an exception, and every
 * exception other than cancellation leaves as a ConnectionError.
 */
module Reader {
  import opened Events
  import Api

  const CLOSED_BY_SERVER := "server closed read stream"

  /** What one call of `read_msgs` did: the puts on `gui_queue`, `save_queue`,
      `status_queue` and `watchdog_queue`, the exception it raised, and whether it
      closed a writer. */
  datatype ReadRun = ReadRun(
    gui: seq<string>,
    save: seq<string>,
    status: seq<StatusEvent>,
    live: seq<Liveness>,
    raised: Failure,
    writerClosed: bool)

  /** The `except` clauses: cancellation is re-raised, any Exception becomes a
      ConnectionError with the same message. */
  function Normalise(f: Failure): (r: Failure)
    ensures f.IsException() ==> r == ConnectionFailure(f.Message())
    ensures !f.IsException() ==> r == f
  {
    if f.IsException() then ConnectionFailure(f.Message()) else f
  }

  /** What leaves the read loop as an exception. */
  function LoopExit(end: StreamEnd): Failure {
    match end
    case Eof => ConnectionFailure(CLOSED_BY_SERVER)
    case Broke(f) => f
  }

  /** `n` liveness events of one kind. */
  function Repeat(e: Liveness, n: nat): (r: seq<Liveness>)
    ensures |r| == n
  {
    if n == 0 then [] else Repeat(e, n - 1) + [e]
  }

  /** Every one of them is of that kind. */
  lemma {:induction false} RepeatAll(e: Liveness, n: nat)
    ensures forall k :: 0 <= k < n ==> Repeat(e, n)[k] == e
  {
    if n > 0 {
      RepeatAll(e, n - 1);
    }
  }

  /** Reference definition of a read session. */
  function ReadSession(open: OpenOutcome, inbox: seq<ReadEvent>): ReadRun {
    match open
    case OpenFailed(f) =>
      ReadRun([], [], [ReadConn(Initiated), ReadConn(Closed)], [], Normalise(f), false)
    case Opened =>
      var d := Drain(inbox, Api.ReadlineText);
      ReadRun(d.lines, d.lines, [ReadConn(Initiated), ReadConn(Established), ReadConn(Closed)],
              [ReadOk] + Repeat(ChatRx, |d.lines|), Normalise(LoopExit(d.end)), true)
  }

  /** `read_msgs`. */
  method ReadMsgs(open: OpenOutcome, inbox: seq<ReadEvent>) returns (out: ReadRun)
    ensures out == ReadSession(open, inbox)
  {
    var gui: seq<string> := [];
    var save: seq<string> := [];
    var status: seq<StatusEvent> := [];
    var live: seq<Liveness> := [];
    var writer := false;
    var err: Failure;
    status := status + [ReadConn(Initiated)];
    match open {
      case OpenFailed(f) =>
        err := f;
      case Opened =>
        writer := true;
        status := status + [ReadConn(Established)];
        live := live + [ReadOk];
        gui, save, live, err := ReadLoop(inbox, live);
    }
    // except / finally
    var raised := Normalise(err);
    status := status + [ReadConn(Closed)];
    out := ReadRun(gui, save, status, live, raised, writer);
  }

  /** The `while True` loop of `read_msgs`: every line goes to both queues and a
      CHAT_RX to the watchdog, until the stream ends or fails. */
  method ReadLoop(inbox: seq<ReadEvent>, live0: seq<Liveness>)
    returns (gui: seq<string>, save: seq<string>, live: seq<Liveness>, err: Failure)
    ensures var d := Drain(inbox, Api.ReadlineText);
            gui == save == d.lines && live == live0 + Repeat(ChatRx, |gui|) && err == LoopExit(d.end)
  {
    gui, save, live := [], [], live0;
    var i := 0;
    ghost var whole := Drain(inbox, Api.ReadlineText);
    assert live == live0 + Repeat(ChatRx, 0);
    while true
      invariant 0 <= i <= |inbox|
      invariant gui == save
      invariant live == live0 + Repeat(ChatRx, |gui|)
      invariant whole == Drained(gui + Drain(inbox[i..], Api.ReadlineText).lines,
                                 Drain(inbox[i..], Api.ReadlineText).end)
      decreases |inbox| - i
    {
      var line := At(inbox, i);
      if line.Fault? || (line.Data? && line.raw == "") {
        StreamStops(inbox, i, gui, Api.ReadlineText);
        err := if line.Fault? then line.failure else ConnectionFailure(CLOSED_BY_SERVER);
        return;
      }
      StreamGoesOn(inbox, i, gui, Api.ReadlineText);
      // a Silence event only prolongs the wait of this readline
      if line.Data? {
        var text := Api.ReadlineText(line.raw);
        assert live + [ChatRx] == live0 + Repeat(ChatRx, |gui| + 1);
        gui := gui + [text];
        save := save + [text];
        live := live + [ChatRx];
      }
      i := i + 1;
    }
  }

  /** Whatever the connection does, both queues receive the same lines; INITIATED comes
      first and CLOSED last; ESTABLISHED, READ_OK and the writer's closing happen exactly
      when the connection opens, with one CHAT_RX per line received; only cancellation
      and a ConnectionError leave, apart from a KeyboardInterrupt. */
  lemma SessionShape(open: OpenOutcome, inbox: seq<ReadEvent>)
    ensures var out := ReadSession(open, inbox);
            out.gui == out.save &&
            |out.status| >= 2 && out.status[0] == ReadConn(Initiated) &&
            out.status[|out.status| - 1] == ReadConn(Closed) &&
            (ReadConn(Established) in out.status <==> open.Opened?) &&
            (open.Opened? ==> |out.live| == |out.gui| + 1 && out.live[0] == ReadOk &&
                              forall k :: 0 < k < |out.live| ==> out.live[k] == ChatRx) &&
            (open.OpenFailed? ==> out.live == []) &&
            (out.raised.Cancelled? || out.raised.Interrupt? || out.raised.ConnectionFailure?) &&
            (out.writerClosed <==> open.Opened?)
  {
    var out := ReadSession(open, inbox);
    if open.Opened? {
      var n := |out.gui|;
      RepeatAll(ChatRx, n);
      assert out.live == [ReadOk] + Repeat(ChatRx, n);
      forall k | 0 < k < |out.live|
        ensures out.live[k] == ChatRx
      {
        assert out.live[k] == Repeat(ChatRx, n)[k - 1];
      }
    }
  }

  /** N lines followed by the server closing the stream: both queues get exactly the N
      decoded lines in arrival order, and the session fails with a ConnectionError. */
  lemma LinesThenClose(raws: seq<string>)
    requires forall i :: 0 <= i < |raws| ==> raws[i] != ""
    ensures var out := ReadSession(Opened, Lines(raws) + [Data("")]);
            out.gui == out.save == seq(|raws|, i requires 0 <= i < |raws| => Api.ReadlineText(raws[i])) &&
            out.raised == ConnectionFailure(CLOSED_BY_SERVER)
  {
    LinesThenEof(raws, Api.ReadlineText);
  }

  /** Cancellation while lines are flowing is re-raised unchanged, after every line
      received before it has been delivered, and CLOSED is still reported. */
  lemma CancellationPassesThrough(before: seq<ReadEvent>, after: seq<ReadEvent>)
    requires forall i :: 0 <= i < |before| ==> Quiet(before[i])
    ensures var out := ReadSession(Opened, before + [Fault(Cancelled)] + after);
            out.raised == Cancelled &&
            out.gui == Texts(before, Api.ReadlineText) &&
            out.status[|out.status| - 1] == ReadConn(Closed)
  {
    assert before + [Fault(Cancelled)] + after == before + ([Fault(Cancelled)] + after);
    DrainAppend(before, [Fault(Cancelled)] + after, Api.ReadlineText);
  }
}
