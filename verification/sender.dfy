/**
 * One send session of core/sender.py: authorise on the sending connection, wait for
 * the server's prompt, then forever either submit the next queued message or, after
 * an idle interval with nothing queued, submit an empty ping, and each time demand
 * an acknowledgement line within the ack timeout.
 *
 * The outbound queue is a script of what each timed `sending_queue.get()` yields. A
 * script that runs out stands for the session being cancelled by its supervisor.
 */
module Sender {
  import opened Events
  import Text
  import Api
  import Auth

  const NO_INITIAL_PROMPT := "no initial prompt after auth"
  const PING_ACK_TIMEOUT := "ping ack timeout"
  const NO_PROMPT_AFTER_MESSAGE := "no prompt after message"

  /** What one timed `sending_queue.get()` yields: a queued text, the idle timeout, or
      an exception (in practice cancellation). */
  datatype QueueEvent = Item(text: string) | Idle | Interrupted(failure: Failure)

  /** What a dequeued event calls for: nothing (a message that is blank once stripped),
      a stop (the `get` raised), or the submission of `body`, with the message of the
      ConnectionError raised when it is not acknowledged in time. */
  datatype Call = Blank | Stop(failure: Failure) | Submit(body: string, late: string)

  /** What a dequeued event calls for: a queue timeout submits an empty ping, a message
      is stripped of surrounding whitespace and submitted unless that leaves it blank. */
  function CallOf(e: QueueEvent): Call {
    match e
    case Interrupted(f) => Stop(f)
    case Idle => Submit(Api.SubmissionBody(""), PING_ACK_TIMEOUT)
    case Item(text) =>
      var s := Text.Strip(text);
      if s == "" then Blank else Submit(Api.SubmissionBody(s), NO_PROMPT_AFTER_MESSAGE)
  }

  /** What each event of a queue script calls for. */
  function Calls(queue: seq<QueueEvent>): (calls: seq<Call>)
    ensures |calls| == |queue|
    decreases |queue|
  {
    if queue == [] then [] else [CallOf(queue[0])] + Calls(queue[1..])
  }

  /** The k-th call is what the k-th queue event calls for. */
  lemma {:induction false} CallsAt(queue: seq<QueueEvent>, k: nat)
    requires k < |queue|
    ensures Calls(queue)[k] == CallOf(queue[k])
    decreases |queue|
  {
    if k > 0 {
      CallsAt(queue[1..], k - 1);
    }
  }

  /** A ping is the bare terminator; a message goes out as its stripped text and the
      terminator, and is dropped exactly when that text is blank. */
  lemma CallFrames(e: QueueEvent)
    ensures e.Idle? ==> CallOf(e) == Submit("\n\n", PING_ACK_TIMEOUT)
    ensures e.Item? ==> (CallOf(e).Blank? <==> Text.Strip(e.text) == "")
    ensures e.Item? && Text.Strip(e.text) != "" ==>
              CallOf(e) == Submit(Text.Strip(e.text) + "\n\n", NO_PROMPT_AFTER_MESSAGE)
    ensures e.Interrupted? ==> CallOf(e) == Stop(e.failure)
  {
    match e
    case Idle =>
      Api.FramingIgnoresTrailingNewline("");
    case Interrupted(_) =>
    case Item(text) =>
      ItemFrames(text);
  }

  /** A message is dropped exactly when its stripped text is blank, and otherwise
      framed as that text and the terminator. */
  lemma ItemFrames(text: string)
    ensures CallOf(Item(text)).Blank? <==> Text.Strip(text) == ""
    ensures Text.Strip(text) != "" ==>
              CallOf(Item(text)) == Submit(Text.Strip(text) + "\n\n", NO_PROMPT_AFTER_MESSAGE)
  {
    var s := Text.Strip(text);
    if s != "" {
      FramesMessage(s);
      assert CallOf(Item(text)) == Submit(Api.SubmissionBody(s), NO_PROMPT_AFTER_MESSAGE);
    }
  }

  /** A stripped message is framed as itself followed by the terminator. */
  lemma FramesMessage(s: string)
    requires s != [] && s[|s| - 1] !in Text.Whitespace
    ensures Api.SubmissionBody(s) == s + "\n\n"
  {
    assert '\n' in Text.Whitespace;
    Text.RStripFixed(s, Text.Newline);
  }

  /** What one turn of the loop does, given what its queue event calls for and what
      the acknowledgement read meets if a submission is made: nothing, stop with an
      exception, or a submission and its acknowledgement. */
  datatype Turn =
    | Skip
    | Halt(io: seq<Io>, live: seq<Liveness>, failure: Failure)
    | Acked(io: seq<Io>, live: seq<Liveness>)
  {
    /** The socket operations of the turn. */
    function Ops(): seq<Io> { if Skip? then [] else io }

    /** The liveness events of the turn. */
    function Signals(): seq<Liveness> { if Skip? then [] else live }
  }

  function TurnOf(c: Call, ack: ReadEvent): Turn {
    match c
    case Blank => Skip
    case Stop(f) => Halt([], [], f)
    case Submit(body, late) =>
      match ack
      case Silence => Halt([Send(body)], [MsgSent], ConnectionFailure(late))
      case Fault(f) => Halt([Send(body)], [MsgSent], f)
      case Data(raw) => Acked([Send(body), Recv(raw)], [MsgSent, ChatRx])
  }

  /** The socket operations and liveness events of the message loop, how many queue
      events it took, and the exception that ended it. */
  datatype Pumped = Pumped(io: seq<Io>, live: seq<Liveness>, taken: nat, stop: Failure)

  /** The loop's progress so far, followed by what the rest of the loop does. */
  function Resume(io: seq<Io>, live: seq<Liveness>, taken: nat, rest: Pumped): Pumped {
    Pumped(io + rest.io, live + rest.live, taken + rest.taken, rest.stop)
  }

  /** Reference definition of the message loop, taking the calls of queue events from
      `ci` and reading acknowledgements from `ii`. */
  function Pump(calls: seq<Call>, ci: nat, inbox: seq<ReadEvent>, ii: nat): (r: Pumped)
    requires ci <= |calls|
    ensures ci + r.taken <= |calls|
    decreases |calls| - ci
  {
    if ci == |calls| then Pumped([], [], 0, Cancelled)
    else match TurnOf(calls[ci], At(inbox, ii))
      case Skip => Resume([], [], 1, Pump(calls, ci + 1, inbox, ii))
      case Halt(io, live, f) => Pumped(io, live, 1, f)
      case Acked(io, live) => Resume(io, live, 1, Pump(calls, ci + 1, inbox, ii + 1))
  }

  /** What a stretch of calls should put on the wire, in order. */
  function Outgoing(calls: seq<Call>): seq<string> {
    if calls == [] then []
    else (if calls[0].Submit? then [calls[0].body] else []) + Outgoing(calls[1..])
  }

  /** Submissions go out in dequeue order; blank messages and the stop leave no trace. */
  lemma {:induction false} PumpSendsInOrder(calls: seq<Call>, ci: nat, inbox: seq<ReadEvent>, ii: nat)
    requires ci <= |calls|
    ensures Sends(Pump(calls, ci, inbox, ii).io) == Outgoing(calls[ci..ci + Pump(calls, ci, inbox, ii).taken])
    decreases |calls| - ci, 1
  {
    if ci == |calls| {
      assert calls[ci..ci] == [];
    } else {
      var t := TurnOf(calls[ci], At(inbox, ii));
      if t.Skip? {
        SkipStep(calls, ci, inbox, ii);
      } else if t.Halt? {
        HaltStep(calls, ci, inbox, ii);
      } else {
        PumpStep(calls, ci, inbox, ii);
      }
    }
  }

  /** The induction step of `PumpSendsInOrder` for a blank message. */
  lemma {:induction false} SkipStep(calls: seq<Call>, ci: nat, inbox: seq<ReadEvent>, ii: nat)
    requires ci < |calls| && calls[ci].Blank?
    ensures Sends(Pump(calls, ci, inbox, ii).io) == Outgoing(calls[ci..ci + Pump(calls, ci, inbox, ii).taken])
    decreases |calls| - ci, 0
  {
    var r := Pump(calls, ci, inbox, ii);
    var rest := Pump(calls, ci + 1, inbox, ii);
    assert TurnOf(calls[ci], At(inbox, ii)) == Skip;
    assert r == Resume([], [], 1, rest);
    assert r.io == rest.io by {
      assert [] + rest.io == rest.io;
    }
    PumpSendsInOrder(calls, ci + 1, inbox, ii);
    OutgoingStep(calls, ci, r.taken);
    assert Outgoing(calls[ci..ci + r.taken]) == [] + Outgoing(calls[ci + 1..ci + 1 + rest.taken]);
  }

  /** The last step of `PumpSendsInOrder`: a turn that stops the loop. */
  lemma HaltStep(calls: seq<Call>, ci: nat, inbox: seq<ReadEvent>, ii: nat)
    requires ci < |calls| && TurnOf(calls[ci], At(inbox, ii)).Halt?
    ensures Sends(Pump(calls, ci, inbox, ii).io) == Outgoing(calls[ci..ci + Pump(calls, ci, inbox, ii).taken])
  {
    var c := calls[ci];
    var r := Pump(calls, ci, inbox, ii);
    assert r.taken == 1;
    OutgoingStep(calls, ci, 1);
    assert calls[ci + 1..ci + 1] == [];
    if c.Stop? {
      assert r.io == [];
    } else {
      assert r.io == [Send(c.body)];
      SendsOne(Send(c.body));
    }
  }

  /** The induction step of `PumpSendsInOrder` for an acknowledged submission. */
  lemma {:induction false} PumpStep(calls: seq<Call>, ci: nat, inbox: seq<ReadEvent>, ii: nat)
    requires ci < |calls| && calls[ci].Submit? && At(inbox, ii).Data?
    ensures Sends(Pump(calls, ci, inbox, ii).io) == Outgoing(calls[ci..ci + Pump(calls, ci, inbox, ii).taken])
    decreases |calls| - ci, 0
  {
    var body := calls[ci].body;
    var r := Pump(calls, ci, inbox, ii);
    var rest := Pump(calls, ci + 1, inbox, ii + 1);
    var raw := At(inbox, ii).raw;
    assert r == Resume([Send(body), Recv(raw)], [MsgSent, ChatRx], 1, rest);
    OutgoingStep(calls, ci, r.taken);
    PumpSendsInOrder(calls, ci + 1, inbox, ii + 1);
    SendsPair(body, raw, rest.io);
  }

  /** `Outgoing` of a stretch that starts at `ci`, one call at a time. */
  lemma OutgoingStep(calls: seq<Call>, ci: nat, n: nat)
    requires ci < ci + n <= |calls|
    ensures Outgoing(calls[ci..ci + n])
            == (if calls[ci].Submit? then [calls[ci].body] else []) + Outgoing(calls[ci + 1..ci + n])
  {
    var done := calls[ci..ci + n];
    assert done[0] == calls[ci] && done[1..] == calls[ci + 1..ci + n];
  }

  lemma SendsPair(body: string, raw: string, rest: seq<Io>)
    ensures Sends([Send(body), Recv(raw)] + rest) == [body] + Sends(rest)
  {
    SendsOne(Send(body));
    SendsOne(Recv(raw));
    SendsAppend([Send(body)], [Recv(raw)]);
    assert [Send(body)] + [Recv(raw)] == [Send(body), Recv(raw)];
    SendsAppend([Send(body), Recv(raw)], rest);
  }

  /** A turn that does not stop the loop moves the loop's progress forward by its
      socket operations and liveness events. */
  lemma Advance(calls: seq<Call>, ci: nat, inbox: seq<ReadEvent>, ii: nat,
                io: seq<Io>, live: seq<Liveness>, t: Turn)
    requires ci < |calls| && t == TurnOf(calls[ci], At(inbox, ii)) && !t.Halt?
    ensures var next := if t.Acked? then ii + 1 else ii;
            Resume(io, live, ci, Pump(calls, ci, inbox, ii))
            == Resume(io + t.Ops(), live + t.Signals(), ci + 1, Pump(calls, ci + 1, inbox, next))
  {
    var next := if t.Acked? then ii + 1 else ii;
    var rest := Pump(calls, ci + 1, inbox, next);
    assert Pump(calls, ci, inbox, ii) == Resume(t.Ops(), t.Signals(), 1, rest);
    assert io + (t.Ops() + rest.io) == (io + t.Ops()) + rest.io;
    assert live + (t.Signals() + rest.live) == (live + t.Signals()) + rest.live;
  }

  /** A turn that stops the loop ends it with its own operations and exception. */
  lemma Finish(calls: seq<Call>, ci: nat, inbox: seq<ReadEvent>, ii: nat,
               io: seq<Io>, live: seq<Liveness>, t: Turn)
    requires ci < |calls| && t == TurnOf(calls[ci], At(inbox, ii)) && t.Halt?
    ensures Resume(io, live, ci, Pump(calls, ci, inbox, ii)) == Pumped(io + t.io, live + t.live, ci + 1, t.failure)
  {
  }

  /** How a run `r` of the loop from `ci` and `ii` can end: the queue runs out (the
      supervisor's cancellation), the `get` raises, or the last submission, already
      written, is not acknowledged: silence raises that submission's ConnectionError,
      and an exception from the read leaves as it is. The read that the last
      submission awaits comes after the acknowledgements of all earlier ones. */
  predicate EndsAs(calls: seq<Call>, ci: nat, inbox: seq<ReadEvent>, ii: nat, r: Pumped) {
    var ack := At(inbox, ii + |r.io| / 2);
    ci + r.taken <= |calls| &&
    ((|r.io| % 2 == 0 && ci + r.taken == |calls| && r.stop == Cancelled) ||
     (0 < r.taken && |r.io| % 2 == 0 && calls[ci + r.taken - 1] == Stop(r.stop)) ||
     (0 < r.taken && |r.io| % 2 == 1 && calls[ci + r.taken - 1].Submit? &&
      r.io[|r.io| - 1] == Send(calls[ci + r.taken - 1].body) &&
      ((ack.Silence? && r.stop == ConnectionFailure(calls[ci + r.taken - 1].late)) ||
       (ack.Fault? && r.stop == ack.failure))))
  }

  /** Every run of the loop ends in one of those ways. */
  lemma {:induction false} PumpStops(calls: seq<Call>, ci: nat, inbox: seq<ReadEvent>, ii: nat)
    requires ci <= |calls|
    ensures EndsAs(calls, ci, inbox, ii, Pump(calls, ci, inbox, ii))
    decreases |calls| - ci
  {
    if ci < |calls| {
      var t := TurnOf(calls[ci], At(inbox, ii));
      if t.Skip? {
        PumpStops(calls, ci + 1, inbox, ii);
        SkipEnds(calls, ci, inbox, ii);
      } else if t.Acked? {
        PumpStops(calls, ci + 1, inbox, ii + 1);
        AckedEnds(calls, ci, inbox, ii);
      } else {
        HaltEnds(calls, ci, inbox, ii);
      }
    }
  }

  lemma SkipEnds(calls: seq<Call>, ci: nat, inbox: seq<ReadEvent>, ii: nat)
    requires ci < |calls| && calls[ci].Blank?
    requires EndsAs(calls, ci + 1, inbox, ii, Pump(calls, ci + 1, inbox, ii))
    ensures EndsAs(calls, ci, inbox, ii, Pump(calls, ci, inbox, ii))
  {
    var rest := Pump(calls, ci + 1, inbox, ii);
    assert TurnOf(calls[ci], At(inbox, ii)) == Skip;
    assert Pump(calls, ci, inbox, ii) == Pumped([] + rest.io, [] + rest.live, 1 + rest.taken, rest.stop);
    assert [] + rest.io == rest.io && [] + rest.live == rest.live;
    EndsShift(calls, ci, inbox, ii, rest);
  }

  /** A skipped call in front of a run changes only how many calls were taken. */
  lemma EndsShift(calls: seq<Call>, ci: nat, inbox: seq<ReadEvent>, ii: nat, rest: Pumped)
    requires EndsAs(calls, ci + 1, inbox, ii, rest)
    ensures EndsAs(calls, ci, inbox, ii, Pumped(rest.io, rest.live, 1 + rest.taken, rest.stop))
  {
    assert ci + (1 + rest.taken) - 1 == ci + 1 + rest.taken - 1;
  }

  lemma AckedEnds(calls: seq<Call>, ci: nat, inbox: seq<ReadEvent>, ii: nat)
    requires ci < |calls| && TurnOf(calls[ci], At(inbox, ii)).Acked?
    requires EndsAs(calls, ci + 1, inbox, ii + 1, Pump(calls, ci + 1, inbox, ii + 1))
    ensures EndsAs(calls, ci, inbox, ii, Pump(calls, ci, inbox, ii))
  {
    var t := TurnOf(calls[ci], At(inbox, ii));
    var rest := Pump(calls, ci + 1, inbox, ii + 1);
    assert Pump(calls, ci, inbox, ii) == Pumped(t.io + rest.io, t.live + rest.live, 1 + rest.taken, rest.stop);
    EndsPair(calls, ci, inbox, ii, t.io, t.live, rest);
  }

  /** An acknowledged submission in front of a run moves its last read one further. */
  lemma EndsPair(calls: seq<Call>, ci: nat, inbox: seq<ReadEvent>, ii: nat,
                 io: seq<Io>, live: seq<Liveness>, rest: Pumped)
    requires |io| == 2 && EndsAs(calls, ci + 1, inbox, ii + 1, rest)
    ensures EndsAs(calls, ci, inbox, ii, Pumped(io + rest.io, live + rest.live, 1 + rest.taken, rest.stop))
  {
    var r := Pumped(io + rest.io, live + rest.live, 1 + rest.taken, rest.stop);
    assert |r.io| == 2 + |rest.io| && ii + |r.io| / 2 == ii + 1 + |rest.io| / 2;
    assert |rest.io| > 0 ==> r.io[|r.io| - 1] == rest.io[|rest.io| - 1];
    assert ci + r.taken - 1 == ci + 1 + rest.taken - 1;
  }

  /** A run whose last submission met silence ends with that submission's
      ConnectionError. */
  lemma {:induction false} SilentEnd(calls: seq<Call>, ci: nat, inbox: seq<ReadEvent>, ii: nat, r: Pumped)
    requires EndsAs(calls, ci, inbox, ii, r)
    requires |r.io| % 2 == 1 && At(inbox, ii + |r.io| / 2).Silence?
    ensures 0 < r.taken && ci + r.taken <= |calls| && calls[ci + r.taken - 1].Submit?
    ensures r.stop == ConnectionFailure(calls[ci + r.taken - 1].late)
  {
  }

  lemma HaltEnds(calls: seq<Call>, ci: nat, inbox: seq<ReadEvent>, ii: nat)
    requires ci < |calls| && TurnOf(calls[ci], At(inbox, ii)).Halt?
    ensures EndsAs(calls, ci, inbox, ii, Pump(calls, ci, inbox, ii))
  {
    var r := Pump(calls, ci, inbox, ii);
    assert r.taken == 1;
    assert |r.io| / 2 == 0;
  }

  /** A submission of the loop left unacknowledged within the ack timeout ends the loop
      with a ConnectionError that names what was submitted: the ping or a message. */
  lemma {:induction false} LoopTimeout(queue: seq<QueueEvent>, inbox: seq<ReadEvent>, start: nat)
    ensures var p := Pump(Calls(queue), 0, inbox, start);
            |p.io| % 2 == 1 && At(inbox, start + |p.io| / 2).Silence? ==>
              0 < p.taken &&
              p.stop == ConnectionFailure(if queue[p.taken - 1].Idle? then PING_ACK_TIMEOUT
                                          else NO_PROMPT_AFTER_MESSAGE)
  {
    var calls := Calls(queue);
    PumpStops(calls, 0, inbox, start);
    SilentLateOf(queue, inbox, start, Pump(calls, 0, inbox, start));
  }

  /** `SilentLate` for the calls of a queue script. */
  lemma {:induction false} SilentLateOf(queue: seq<QueueEvent>, inbox: seq<ReadEvent>, start: nat, p: Pumped)
    requires EndsAs(Calls(queue), 0, inbox, start, p)
    ensures |p.io| % 2 == 1 && At(inbox, start + |p.io| / 2).Silence? ==>
              0 < p.taken <= |queue| &&
              p.stop == ConnectionFailure(if queue[p.taken - 1].Idle? then PING_ACK_TIMEOUT
                                          else NO_PROMPT_AFTER_MESSAGE)
  {
    CallsAll(queue);
    SilentLate(queue, Calls(queue), inbox, start, p);
  }

  /** Any run that ends as `EndsAs` describes, over calls that are what the events of
      a queue script call for, and whose last read met silence, raises the timeout of
      the event submitted last. */
  lemma {:induction false} SilentLate(queue: seq<QueueEvent>, calls: seq<Call>, inbox: seq<ReadEvent>, start: nat, p: Pumped)
    requires |calls| == |queue| && forall k :: 0 <= k < |calls| ==> calls[k] == CallOf(queue[k])
    requires EndsAs(calls, 0, inbox, start, p)
    ensures |p.io| % 2 == 1 && At(inbox, start + |p.io| / 2).Silence? ==>
              0 < p.taken <= |queue| &&
              p.stop == ConnectionFailure(if queue[p.taken - 1].Idle? then PING_ACK_TIMEOUT
                                          else NO_PROMPT_AFTER_MESSAGE)
  {
    if |p.io| % 2 == 1 && At(inbox, start + |p.io| / 2).Silence? {
      SilentEnd(calls, 0, inbox, start, p);
      LateOf(queue[p.taken - 1]);
    }
  }

  /** Every call of a queue script is what its event calls for. */
  lemma CallsAll(queue: seq<QueueEvent>)
    ensures |Calls(queue)| == |queue|
    ensures forall k :: 0 <= k < |queue| ==> Calls(queue)[k] == CallOf(queue[k])
  {
    forall k | 0 <= k < |queue| {
      CallsAt(queue, k);
    }
  }

  /** The ConnectionError a submission raises when it is not acknowledged. */
  lemma LateOf(e: QueueEvent)
    requires CallOf(e).Submit?
    ensures CallOf(e).late == if e.Idle? then PING_ACK_TIMEOUT else NO_PROMPT_AFTER_MESSAGE
  {
  }

  /** Running out of queue events ends the loop as a cancellation. */
  lemma Exhausted(calls: seq<Call>, inbox: seq<ReadEvent>, ii: nat, io: seq<Io>, live: seq<Liveness>)
    ensures Resume(io, live, |calls|, Pump(calls, |calls|, inbox, ii)) == Pumped(io, live, |calls|, Cancelled)
  {
    assert io + [] == io && live + [] == live;
  }

  /** What the timed `get` on the outbound queue calls for once it has yielded `ev`:
      an idle timeout sends the bare terminator as a ping, a message is sent stripped
      unless it is blank, and an exception stops the loop. */
  method Classify(ev: QueueEvent) returns (c: Call)
    ensures c == CallOf(ev)
    ensures ev.Idle? ==> c == Submit("\n\n", PING_ACK_TIMEOUT)
    ensures ev.Item? ==> (c.Blank? <==> Text.Strip(ev.text) == "")
    ensures ev.Item? && Text.Strip(ev.text) != "" ==>
              c == Submit(Text.Strip(ev.text) + "\n\n", NO_PROMPT_AFTER_MESSAGE)
    ensures ev.Interrupted? ==> c == Stop(ev.failure)
  {
    CallFrames(ev);
    match ev {
      case Interrupted(f) =>
        c := Stop(f);
      case Idle =>
        c := Submit(Api.SubmissionBody(""), PING_ACK_TIMEOUT);
      case Item(text) =>
        var stripped := Text.Strip(text);
        if stripped == "" {
          c := Blank;
        } else {
          c := Submit(Api.SubmissionBody(stripped), NO_PROMPT_AFTER_MESSAGE);
        }
    }
  }

  /** The rest of one turn of the loop: a submission is written and reported as
      MSG_SENT, then must be acknowledged by a line within the ack timeout. */
  method TakeTurn(c: Call, inbox: seq<ReadEvent>, ii: nat) returns (t: Turn)
    ensures t == TurnOf(c, At(inbox, ii))
    ensures c.Blank? ==> t == Skip
    ensures c.Stop? ==> t == Halt([], [], c.failure)
    // any line, the empty read at end of stream included, is an acknowledgement
    ensures c.Submit? && At(inbox, ii).Data? ==>
              t == Acked([Send(c.body), Recv(At(inbox, ii).raw)], [MsgSent, ChatRx])
    // nothing within the ack timeout raises the ConnectionError of the submission
    ensures c.Submit? && At(inbox, ii).Silence? ==>
              t == Halt([Send(c.body)], [MsgSent], ConnectionFailure(c.late))
    // an exception from the read leaves the loop as it is
    ensures c.Submit? && At(inbox, ii).Fault? ==>
              t == Halt([Send(c.body)], [MsgSent], At(inbox, ii).failure)
  {
    if c.Blank? {
      return Skip;
    } else if c.Stop? {
      return Halt([], [], c.failure);
    }
    var io := [Send(c.body)];
    var live := [MsgSent];
    var ack := At(inbox, ii);
    if ack.Silence? {
      return Halt(io, live, ConnectionFailure(c.late));
    } else if ack.Fault? {
      return Halt(io, live, ack.failure);
    }
    io := io + [Recv(ack.raw)];
    live := live + [ChatRx];
    t := Acked(io, live);
  }

  /** The `while True` loop of `send_msgs`, on a connection whose
      acknowledgement reads start at `start`. Running out of queue events stands for
      the cancellation that ends every send session that does not fail. */
  method MessageLoop(queue: seq<QueueEvent>, inbox: seq<ReadEvent>, start: nat) returns (out: Pumped)
    ensures out == Pump(Calls(queue), 0, inbox, start)
  {
    var io: seq<Io> := [];
    var live: seq<Liveness> := [];
    var qi, ii := 0, start;
    var stop: Failure;
    ghost var calls := Calls(queue);
    ghost var whole := Pump(calls, 0, inbox, start);
    while true
      invariant qi <= |queue|
      invariant whole == Resume(io, live, qi, Pump(calls, qi, inbox, ii))
      decreases |queue| - qi
    {
      if qi == |queue| {
        Exhausted(calls, inbox, ii, io, live);
        stop := Cancelled;
        break;
      }
      var c := Classify(queue[qi]);
      CallsAt(queue, qi);
      var t := TakeTurn(c, inbox, ii);
      if t.Halt? {
        Finish(calls, qi, inbox, ii, io, live, t);
        io, live, qi, stop := io + t.io, live + t.live, qi + 1, t.failure;
        break;
      }
      Advance(calls, qi, inbox, ii, io, live, t);
      io, live, qi := io + t.Ops(), live + t.Signals(), qi + 1;
      if t.Acked? {
        ii := ii + 1;
      }
    }
    out := Pumped(io, live, qi, stop);
  }

  /** What one call of `send_msgs` did. */
  datatype SendRun = SendRun(
    status: seq<StatusEvent>,
    live: seq<Liveness>,
    io: seq<Io>,
    raised: Failure,
    writerClosed: bool)

  /** The `except` clauses of `send_msgs`: whether CLOSED is put, and what leaves.
      Cancellation and InvalidToken are re-raised, every OSError (a ConnectionError
      among them) and every other Exception leaves as a ConnectionError with the same
      message; a KeyboardInterrupt is caught by none of them. */
  function Escalate(f: Failure): (r: (bool, Failure))
    ensures r.0 <==> !f.Interrupt?
    ensures r.1.Cancelled? || r.1.Interrupt? || r.1.InvalidToken? || r.1.ConnectionFailure?
    ensures f.Cancelled? || f.Interrupt? || f.InvalidToken? ==> r.1 == f
    ensures f.ConnectionFailure? || f.OsFailure? || f.OtherFailure? ==> r.1 == ConnectionFailure(f.msg)
  {
    match f
    case Cancelled => (true, Cancelled)
    case InvalidToken(m) => (true, InvalidToken(m))
    case ConnectionFailure(m) => (true, ConnectionFailure(m))
    case OsFailure(m) => (true, ConnectionFailure(m))
    case OtherFailure(m) => (true, ConnectionFailure(m))
    case Interrupt => (false, Interrupt)
  }

  /** Leaving the `try` block with `f`. */
  function Abort(status: seq<StatusEvent>, live: seq<Liveness>, io: seq<Io>, f: Failure, wasOpen: bool): SendRun {
    var (closed, raised) := Escalate(f);
    SendRun(status + (if closed then [SendConn(Closed)] else []), live, io, raised, wasOpen)
  }

  /** Leaving the `try` block reports CLOSED unless the exception is a KeyboardInterrupt,
      and leaves with cancellation, InvalidToken, ConnectionError or the interrupt. */
  lemma AbortShape(status: seq<StatusEvent>, live: seq<Liveness>, io: seq<Io>, f: Failure, wasOpen: bool)
    ensures var out := Abort(status, live, io, f, wasOpen);
            out.status == (if f.Interrupt? then status else status + [SendConn(Closed)]) &&
            (out.raised.Cancelled? || out.raised.Interrupt? || out.raised.InvalidToken? || out.raised.ConnectionFailure?) &&
            (out.raised.Interrupt? <==> f.Interrupt?) &&
            out.writerClosed == wasOpen
  {
  }

  /** What happens once the token is accepted: the prompt is awaited with the ack
      timeout, then the message loop runs until an exception leaves it. `io` is what
      the token exchange did; the prompt read is the one at `next`. */
  function Converse(io: seq<Io>, inbox: seq<ReadEvent>, next: nat, queue: seq<QueueEvent>): SendRun {
    var established := [SendConn(Initiated), SendConn(Established)];
    match At(inbox, next)
    case Silence => Abort(established, [SendOk], io, ConnectionFailure(NO_INITIAL_PROMPT), true)
    case Fault(f) => Abort(established, [SendOk], io, f, true)
    case Data(prompt) =>
      var p := Pump(Calls(queue), 0, inbox, next + 1);
      Abort(established, [SendOk] + p.live, io + [Recv(prompt)] + p.io, p.stop, true)
  }

  /** Reference definition of a send session. */
  function SendSession(file: Auth.TokenFile, open: OpenOutcome, inbox: seq<ReadEvent>,
                       queue: seq<QueueEvent>, parse: string -> Api.Parsed): SendRun
  {
    match Auth.LoadToken(file)
    case Failure(e) => SendRun([], [], [], e, false)
    case Success(token) =>
      var initiated := [SendConn(Initiated)];
      match open
      case OpenFailed(f) => Abort(initiated, [], [], f, false)
      case Opened =>
        var x := Api.Handshake(inbox, 0, Auth.TokenText(token) + "\n");
        match x.reply
        case Failure(f) => Abort(initiated, [], x.io, f, true)
        case Success(response) =>
          if !Api.ApiAccepts(Api.Payload(response, parse)) then
            Abort(initiated + [SendConn(Closed)], [], x.io, InvalidToken(Auth.UNKNOWN_TOKEN), true)
          else
            Converse(x.io, inbox, x.next, queue)
  }

  /** Once the token is accepted, the two acknowledgement timeouts of the session: no
      prompt within the ack timeout, and a submission of the loop left unacknowledged. */
  lemma {:induction false} ConverseTimeouts(io: seq<Io>, inbox: seq<ReadEvent>, next: nat, queue: seq<QueueEvent>)
    ensures var out := Converse(io, inbox, next, queue);
            var closed := [SendConn(Initiated), SendConn(Established), SendConn(Closed)];
            (At(inbox, next).Silence? ==>
               out == SendRun(closed, [SendOk], io, ConnectionFailure(NO_INITIAL_PROMPT), true)) &&
            (At(inbox, next).Data? ==>
               var p := Pump(Calls(queue), 0, inbox, next + 1);
               |p.io| % 2 == 1 && At(inbox, next + 1 + |p.io| / 2).Silence? ==>
                 0 < p.taken && out.status == closed &&
                 out.raised == ConnectionFailure(if queue[p.taken - 1].Idle? then PING_ACK_TIMEOUT
                                                 else NO_PROMPT_AFTER_MESSAGE))
  {
    var established := [SendConn(Initiated), SendConn(Established)];
    match At(inbox, next)
    case Silence =>
      AbortConnection(established, [SendOk], io, NO_INITIAL_PROMPT, true);
    case Fault(_) =>
    case Data(prompt) =>
      LoopTimeoutClosed(io, inbox, next, queue, prompt);
  }

  lemma {:induction false} LoopTimeoutClosed(io: seq<Io>, inbox: seq<ReadEvent>, next: nat, queue: seq<QueueEvent>, prompt: string)
    requires At(inbox, next) == Data(prompt)
    ensures var out := Converse(io, inbox, next, queue);
            var p := Pump(Calls(queue), 0, inbox, next + 1);
            |p.io| % 2 == 1 && At(inbox, next + 1 + |p.io| / 2).Silence? ==>
              0 < p.taken && out.status == [SendConn(Initiated), SendConn(Established), SendConn(Closed)] &&
              out.raised == ConnectionFailure(if queue[p.taken - 1].Idle? then PING_ACK_TIMEOUT
                                              else NO_PROMPT_AFTER_MESSAGE)
  {
    var p := Pump(Calls(queue), 0, inbox, next + 1);
    if |p.io| % 2 == 1 && At(inbox, next + 1 + |p.io| / 2).Silence? {
      LoopTimeout(queue, inbox, next + 1);
      ClosedOnTimeout(io, prompt, queue, inbox, next + 1, p);
      ConverseData(io, inbox, next, queue, prompt);
    }
  }

  /** A loop run that ended in the ack timeout of its last submission, closed by
      `Abort` after the prompt: CLOSED is reported and the timeout is raised. */
  lemma {:induction false} ClosedOnTimeout(io: seq<Io>, prompt: string, queue: seq<QueueEvent>,
                                           inbox: seq<ReadEvent>, start: nat, p: Pumped)
    requires |p.io| % 2 == 1 && At(inbox, start + |p.io| / 2).Silence? ==>
               0 < p.taken <= |queue| &&
               p.stop == ConnectionFailure(if queue[p.taken - 1].Idle? then PING_ACK_TIMEOUT
                                           else NO_PROMPT_AFTER_MESSAGE)
    ensures var out := Abort([SendConn(Initiated), SendConn(Established)], [SendOk] + p.live,
                             io + [Recv(prompt)] + p.io, p.stop, true);
            |p.io| % 2 == 1 && At(inbox, start + |p.io| / 2).Silence? ==>
              out.status == [SendConn(Initiated), SendConn(Established), SendConn(Closed)] &&
              out.raised == p.stop
  {
    if |p.io| % 2 == 1 && At(inbox, start + |p.io| / 2).Silence? {
      AbortConnection([SendConn(Initiated), SendConn(Established)], [SendOk] + p.live,
                      io + [Recv(prompt)] + p.io, p.stop.msg, true);
    }
  }

  /** After the prompt, the session is the message loop's run closed by `Abort`. */
  lemma {:induction false} ConverseData(io: seq<Io>, inbox: seq<ReadEvent>, next: nat, queue: seq<QueueEvent>, prompt: string)
    requires At(inbox, next) == Data(prompt)
    ensures var p := Pump(Calls(queue), 0, inbox, next + 1);
            Converse(io, inbox, next, queue)
            == Abort([SendConn(Initiated), SendConn(Established)], [SendOk] + p.live,
                     io + [Recv(prompt)] + p.io, p.stop, true)
  {
  }

  /** A ConnectionError leaves the `try` block as it is, after CLOSED. */
  lemma AbortConnection(status: seq<StatusEvent>, live: seq<Liveness>, io: seq<Io>, m: string, wasOpen: bool)
    ensures Abort(status, live, io, ConnectionFailure(m), wasOpen)
            == SendRun(status + [SendConn(Closed)], live, io, ConnectionFailure(m), wasOpen)
  {
  }

  /** The part of `send_msgs` after the token is accepted. */
  method Conversation(io: seq<Io>, inbox: seq<ReadEvent>, next: nat, queue: seq<QueueEvent>)
    returns (out: SendRun)
    ensures out == Converse(io, inbox, next, queue)
    // no prompt within the ack timeout: nothing is sent and CLOSED is reported
    ensures At(inbox, next).Silence? ==>
              out == SendRun([SendConn(Initiated), SendConn(Established), SendConn(Closed)], [SendOk], io,
                             ConnectionFailure(NO_INITIAL_PROMPT), true)
    // a submission left unacknowledged leaves as the ping's or the message's ConnectionError
    ensures At(inbox, next).Data? ==>
              var p := Pump(Calls(queue), 0, inbox, next + 1);
              |p.io| % 2 == 1 && At(inbox, next + 1 + |p.io| / 2).Silence? ==>
                0 < p.taken &&
                out.raised == ConnectionFailure(if queue[p.taken - 1].Idle? then PING_ACK_TIMEOUT
                                                else NO_PROMPT_AFTER_MESSAGE) &&
                out.status == [SendConn(Initiated), SendConn(Established), SendConn(Closed)]
  {
    var status := [SendConn(Initiated), SendConn(Established)];
    var live := [SendOk];
    var sent := io;
    var err: Failure;
    var prompt := At(inbox, next);
    if prompt.Silence? {
      err := ConnectionFailure(NO_INITIAL_PROMPT);
    } else if prompt.Fault? {
      err := prompt.failure;
    } else {
      sent := sent + [Recv(prompt.raw)];
      var pumped := MessageLoop(queue, inbox, next + 1);
      sent := sent + pumped.io;
      live := live + pumped.live;
      err := pumped.stop;
    }
    out := Abort(status, live, sent, err, true);
    ConverseTimeouts(io, inbox, next, queue);
  }

  /** `send_msgs`. */
  method SendMsgs(file: Auth.TokenFile, open: OpenOutcome, inbox: seq<ReadEvent>,
                  queue: seq<QueueEvent>, parse: string -> Api.Parsed)
    returns (out: SendRun)
    ensures out == SendSession(file, open, inbox, queue, parse)
  {
    var loaded := Auth.LoadToken(file);
    if loaded.Failure? {
      return SendRun([], [], [], loaded.error, false);
    }
    var token := loaded.value;
    var status := [SendConn(Initiated)];
    if open.OpenFailed? {
      return Abort(status, [], [], open.failure, false);
    }
    var io, next, ok := Api.Authorise(inbox, 0, Auth.TokenText(token), parse);
    if ok.Failure? {
      return Abort(status, [], io, ok.error, true);
    }
    if !ok.value {
      status := status + [SendConn(Closed)];
      return Abort(status, [], io, InvalidToken(Auth.UNKNOWN_TOKEN), true);
    }
    out := Conversation(io, inbox, next, queue);
  }

  /** Whether the token exchange on an opened connection succeeded and the answer
      was accepted. */
  predicate Authorised(token: Option<string>, inbox: seq<ReadEvent>, parse: string -> Api.Parsed) {
    var x := Api.Handshake(inbox, 0, Auth.TokenText(token) + "\n");
    x.reply.Success? && Api.ApiAccepts(Api.Payload(x.reply.value, parse))
  }

  /** An accepted token hands the session over to the conversation, after a token
      exchange that wrote nothing but the token line. */
  lemma Accepted(token: Option<string>, inbox: seq<ReadEvent>, queue: seq<QueueEvent>, parse: string -> Api.Parsed)
    requires Authorised(token, inbox, parse)
    ensures var x := Api.Handshake(inbox, 0, Auth.TokenText(token) + "\n");
            SendSession(Auth.Loaded(token), Opened, inbox, queue, parse) == Converse(x.io, inbox, x.next, queue) &&
            Sends(x.io) == [Auth.TokenText(token) + "\n"]
  {
  }

  /** Once the token is accepted: INITIATED then ESTABLISHED, CLOSED on every exit but
      a KeyboardInterrupt, every other exception is normalised, and the writer is
      closed. */
  lemma ConverseOutcome(io: seq<Io>, inbox: seq<ReadEvent>, next: nat, queue: seq<QueueEvent>)
    ensures var out := Converse(io, inbox, next, queue);
            out.status[..2] == [SendConn(Initiated), SendConn(Established)] &&
            out.status == (if out.raised.Interrupt? then [SendConn(Initiated), SendConn(Established)]
                           else [SendConn(Initiated), SendConn(Established), SendConn(Closed)]) &&
            (out.raised.Cancelled? || out.raised.Interrupt? || out.raised.InvalidToken? || out.raised.ConnectionFailure?) &&
            out.writerClosed
  {
  }

  /** The status events and exceptions of every send session: an unusable token file
      stops it before any event or connection; otherwise INITIATED comes first, every
      exit but a KeyboardInterrupt reports CLOSED, ESTABLISHED is reported exactly when
      the token is accepted, only cancellation, InvalidToken and ConnectionError leave
      (and a KeyboardInterrupt), and the writer is closed exactly when it was opened. */
  lemma SessionOutcome(file: Auth.TokenFile, open: OpenOutcome, inbox: seq<ReadEvent>,
                       queue: seq<QueueEvent>, parse: string -> Api.Parsed)
    ensures var out := SendSession(file, open, inbox, queue, parse);
            (!file.Loaded? ==> out == SendRun([], [], [], Auth.LoadToken(file).error, false) && out.raised.InvalidToken?) &&
            (file.Loaded? ==> |out.status| >= 1 && out.status[0] == SendConn(Initiated)) &&
            (file.Loaded? && !out.raised.Interrupt? ==> out.status[|out.status| - 1] == SendConn(Closed)) &&
            (SendConn(Established) in out.status <==>
               file.Loaded? && open.Opened? && Authorised(file.accountHash, inbox, parse)) &&
            (out.raised.Cancelled? || out.raised.Interrupt? || out.raised.InvalidToken? || out.raised.ConnectionFailure?) &&
            (out.writerClosed <==> file.Loaded? && open.Opened?)
  {
    var out := SendSession(file, open, inbox, queue, parse);
    if file.Loaded? {
      var token := file.accountHash;
      var initiated := [SendConn(Initiated)];
      match open
      case OpenFailed(f) =>
        assert out == Abort(initiated, [], [], f, false);
        AbortShape(initiated, [], [], f, false);
      case Opened =>
        var x := Api.Handshake(inbox, 0, Auth.TokenText(token) + "\n");
        if x.reply.Failure? {
          assert out == Abort(initiated, [], x.io, x.reply.error, true);
          AbortShape(initiated, [], x.io, x.reply.error, true);
        } else if !Authorised(token, inbox, parse) {
          var closed := initiated + [SendConn(Closed)];
          assert out == Abort(closed, [], x.io, InvalidToken(Auth.UNKNOWN_TOKEN), true);
          AbortShape(closed, [], x.io, InvalidToken(Auth.UNKNOWN_TOKEN), true);
        } else {
          Accepted(token, inbox, queue, parse);
          ConverseOutcome(x.io, inbox, x.next, queue);
        }
    }
  }

  /** A rejected token: CLOSED is reported twice, once before the InvalidToken is raised
      and once by its `except` clause, nothing but the token is written, and the watchdog
      hears nothing. */
  lemma RejectedToken(token: Option<string>, inbox: seq<ReadEvent>, queue: seq<QueueEvent>, parse: string -> Api.Parsed)
    requires Api.Handshake(inbox, 0, Auth.TokenText(token) + "\n").reply.Success?
    requires !Authorised(token, inbox, parse)
    ensures var out := SendSession(Auth.Loaded(token), Opened, inbox, queue, parse);
            out.status == [SendConn(Initiated), SendConn(Closed), SendConn(Closed)] &&
            out.raised == InvalidToken(Auth.UNKNOWN_TOKEN) &&
            Sends(out.io) == [Auth.TokenText(token) + "\n"] &&
            out.live == []
  {
  }

  /** After the prompt, the conversation writes exactly the submissions that the queue
      events it took call for, in dequeue order, after what the token exchange wrote. */
  lemma ConverseSends(io: seq<Io>, inbox: seq<ReadEvent>, next: nat, queue: seq<QueueEvent>)
    requires At(inbox, next).Data?
    ensures var p := Pump(Calls(queue), 0, inbox, next + 1);
            var out := Converse(io, inbox, next, queue);
            Sends(out.io) == Sends(io) + Outgoing(Calls(queue[..p.taken])) &&
            out.live == [SendOk] + p.live
  {
    var calls := Calls(queue);
    var p := Pump(calls, 0, inbox, next + 1);
    var prompt := At(inbox, next).raw;
    assert Converse(io, inbox, next, queue).io == io + [Recv(prompt)] + p.io;
    PromptSends(io, prompt, p.io);
    PumpSendsInOrder(calls, 0, inbox, next + 1);
    CallsPrefix(queue, p.taken);
  }

  /** Reading the prompt writes nothing. */
  lemma PromptSends(io: seq<Io>, prompt: string, rest: seq<Io>)
    ensures Sends(io + [Recv(prompt)] + rest) == Sends(io) + Sends(rest)
  {
    SendsAppend(io, [Recv(prompt)]);
    SendsOne(Recv(prompt));
    SendsAppend(io + [Recv(prompt)], rest);
  }

  /** The calls of a prefix of the queue are a prefix of its calls. */
  lemma {:induction false} CallsPrefix(queue: seq<QueueEvent>, n: nat)
    requires n <= |queue|
    ensures Calls(queue)[0..n] == Calls(queue[..n])
    decreases n
  {
    if n > 0 {
      assert queue[..n][1..] == queue[1..][..n - 1];
      CallsPrefix(queue[1..], n - 1);
    }
  }

  /** A strict alternation of submissions and acknowledgement reads, starting with a
      submission, with MSG_SENT reported for each submission and CHAT_RX for each
      acknowledgement. */
  predicate Alternating(io: seq<Io>, live: seq<Liveness>) {
    |live| == |io| &&
    (forall k :: 0 <= k < |io| ==> (io[k].Send? <==> k % 2 == 0)) &&
    (forall k :: 0 <= k < |live| ==> live[k] == if k % 2 == 0 then MsgSent else ChatRx)
  }

  /** A whole submission-and-acknowledgement pair followed by an alternation is one. */
  lemma AlternatingPair(io: seq<Io>, live: seq<Liveness>, rio: seq<Io>, rlive: seq<Liveness>)
    requires Alternating(io, live) && |io| == 2 && Alternating(rio, rlive)
    ensures Alternating(io + rio, live + rlive)
  {
    var a, b := io + rio, live + rlive;
    forall k | 2 <= k < |a|
      ensures (a[k].Send? <==> k % 2 == 0) && b[k] == if k % 2 == 0 then MsgSent else ChatRx
    {
      assert a[k] == rio[k - 2] && b[k] == rlive[k - 2];
    }
  }

  /** Each turn alternates on its own, and a turn that goes on is a whole pair. */
  lemma TurnAlternates(c: Call, ack: ReadEvent)
    ensures var t := TurnOf(c, ack);
            Alternating(t.Ops(), t.Signals()) && (t.Acked? ==> |t.io| == 2)
  {
  }

  /** The loop alternates strictly: every submission is followed by its acknowledgement
      before the next queue event is taken, and the watchdog hears MSG_SENT for each
      submission and CHAT_RX for each acknowledgement, in the same order. */
  lemma {:induction false} PumpAlternates(calls: seq<Call>, ci: nat, inbox: seq<ReadEvent>, ii: nat)
    requires ci <= |calls|
    ensures Alternating(Pump(calls, ci, inbox, ii).io, Pump(calls, ci, inbox, ii).live)
    decreases |calls| - ci
  {
    if ci < |calls| {
      var t := TurnOf(calls[ci], At(inbox, ii));
      TurnAlternates(calls[ci], At(inbox, ii));
      if t.Skip? {
        PumpAlternates(calls, ci + 1, inbox, ii);
        var rest := Pump(calls, ci + 1, inbox, ii);
        assert Pump(calls, ci, inbox, ii).io == rest.io && Pump(calls, ci, inbox, ii).live == rest.live;
      } else if t.Acked? {
        PumpAlternates(calls, ci + 1, inbox, ii + 1);
        var rest := Pump(calls, ci + 1, inbox, ii + 1);
        AlternatingPair(t.io, t.live, rest.io, rest.live);
      }
    }
  }
}
