/**
 * What the two stand-alone chat listeners (listen-minechat.py and main.py) share:
 * the capped doubling of the reconnect delay, the notices they log, one read session
 * (`read_chat_once`, the same loop in both scripts) and the shape of their reconnect
 * loops, which differ only in what they do between two sessions.
 *
 * A script of episodes stands for the successive connections; each episode says
 * whether `open_connection` succeeds and, if it does, what the readlines yield. A
 * script that runs out means the loop is still running.
 */
module Chat {
  import opened Events
  import Text

  /** `RECONNECT_DELAY_START` and `RECONNECT_DELAY_SEC`, in seconds. */
  const START: nat := 2
  /** `RECONNECT_DELAY_MAX` and `RECONNECT_DELAY_MAX_SEC`, in seconds. */
  const MAX: nat := 60

  /** `min(delay * 2, MAX)`. */
  function Next(delay: nat): nat {
    if delay * 2 < MAX then delay * 2 else MAX
  }

  /** The delay after `n` doublings. */
  function Nth(n: nat): nat {
    if n == 0 then START else Next(Nth(n - 1))
  }

  function Pow2(n: nat): (r: nat)
    ensures r >= 1
  {
    if n == 0 then 1 else 2 * Pow2(n - 1)
  }

  /** After `n` doublings the delay is `min(2^(n+1), 60)`. */
  lemma {:induction false} NthClosedForm(n: nat)
    ensures Nth(n) == if Pow2(n + 1) < MAX then Pow2(n + 1) else MAX
  {
    if n > 0 {
      NthClosedForm(n - 1);
    }
  }

  /** The delay stays within [2, 60]. */
  lemma {:induction false} NthBounds(n: nat)
    ensures START <= Nth(n) <= MAX
  {
    if n > 0 {
      NthBounds(n - 1);
    }
  }

  /** The delay never decreases. */
  lemma {:induction false} NthMonotone(m: nat, n: nat)
    requires m <= n
    ensures Nth(m) <= Nth(n)
    decreases n - m
  {
    if m < n {
      NthMonotone(m, n - 1);
      NthBounds(n - 1);
    }
  }

  /** From the sixth delay on (2, 4, 8, 16, 32, then 60) the cap is reached for good. */
  lemma {:induction false} NthCapped(n: nat)
    requires n >= 5
    ensures Nth(n) == MAX
  {
    if n == 5 {
      assert Nth(1) == 4 && Nth(2) == 8 && Nth(3) == 16 && Nth(4) == 32;
    } else {
      NthCapped(n - 1);
    }
  }

  /** What the scripts log besides the chat lines. */
  datatype Notice =
    | Connected                      // "Установлено соединение"
    | ClosedByServer                 // "Соединение закрыто сервером"
    | Failed(failure: Failure)       // "Ошибка соединения: {type(e).__name__}: {e}"
    | RetryIn(seconds: nat)          // "Повторная попытка через {delay}с…"
    | ReconnectIn(seconds: nat)      // "Повторное подключение через {delay}с…"

  /** The logged text of a notice; `typeName` gives the class name of an exception. */
  function Render(n: Notice, typeName: Failure -> string): string
    requires n.Failed? ==> n.failure.IsException()
  {
    match n
    case Connected => "Установлено соединение"
    case ClosedByServer => "Соединение закрыто сервером"
    case Failed(f) => "Ошибка соединения: " + typeName(f) + ": " + f.Message()
    case RetryIn(d) => "Повторная попытка через " + Text.NatToString(d) + "с…"
    case ReconnectIn(d) => "Повторное подключение через " + Text.NatToString(d) + "с…"
  }

  /** The delay in a rendered announcement reads back as the delay announced. */
  lemma AnnouncedDelayReadsBack(d: nat, typeName: Failure -> string)
    ensures var s := Render(RetryIn(d), typeName);
            var p := |"Повторная попытка через "|;
            |s| == p + |Text.NatToString(d)| + 2 &&
            Text.DigitsValue(s[p..|s| - 2]) == d
    ensures var s := Render(ReconnectIn(d), typeName);
            var p := |"Повторное подключение через "|;
            |s| == p + |Text.NatToString(d)| + 2 &&
            Text.DigitsValue(s[p..|s| - 2]) == d
  {
    var digits := Text.NatToString(d);
    Text.NatToStringRoundTrip(d);
    var s := Render(RetryIn(d), typeName);
    assert s[|"Повторная попытка через "|..|s| - 2] == digits;
    var t := Render(ReconnectIn(d), typeName);
    assert t[|"Повторное подключение через "|..|t| - 2] == digits;
  }

  /** What the scripts do, in order: log a chat line, log a notice, or sleep. */
  datatype Action = Chat(line: string) | Say(notice: Notice) | Sleep(seconds: nat)

  /** One connection: whether `open_connection` succeeds, and what its readlines yield. */
  datatype Episode = Episode(open: OpenOutcome, inbox: seq<ReadEvent>)

  /** What one `read_chat_once` logged, and the exception it raised, if any. */
  datatype Outcome = Outcome(log: seq<Action>, failure: Option<Failure>)

  /** `line.decode(...).rstrip("\n")`. */
  function Unline(raw: string): string {
    Text.RStrip(raw, Text.Newline)
  }

  /** Chat lines as log actions, in order. */
  function Chats(lines: seq<string>): (r: seq<Action>)
    ensures |r| == |lines|
    decreases |lines|
  {
    if lines == [] then [] else [Chat(lines[0])] + Chats(lines[1..])
  }

  /** The k-th chat action logs the k-th line. */
  lemma {:induction false} ChatsAt(lines: seq<string>, k: nat)
    requires k < |lines|
    ensures Chats(lines)[k] == Chat(lines[k])
    decreases |lines|
  {
    if k > 0 {
      ChatsAt(lines[1..], k - 1);
    }
  }

  /** Reference definition of `read_chat_once`. A failing `open_connection` raises
      before anything is logged; then every line is logged as it arrives, and the end
      of the stream is logged and ends the session normally, while an exception ends it
      without a notice. */
  function Once(e: Episode): Outcome {
    match e.open
    case OpenFailed(f) => Outcome([], Some(f))
    case Opened =>
      var d := Drain(e.inbox, Unline);
      match d.end
      case Eof => Outcome([Say(Connected)] + Chats(d.lines) + [Say(ClosedByServer)], None)
      case Broke(f) => Outcome([Say(Connected)] + Chats(d.lines), Some(f))
  }

  /** The shape of every session's log: nothing is logged when the connection cannot
      be opened, otherwise the connection notice comes first; a session that returns
      normally has logged the close last; a session logs nothing but chat lines and
      these two notices, and never sleeps. */
  lemma OnceShape(e: Episode)
    ensures var o := Once(e);
            (forall k :: 0 <= k < |o.log| ==>
               o.log[k].Chat? || o.log[k] == Say(Connected) || o.log[k] == Say(ClosedByServer)) &&
            (o.log == [] <==> e.open.OpenFailed?) &&
            (o.log == [] || o.log[0] == Say(Connected)) &&
            (o.failure.None? ==> e.open.Opened? && o.log[|o.log| - 1] == Say(ClosedByServer))
  {
    if e.open.Opened? {
      var lines := Drain(e.inbox, Unline).lines;
      var log := [Say(Connected)] + Chats(lines);
      forall k | 0 < k < |log|
        ensures log[k].Chat?
      {
        ChatsAt(lines, k - 1);
      }
    }
  }

  /** The shape of a session's log, as `OnceShape` states it: chat lines and the two
      notices only, the connection notice first, and the close last when the session
      returned normally. */
  predicate Logged(o: Outcome) {
    (forall k :: 0 <= k < |o.log| ==>
       o.log[k].Chat? || o.log[k] == Say(Connected) || o.log[k] == Say(ClosedByServer)) &&
    (o.log == [] || o.log[0] == Say(Connected)) &&
    (o.failure.None? ==> o.log != [] && o.log[|o.log| - 1] == Say(ClosedByServer))
  }

  /** The sessions over successive connections, one outcome per episode. */
  function Outcomes(eps: seq<Episode>): (outs: seq<Outcome>)
    ensures |outs| == |eps|
    decreases |eps|
  {
    if eps == [] then [] else [Once(eps[0])] + Outcomes(eps[1..])
  }

  lemma {:induction false} OutcomesAt(eps: seq<Episode>, k: nat)
    requires k < |eps|
    ensures Outcomes(eps)[k] == Once(eps[k])
    decreases |eps|
  {
    if k > 0 {
      OutcomesAt(eps[1..], k - 1);
    }
  }

  /** Every session's log has that shape. */
  lemma OutcomesLogged(eps: seq<Episode>)
    ensures forall k :: 0 <= k < |eps| ==> Logged(Outcomes(eps)[k])
  {
    forall k | 0 <= k < |eps|
      ensures Logged(Outcomes(eps)[k])
    {
      OutcomesAt(eps, k);
      OnceShape(eps[k]);
    }
  }

  lemma {:induction false} ChatsAppend(lines: seq<string>, line: string)
    ensures Chats(lines + [line]) == Chats(lines) + [Chat(line)]
    decreases |lines|
  {
    if lines != [] {
      assert (lines + [line])[1..] == lines[1..] + [line];
      ChatsAppend(lines[1..], line);
    }
  }

  /** `read_chat_once`. */
  method ReadChatOnce(e: Episode) returns (o: Outcome)
    ensures o == Once(e)
  {
    if e.open.OpenFailed? {
      return Outcome([], Some(e.open.failure));
    }
    o := ChatLoop(e.inbox, [Say(Connected)]);
  }

  /** The `while True` loop of `read_chat_once`: every line is logged without its
      trailing newline, until the server closes the stream, which is logged too, or an
      exception leaves. */
  method ChatLoop(inbox: seq<ReadEvent>, log0: seq<Action>) returns (o: Outcome)
    ensures var d := Drain(inbox, Unline);
            o.log == log0 + Chats(d.lines) + (if d.end.Eof? then [Say(ClosedByServer)] else []) &&
            o.failure == (if d.end.Broke? then Some(d.end.failure) else None)
  {
    var log := log0;
    ghost var lines: seq<string> := [];
    var i := 0;
    assert log == log0 + Chats(lines);
    while true
      invariant 0 <= i <= |inbox|
      invariant log == log0 + Chats(lines)
      invariant Drain(inbox, Unline) == Drained(lines + Drain(inbox[i..], Unline).lines, Drain(inbox[i..], Unline).end)
      decreases |inbox| - i
    {
      var line := At(inbox, i);
      if line.Fault? || (line.Data? && line.raw == "") {
        StreamStops(inbox, i, lines, Unline);
        if line.Fault? {
          return Outcome(log, Some(line.failure));
        }
        log := log + [Say(ClosedByServer)];
        return Outcome(log, None);
      }
      StreamGoesOn(inbox, i, lines, Unline);
      // a Silence event only prolongs the wait of this readline
      if line.Data? {
        var text := Unline(line.raw);
        ChatsAppend(lines, text);
        assert log + [Chat(text)] == log0 + Chats(lines + [text]);
        lines := lines + [text];
        log := log + [Chat(text)];
      }
      i := i + 1;
    }
  }

  /** N lines then the end of the stream: the connection, the N lines without their
      trailing newlines in arrival order, and the close are logged, and the session
      returns normally. */
  lemma OnceLogsLines(raws: seq<string>)
    requires forall i :: 0 <= i < |raws| ==> raws[i] != ""
    ensures Once(Episode(Opened, Lines(raws) + [Data("")]))
         == Outcome([Say(Connected)] + Chats(seq(|raws|, i requires 0 <= i < |raws| => Unline(raws[i])))
                    + [Say(ClosedByServer)], None)
  {
    var texts := seq(|raws|, i requires 0 <= i < |raws| => Unline(raws[i]));
    LinesThenEof(raws, Unline);
    assert Drain(Lines(raws) + [Data("")], Unline).lines == texts;
  }

  /** An exception while lines are flowing leaves the session after every line received
      before it has been logged, with no close notice. */
  lemma OnceFails(before: seq<ReadEvent>, f: Failure, after: seq<ReadEvent>)
    requires forall i :: 0 <= i < |before| ==> Quiet(before[i])
    ensures Once(Episode(Opened, before + [Fault(f)] + after))
         == Outcome([Say(Connected)] + Chats(Texts(before, Unline)), Some(f))
  {
    var tail := [Fault(f)] + after;
    assert before + [Fault(f)] + after == before + tail;
    DrainAppend(before, tail, Unline);
    assert tail[0] == Fault(f);
    assert Drain(tail, Unline) == Drained([], Broke(f));
    assert Texts(before, Unline) + [] == Texts(before, Unline);
  }

  /** Whether a session ends the reconnect loop: cancellation and KeyboardInterrupt are
      re-raised, every other exception is survived. */
  predicate Halts(o: Outcome) {
    o.failure.Some? && !o.failure.value.IsException()
  }

  /** What a reconnect loop did over the observed episodes, and the exception it
      re-raised (none while it is still running). */
  datatype Watch = Watch(trace: seq<Action>, raised: Option<Failure>)

  /** The loop's actions so far, followed by what the rest of the loop does. */
  function Resume(trace: seq<Action>, rest: Watch): Watch {
    Watch(trace + rest.trace, rest.raised)
  }

  /** Reference definition of a reconnect loop from session `i` on, with the current
      `delay`: the session ends as `outs[i]` says, then, unless it halts the loop, the
      loop does what `recover` says between two sessions and doubles the delay. */
  function Forever(outs: seq<Outcome>, i: nat, delay: nat, recover: (Outcome, nat) -> seq<Action>): Watch
    requires i <= |outs|
    decreases |outs| - i
  {
    if i == |outs| then Watch([], None)
    else
      var o := outs[i];
      if Halts(o) then Watch(o.log, o.failure)
      else Resume(o.log + recover(o, delay), Forever(outs, i + 1, Next(delay), recover))
  }

  /** `m` successive delays, the first `d`, each the double of the one before up to
      the cap. */
  function Delays(d: nat, m: nat): (s: seq<nat>)
    ensures |s| == m
    decreases m
  {
    if m == 0 then [] else [d] + Delays(Next(d), m - 1)
  }

  /** Starting after `n` doublings, the k-th delay is the one after `n + k`. */
  lemma {:induction false} DelaysAt(n: nat, m: nat, k: nat)
    requires k < m
    ensures Delays(Nth(n), m)[k] == Nth(n + k)
    decreases m
  {
    if k > 0 {
      assert Next(Nth(n)) == Nth(n + 1);
      DelaysAt(n + 1, m - 1, k - 1);
    }
  }

  /** The first `j` delays are 2, 4, 8, 16, 32, then 60 for good: within [2, 60], never
      shorter than the one before, and at the cap from the sixth on. */
  lemma DelayRun(j: nat)
    ensures var s := Delays(START, j);
            (forall k :: 0 <= k < |s| ==> s[k] == Nth(k)) &&
            (forall k :: 0 <= k < |s| ==> START <= s[k] <= MAX) &&
            (forall k, l :: 0 <= k <= l < |s| ==> s[k] <= s[l]) &&
            (forall k :: 5 <= k < |s| ==> s[k] == MAX)
  {
    var s := Delays(START, j);
    forall k | 0 <= k < |s|
      ensures s[k] == Nth(k) && START <= s[k] <= MAX
    {
      DelaysAt(0, j, k);
      NthBounds(k);
    }
    forall k, l | 0 <= k <= l < |s|
      ensures s[k] <= s[l]
    {
      NthMonotone(k, l);
    }
    forall k | 5 <= k < |s|
      ensures s[k] == MAX
    {
      NthCapped(k);
    }
  }

  /** Two actions appended one at a time. */
  lemma AppendTwo(t: seq<Action>, x: Action, y: Action)
    ensures t + [x] + [y] == t + [x, y]
  {
  }

  /** Three actions appended one at a time. */
  lemma AppendThree(t: seq<Action>, x: Action, y: Action, z: Action)
    ensures t + [x] + [y] + [z] == t + [x, y, z]
  {
  }

  /** A session the loop survives. */
  lemma Advance(outs: seq<Outcome>, i: nat, delay: nat, recover: (Outcome, nat) -> seq<Action>, trace: seq<Action>)
    requires i < |outs| && !Halts(outs[i])
    ensures Resume(trace, Forever(outs, i, delay, recover))
         == Resume(trace + outs[i].log + recover(outs[i], delay), Forever(outs, i + 1, Next(delay), recover))
  {
    var o := outs[i];
    var rest := Forever(outs, i + 1, Next(delay), recover).trace;
    assert trace + (o.log + recover(o, delay) + rest) == trace + o.log + recover(o, delay) + rest;
  }

  /** The session that ends the loop. */
  lemma Finish(outs: seq<Outcome>, i: nat, delay: nat, recover: (Outcome, nat) -> seq<Action>, trace: seq<Action>)
    requires i < |outs| && Halts(outs[i])
    ensures Resume(trace, Forever(outs, i, delay, recover)) == Watch(trace + outs[i].log, outs[i].failure)
  {
  }

  /** The first session, from `i` on, that halts the loop (`|outs|` if none). */
  function Halt(outs: seq<Outcome>, i: nat): (j: nat)
    requires i <= |outs|
    ensures i <= j <= |outs|
    decreases |outs| - i
  {
    if i == |outs| || Halts(outs[i]) then i else Halt(outs, i + 1)
  }

  /** The loop survives every session before that one and halts at it. */
  lemma {:induction false} HaltIsFirst(outs: seq<Outcome>, i: nat)
    requires i <= |outs|
    ensures var j := Halt(outs, i);
            (forall k :: i <= k < j ==> !Halts(outs[k])) &&
            (j < |outs| ==> Halts(outs[j]))
    decreases |outs| - i
  {
    if i < |outs| && !Halts(outs[i]) {
      HaltIsFirst(outs, i + 1);
    }
  }

  /** The sleeps, in order. */
  function Sleeps(trace: seq<Action>): (r: seq<nat>)
    ensures |r| <= |trace|
    decreases |trace|
  {
    if trace == [] then []
    else (if trace[0].Sleep? then [trace[0].seconds] else []) + Sleeps(trace[1..])
  }

  lemma {:induction false} SleepsAppend(a: seq<Action>, b: seq<Action>)
    ensures Sleeps(a + b) == Sleeps(a) + Sleeps(b)
    decreases |a|
  {
    if a == [] {
      assert a + b == b;
    } else {
      assert (a + b)[0] == a[0];
      assert (a + b)[1..] == a[1..] + b;
      SleepsAppend(a[1..], b);
    }
  }

  lemma {:induction false} NoSleeps(trace: seq<Action>)
    requires forall k :: 0 <= k < |trace| ==> !trace[k].Sleep?
    ensures Sleeps(trace) == []
    decreases |trace|
  {
    if trace != [] {
      NoSleeps(trace[1..]);
    }
  }

  /** Notices followed by one sleep sleep once. */
  lemma SleepsOnce(notices: seq<Action>, d: nat)
    requires forall k :: 0 <= k < |notices| ==> !notices[k].Sleep?
    ensures Sleeps(notices + [Sleep(d)]) == [d]
  {
    NoSleeps(notices);
    SleepsAppend(notices, [Sleep(d)]);
    assert [Sleep(d)][1..] == [];
  }

  /** The backoff of a reconnect loop from session `i` on, starting with `delay`: one
      sleep per survived session, each the double of the one before up to the cap, and
      the loop ends exactly at the first session that halts it, re-raising its
      exception. */
  predicate BackedOff(outs: seq<Outcome>, i: nat, delay: nat, recover: (Outcome, nat) -> seq<Action>)
    requires i <= |outs|
  {
    var j := Halt(outs, i);
    Paced(Forever(outs, i, delay, recover), delay, j - i, if j < |outs| then outs[j].failure else None)
  }

  /** A run of the loop that sleeps `m` times, starting with `delay` and doubling, and
      ends by raising `raised`. */
  predicate Paced(w: Watch, delay: nat, m: nat, raised: Option<Failure>) {
    Sleeps(w.trace) == Delays(delay, m) && w.raised == raised
  }

  /** Every reconnect loop whose recovery sleeps once, for the current delay, backs
      off so. */
  lemma {:induction false} Backoff(outs: seq<Outcome>, i: nat, delay: nat, recover: (Outcome, nat) -> seq<Action>)
    requires i <= |outs|
    requires forall k :: 0 <= k < |outs| ==> Logged(outs[k])
    requires forall o, d: nat :: !Halts(o) ==> Sleeps(recover(o, d)) == [d]
    ensures BackedOff(outs, i, delay, recover)
    decreases |outs| - i
  {
    if i < |outs| {
      NoSleeps(outs[i].log);
      if !Halts(outs[i]) {
        Backoff(outs, i + 1, Next(delay), recover);
        BackoffStep(outs, i, delay, recover);
      } else {
        Halted(outs, i, delay, recover);
      }
    }
  }

  /** A session that halts the loop sleeps no more. */
  lemma Halted(outs: seq<Outcome>, i: nat, delay: nat, recover: (Outcome, nat) -> seq<Action>)
    requires i < |outs| && Halts(outs[i]) && Sleeps(outs[i].log) == []
    ensures Forever(outs, i, delay, recover) == Watch(outs[i].log, outs[i].failure)
    ensures Sleeps(Forever(outs, i, delay, recover).trace) == [] && Halt(outs, i) == i
  {
  }

  /** A session the loop survives sleeps once, for the current delay, before the rest
      of the loop runs with the next delay, and leaves the loop's end to the rest. */
  lemma Survived(outs: seq<Outcome>, i: nat, delay: nat, recover: (Outcome, nat) -> seq<Action>)
    requires i < |outs| && !Halts(outs[i]) && Sleeps(outs[i].log) == []
    requires Sleeps(recover(outs[i], delay)) == [delay]
    ensures Sleeps(Forever(outs, i, delay, recover).trace)
            == [delay] + Sleeps(Forever(outs, i + 1, Next(delay), recover).trace)
    ensures Forever(outs, i, delay, recover).raised == Forever(outs, i + 1, Next(delay), recover).raised
    ensures Halt(outs, i) == Halt(outs, i + 1)
  {
    var o := outs[i];
    var rest := Forever(outs, i + 1, Next(delay), recover);
    assert Forever(outs, i, delay, recover).trace == o.log + recover(o, delay) + rest.trace;
    SleepsAppend(o.log, recover(o, delay));
    SleepsAppend(o.log + recover(o, delay), rest.trace);
  }

  /** The induction step of `Backoff` for a survived session. */
  lemma BackoffStep(outs: seq<Outcome>, i: nat, delay: nat, recover: (Outcome, nat) -> seq<Action>)
    requires i < |outs| && !Halts(outs[i]) && Sleeps(outs[i].log) == []
    requires Sleeps(recover(outs[i], delay)) == [delay]
    requires BackedOff(outs, i + 1, Next(delay), recover)
    ensures BackedOff(outs, i, delay, recover)
  {
    Survived(outs, i, delay, recover);
    var j := Halt(outs, i + 1);
    PacedStep(Forever(outs, i, delay, recover), Forever(outs, i + 1, Next(delay), recover),
              delay, j - (i + 1), if j < |outs| then outs[j].failure else None);
  }

  /** One more sleep, for the current delay, ahead of a paced run with the next delay
      is a paced run one sleep longer. */
  lemma PacedStep(w: Watch, rest: Watch, delay: nat, m: nat, raised: Option<Failure>)
    requires Sleeps(w.trace) == [delay] + Sleeps(rest.trace) && w.raised == rest.raised
    requires Paced(rest, Next(delay), m, raised)
    ensures Paced(w, delay, m + 1, raised)
  {
    assert Delays(delay, m + 1) == [delay] + Delays(Next(delay), m);
  }

  /** Every action picked by `pick` is directly preceded by one that `cue` accepts
      for it. */
  predicate Preceded(trace: seq<Action>, pick: Action -> bool, cue: (Action, Action) -> bool) {
    forall k :: 0 <= k < |trace| && pick(trace[k]) ==> 0 < k && cue(trace[k - 1], trace[k])
  }

  lemma PrecededAppend(a: seq<Action>, b: seq<Action>, pick: Action -> bool, cue: (Action, Action) -> bool)
    requires Preceded(a, pick, cue) && Preceded(b, pick, cue)
    requires b == [] || !pick(b[0])
    ensures Preceded(a + b, pick, cue)
  {
    var t := a + b;
    forall k | |a| <= k < |t| && pick(t[k])
      ensures 0 < k && cue(t[k - 1], t[k])
    {
      assert t[k] == b[k - |a|];
      assert k > |a|;
      assert t[k - 1] == b[k - 1 - |a|];
    }
  }
}
