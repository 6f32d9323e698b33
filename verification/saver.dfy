/**
 * The reconnect loop of main.py (the chat saver): the same capped doubling as the
 * listener, but after the server closes the stream it sleeps first, then doubles the
 * delay, then announces the new delay, so the announced value is the delay of the
 * next sleep, not of the one just taken and not the wait before reconnecting, which
 * follows at once. After an error it logs the error, announces the current delay,
 * sleeps it and doubles it. Every logged line is stamped with `!!` and the time.
 */
module Saver {
  import opened Events
  import Text
  import opened Chat

  /** `log_line`'s stamp: `!!`, the timestamp, a space, and the line without trailing
      whitespace. */
  function Stamp(ts: string, line: string): (r: string)
    ensures |ts| + 3 < |r| <= |ts| + 4 + |line|
    ensures r[..3] == "!! " && r[3..|ts| + 3] == ts && r[|ts| + 3] == ' '
    ensures r[|ts| + 4..] == line[..|r| - |ts| - 4]
    ensures forall i :: |r| - |ts| - 4 <= i < |line| ==> line[i] in Text.Whitespace
    ensures |r| == |ts| + 4 || r[|r| - 1] !in Text.Whitespace
  {
    var kept := Text.RStrip(line, Text.Whitespace);
    var r := "!! " + ts + " " + kept;
    assert r[3..|ts| + 3] == ts;
    assert r[|ts| + 4..] == kept;
    r
  }

  /** Trailing whitespace of a line does not reach the history. */
  lemma StampIgnoresTrailingSpace(ts: string, line: string, tail: string)
    requires forall i :: 0 <= i < |tail| ==> tail[i] in Text.Whitespace
    ensures Stamp(ts, line + tail) == Stamp(ts, line)
  {
    Text.RStripIgnoresTrail(line, tail, Text.Whitespace);
  }

  /** What `read_chat_forever` does between two sessions: after the server closed the
      stream, sleep and then announce the doubled delay; after an error, log it,
      announce the current delay and sleep it. */
  function Recovery(o: Outcome, delay: nat): seq<Action> {
    match o.failure
    case None => [Sleep(delay), Say(ReconnectIn(Next(delay)))]
    case Some(f) => [Say(Failed(f)), Say(RetryIn(delay)), Sleep(delay)]
  }

  /** Between two sessions the loop sleeps once, for the current delay. */
  lemma RecoverySleepsOnce(o: Outcome, delay: nat)
    ensures Sleeps(Recovery(o, delay)) == [delay]
  {
    var r := Recovery(o, delay);
    if o.failure.None? {
      assert r[1..][1..] == [];
    } else {
      SleepsOnce(r[..2], delay);
      assert r == r[..2] + [Sleep(delay)];
    }
  }

  /** `read_chat_forever`. */
  method ReadChatForever(eps: seq<Episode>) returns (w: Watch)
    ensures w == Forever(Outcomes(eps), 0, START, Recovery)
  {
    ghost var outs := Outcomes(eps);
    var delay: nat := START;
    var trace: seq<Action> := [];
    var i := 0;
    while i < |eps|
      invariant i <= |eps|
      invariant Forever(outs, 0, START, Recovery) == Resume(trace, Forever(outs, i, delay, Recovery))
      decreases |eps| - i
    {
      var o := ReadChatOnce(eps[i]);
      OutcomesAt(eps, i);
      var before := trace;
      var slept := delay;
      trace := trace + o.log;
      if o.failure.None? {
        AppendTwo(trace, Sleep(delay), Say(ReconnectIn(Next(delay))));
        trace := trace + [Sleep(delay)];
        delay := if delay * 2 < MAX then delay * 2 else MAX;
        trace := trace + [Say(ReconnectIn(delay))];
      } else {
        var f := o.failure.value;
        if !f.IsException() {
          Finish(outs, i, delay, Recovery, before);
          return Watch(trace, Some(f));
        }
        AppendThree(trace, Say(Failed(f)), Say(RetryIn(delay)), Sleep(delay));
        trace := trace + [Say(Failed(f))];
        trace := trace + [Say(RetryIn(delay))];
        trace := trace + [Sleep(delay)];
        delay := if delay * 2 < MAX then delay * 2 else MAX;
      }
      assert trace == before + o.log + Recovery(o, slept);
      Advance(outs, i, slept, Recovery, before);
      i := i + 1;
    }
    assert trace + [] == trace;
    w := Watch(trace, None);
  }

  /** The backoff is the listener's: one sleep per survived session, 2, 4, 8, 16, 32,
      then 60 seconds for good, never shorter than the one before and never reset; the
      loop ends exactly at the first session that is cancelled or interrupted,
      re-raising it. */
  lemma DelaysDouble(eps: seq<Episode>)
    ensures var w := Forever(Outcomes(eps), 0, START, Recovery);
            var j := Halt(Outcomes(eps), 0);
            var s := Sleeps(w.trace);
            s == Delays(START, j) &&
            (forall k :: 0 <= k < |s| ==> s[k] == Nth(k)) &&
            (forall k :: 0 <= k < |s| ==> START <= s[k] <= MAX) &&
            (forall k, l :: 0 <= k <= l < |s| ==> s[k] <= s[l]) &&
            (forall k :: 5 <= k < |s| ==> s[k] == MAX) &&
            w.raised == (if j < |eps| then Once(eps[j]).failure else None) &&
            (forall k :: 0 <= k < j ==> !Halts(Once(eps[k]))) &&
            (j < |eps| ==> Halts(Once(eps[j])))
  {
    var outs := Outcomes(eps);
    HaltIsFirst(outs, 0);
    OutcomesLogged(eps);
    forall k | 0 <= k < |eps|
      ensures outs[k] == Once(eps[k])
    {
      OutcomesAt(eps, k);
    }
    forall o, d: nat | !Halts(o)
      ensures Sleeps(Recovery(o, d)) == [d]
    {
      RecoverySleepsOnce(o, d);
    }
    Backoff(outs, 0, START, Recovery);
    DelayRun(Halt(outs, 0));
  }

  predicate IsSleep(a: Action) {
    a.Sleep?
  }

  predicate IsReconnect(a: Action) {
    a.Say? && a.notice.ReconnectIn?
  }

  /** The sleep `b` follows the close notice or the announcement of its own delay. */
  predicate Cues(a: Action, b: Action) {
    b.Sleep? ==> a == Say(ClosedByServer) || a == Say(RetryIn(b.seconds))
  }

  /** The reconnection announcement `b` follows a sleep and names its doubled delay. */
  predicate AnnouncesNext(a: Action, b: Action) {
    b.Say? && b.notice.ReconnectIn? ==> a.Sleep? && b.notice.seconds == Next(a.seconds)
  }

  /** After the server closes the stream the loop sleeps straight after the close
      notice, without announcing it, and the reconnection it announces afterwards
      names the doubled delay, not the one just slept; after an error it sleeps the
      delay it has just announced. */
  lemma {:induction false} AnnouncementOrder(outs: seq<Outcome>, i: nat, delay: nat)
    requires i <= |outs|
    requires forall k :: 0 <= k < |outs| ==> Logged(outs[k])
    ensures var t := Forever(outs, i, delay, Recovery).trace;
            Preceded(t, IsSleep, Cues) && Preceded(t, IsReconnect, AnnouncesNext) &&
            (t == [] || (!t[0].Sleep? && !IsReconnect(t[0])))
    decreases |outs| - i
  {
    if i < |outs| {
      var o := outs[i];
      assert Logged(o);
      assert Preceded(o.log, IsSleep, Cues) && Preceded(o.log, IsReconnect, AnnouncesNext);
      if !Halts(o) {
        var r := Recovery(o, delay);
        var rest := Forever(outs, i + 1, Next(delay), Recovery).trace;
        AnnouncementOrder(outs, i + 1, Next(delay));
        var chunk := o.log + r;
        ChunkOrder(o, delay);
        PrecededAppend(chunk, rest, IsSleep, Cues);
        PrecededAppend(chunk, rest, IsReconnect, AnnouncesNext);
        assert chunk[0] == if o.log == [] then r[0] else o.log[0];
      }
    }
  }

  /** The order within one session and the recovery after it. */
  lemma ChunkOrder(o: Outcome, delay: nat)
    requires !Halts(o) && Logged(o)
    ensures Preceded(o.log + Recovery(o, delay), IsSleep, Cues)
    ensures Preceded(o.log + Recovery(o, delay), IsReconnect, AnnouncesNext)
  {
    var r := Recovery(o, delay);
    var t := o.log + r;
    var n := |o.log|;
    forall k | 0 <= k < |t| && (IsSleep(t[k]) || IsReconnect(t[k]))
      ensures 0 < k && Cues(t[k - 1], t[k]) && AnnouncesNext(t[k - 1], t[k])
    {
      if k < n {
        assert false;
      } else if o.failure.None? {
        assert t[n] == Sleep(delay) && t[n - 1] == Say(ClosedByServer);
        assert n + 1 < |t| ==> t[n + 1] == Say(ReconnectIn(Next(delay))) && t[n] == Sleep(delay);
      } else {
        assert t[n] == Say(Failed(o.failure.value));
        assert t[n + 1] == Say(RetryIn(delay)) && t[n + 2] == Sleep(delay);
      }
    }
  }
}
