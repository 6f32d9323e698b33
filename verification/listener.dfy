/**
 * The reconnect loop of listen-minechat.py: read the chat until the session ends,
 * announce the delay, sleep it and double it (capped at 60 seconds), whether the
 * session ended with the server closing the stream or with an error; cancellation
 * and KeyboardInterrupt end the loop. Every logged line is stamped with the time.
 */
module Listener {
  import opened Events
  import Text
  import opened Chat

  /** `log_line`'s stamp: the timestamp, a space, and the line without trailing
      whitespace. */
  function Stamp(ts: string, line: string): (r: string)
    ensures |ts| < |r| <= |ts| + 1 + |line|
    ensures r[..|ts|] == ts && r[|ts|] == ' '
    ensures r[|ts| + 1..] == line[..|r| - |ts| - 1]
    ensures forall i :: |r| - |ts| - 1 <= i < |line| ==> line[i] in Text.Whitespace
    ensures |r| == |ts| + 1 || r[|r| - 1] !in Text.Whitespace
  {
    var kept := Text.RStrip(line, Text.Whitespace);
    var r := ts + " " + kept;
    assert r[|ts| + 1..] == kept;
    r
  }

  /** Trailing whitespace of a line, the newline of a chat line among it, does not
      reach the history. */
  lemma StampIgnoresTrailingSpace(ts: string, line: string, tail: string)
    requires forall i :: 0 <= i < |tail| ==> tail[i] in Text.Whitespace
    ensures Stamp(ts, line + tail) == Stamp(ts, line)
  {
    Text.RStripIgnoresTrail(line, tail, Text.Whitespace);
  }

  /** What `read_chat_forever` does between two sessions: after the server closed the
      stream, announce the reconnection; after an error, log it and announce the
      retry; then sleep the current delay. */
  function Recovery(o: Outcome, delay: nat): seq<Action> {
    match o.failure
    case None => [Say(ReconnectIn(delay)), Sleep(delay)]
    case Some(f) => [Say(Failed(f)), Say(RetryIn(delay)), Sleep(delay)]
  }

  /** Between two sessions the loop sleeps once, for the current delay, and only after
      announcing it. */
  lemma RecoverySleepsOnce(o: Outcome, delay: nat)
    ensures var r := Recovery(o, delay);
            Sleeps(r) == [delay] && r[|r| - 1] == Sleep(delay) &&
            forall k :: 0 <= k < |r| - 1 ==> !r[k].Sleep?
  {
    var r := Recovery(o, delay);
    SleepsOnce(r[..|r| - 1], delay);
    assert r == r[..|r| - 1] + [Sleep(delay)];
  }

  /** `read_chat_forever`. */
  method ReadChatForever(eps: seq<Episode>) returns (w: Watch)
    ensures w == Forever(Outcomes(eps), 0, START, Recovery)
  {
    ghost var outs := Outcomes(eps);
    var delay: nat := START;
    var trace: seq<Action> := [];
    var i := 0;
    while i < |eps|
      invariant i <= |eps|
      invariant Forever(outs, 0, START, Recovery) == Resume(trace, Forever(outs, i, delay, Recovery))
      decreases |eps| - i
    {
      var o := ReadChatOnce(eps[i]);
      OutcomesAt(eps, i);
      var before := trace;
      trace := trace + o.log;
      if o.failure.None? {
        AppendTwo(trace, Say(ReconnectIn(delay)), Sleep(delay));
        trace := trace + [Say(ReconnectIn(delay))];
        trace := trace + [Sleep(delay)];
      } else {
        var f := o.failure.value;
        if !f.IsException() {
          Finish(outs, i, delay, Recovery, before);
          return Watch(trace, Some(f));
        }
        AppendThree(trace, Say(Failed(f)), Say(RetryIn(delay)), Sleep(delay));
        trace := trace + [Say(Failed(f))];
        trace := trace + [Say(RetryIn(delay))];
        trace := trace + [Sleep(delay)];
      }
      assert trace == before + o.log + Recovery(o, delay);
      Advance(outs, i, delay, Recovery, before);
      delay := if delay * 2 < MAX then delay * 2 else MAX;
      i := i + 1;
    }
    assert trace + [] == trace;
    w := Watch(trace, None);
  }

  /** The backoff: one sleep per survived session, 2, 4, 8, 16, 32, then 60 seconds
      for good, never shorter than the one before and never reset; the loop ends
      exactly at the first session that is cancelled or interrupted, re-raising it. */
  lemma DelaysDouble(eps: seq<Episode>)
    ensures var w := Forever(Outcomes(eps), 0, START, Recovery);
            var j := Halt(Outcomes(eps), 0);
            var s := Sleeps(w.trace);
            s == Delays(START, j) &&
            (forall k :: 0 <= k < |s| ==> s[k] == Nth(k)) &&
            (forall k :: 0 <= k < |s| ==> START <= s[k] <= MAX) &&
            (forall k, l :: 0 <= k <= l < |s| ==> s[k] <= s[l]) &&
            (forall k :: 5 <= k < |s| ==> s[k] == MAX) &&
            w.raised == (if j < |eps| then Once(eps[j]).failure else None) &&
            (forall k :: 0 <= k < j ==> !Halts(Once(eps[k]))) &&
            (j < |eps| ==> Halts(Once(eps[j])))
  {
    var outs := Outcomes(eps);
    HaltIsFirst(outs, 0);
    OutcomesLogged(eps);
    forall k | 0 <= k < |eps|
      ensures outs[k] == Once(eps[k])
    {
      OutcomesAt(eps, k);
    }
    forall o, d: nat | !Halts(o)
      ensures Sleeps(Recovery(o, d)) == [d]
    {
      RecoverySleepsOnce(o, d);
    }
    Backoff(outs, 0, START, Recovery);
    DelayRun(Halt(outs, 0));
  }

  predicate IsSleep(a: Action) {
    a.Sleep?
  }

  /** `a` announces the sleep `b`. */
  predicate Announces(a: Action, b: Action) {
    b.Sleep? ==> a == Say(ReconnectIn(b.seconds)) || a == Say(RetryIn(b.seconds))
  }

  /** Every sleep is announced by the line logged just before it, with the very delay
      it sleeps. */
  lemma {:induction false} AnnouncedIsSlept(outs: seq<Outcome>, i: nat, delay: nat)
    requires i <= |outs|
    requires forall k :: 0 <= k < |outs| ==> Logged(outs[k])
    ensures var t := Forever(outs, i, delay, Recovery).trace;
            Preceded(t, IsSleep, Announces) && (t == [] || !t[0].Sleep?)
    decreases |outs| - i
  {
    if i < |outs| {
      var o := outs[i];
      assert Logged(o);
      if !Halts(o) {
        var r := Recovery(o, delay);
        var rest := Forever(outs, i + 1, Next(delay), Recovery).trace;
        AnnouncedIsSlept(outs, i + 1, Next(delay));
        RecoverySleepsOnce(o, delay);
        assert Preceded(r, IsSleep, Announces);
        PrecededAppend(o.log, r, IsSleep, Announces);
        PrecededAppend(o.log + r, rest, IsSleep, Announces);
        assert (o.log + r)[0] == if o.log == [] then r[0] else o.log[0];
      }
    }
  }
}
