/**
 * The restart loop of core/connection.py: run one generation of the read session,
 * the send session and the watchdog in a task group, and when it fails with
 * ConnectionErrors wait a fixed delay and start a new generation.
 *
 * A generation is abstracted as the exceptions its task group ends with, in the
 * order of the exception group (none when every task returned). A script of
 * generations that runs out means the loop is still running.
 */
module Connection {
  import opened Events

  /** What the loop does: start a generation, or log the first ConnectionError of a
      failed generation and sleep `seconds`. */
  datatype Step = Launch | Pause(first: string, seconds: real)

  /** What the loop did over the observed generations, and the exceptions it let out
      (none while it is still running). */
  datatype Supervision = Supervision(steps: seq<Step>, raised: seq<Failure>)

  /** The part of an exception group that `except* ConnectionError` handles: the
      messages of its ConnectionErrors, in group order. */
  function Matched(errors: seq<Failure>): (r: seq<string>)
    ensures |r| <= |errors|
    decreases |errors|
  {
    if errors == [] then []
    else (if errors[0].ConnectionFailure? then [errors[0].msg] else []) + Matched(errors[1..])
  }

  /** The part `except* ConnectionError` re-raises once its handler is done. */
  function Unmatched(errors: seq<Failure>): (r: seq<Failure>)
    ensures |r| <= |errors|
    decreases |errors|
  {
    if errors == [] then []
    else (if errors[0].ConnectionFailure? then [] else [errors[0]]) + Unmatched(errors[1..])
  }

  /** `except*` splits the group without losing or duplicating a member: every
      ConnectionError is handled and every other exception is re-raised; the handler
      runs exactly when the group holds a ConnectionError, and nothing re-raised is
      one. */
  lemma {:induction false} SplitPartitions(errors: seq<Failure>)
    ensures |Matched(errors)| + |Unmatched(errors)| == |errors|
    ensures Matched(errors) == [] <==> forall k :: 0 <= k < |errors| ==> !errors[k].ConnectionFailure?
    ensures forall k :: 0 <= k < |Unmatched(errors)| ==> !Unmatched(errors)[k].ConnectionFailure?
    ensures forall k :: 0 <= k < |errors| && !errors[k].ConnectionFailure? ==> errors[k] in Unmatched(errors)
    ensures forall k :: 0 <= k < |errors| && errors[k].ConnectionFailure? ==> errors[k].msg in Matched(errors)
    decreases |errors|
  {
    if errors != [] {
      SplitPartitions(errors[1..]);
      forall k | 1 <= k < |errors|
        ensures !errors[k].ConnectionFailure? ==> errors[k] in Unmatched(errors)
        ensures errors[k].ConnectionFailure? ==> errors[k].msg in Matched(errors)
      {
        assert errors[k] == errors[1..][k - 1];
      }
    }
  }

  /** What one generation adds: its start, then the log line and the sleep if its
      group held a ConnectionError. */
  function Round(errors: seq<Failure>, delay: real): seq<Step> {
    var matched := Matched(errors);
    [Launch] + (if matched == [] then [] else [Pause(matched[0], delay)])
  }

  /** Reference definition of the loop from generation `i` on. */
  function Supervise(gens: seq<seq<Failure>>, i: nat, delay: real): (r: Supervision)
    requires i <= |gens|
    decreases |gens| - i
  {
    if i == |gens| then Supervision([], [])
    else if Unmatched(gens[i]) != [] then Supervision(Round(gens[i], delay), Unmatched(gens[i]))
    else
      var rest := Supervise(gens, i + 1, delay);
      Supervision(Round(gens[i], delay) + rest.steps, rest.raised)
  }

  /** `handle_connection`. */
  method HandleConnection(gens: seq<seq<Failure>>, delay: real) returns (out: Supervision)
    ensures out == Supervise(gens, 0, delay)
  {
    var steps: seq<Step> := [];
    var i := 0;
    while i < |gens|
      invariant i <= |gens|
      invariant Supervise(gens, 0, delay) == Resume(steps, Supervise(gens, i, delay))
      decreases |gens| - i
    {
      var errors := gens[i];
      var before := steps;
      steps := steps + [Launch];
      var matched := Matched(errors);
      if matched != [] {
        steps := steps + [Pause(matched[0], delay)];
      }
      Appended(before, errors, delay);
      var rest := Unmatched(errors);
      if rest != [] {
        Finish(gens, i, delay, before);
        return Supervision(steps, rest);
      }
      Advance(gens, i, delay, before);
      i := i + 1;
    }
    assert steps + [] == steps;
    out := Supervision(steps, []);
  }

  /** A generation's steps, appended one at a time. */
  lemma Appended(steps: seq<Step>, errors: seq<Failure>, delay: real)
    ensures var matched := Matched(errors);
            steps + Round(errors, delay)
            == if matched == [] then steps + [Launch] else steps + [Launch] + [Pause(matched[0], delay)]
  {
  }

  /** The loop's steps so far, followed by what the rest of the loop does. */
  function Resume(steps: seq<Step>, rest: Supervision): Supervision {
    Supervision(steps + rest.steps, rest.raised)
  }

  /** A generation that the loop survives. */
  lemma Advance(gens: seq<seq<Failure>>, i: nat, delay: real, steps: seq<Step>)
    requires i < |gens| && Unmatched(gens[i]) == []
    ensures Resume(steps, Supervise(gens, i, delay)) == Resume(steps + Round(gens[i], delay), Supervise(gens, i + 1, delay))
  {
    var round := Round(gens[i], delay);
    var rest := Supervise(gens, i + 1, delay).steps;
    assert steps + (round + rest) == steps + round + rest;
  }

  /** The generation that ends the loop. */
  lemma Finish(gens: seq<seq<Failure>>, i: nat, delay: real, steps: seq<Step>)
    requires i < |gens| && Unmatched(gens[i]) != []
    ensures Resume(steps, Supervise(gens, i, delay)) == Supervision(steps + Round(gens[i], delay), Unmatched(gens[i]))
  {
  }

  /** The generation at which the loop stops: the first, from `i`, whose group holds
      an exception that is not a ConnectionError (`|gens|` if none does). */
  function Stop(gens: seq<seq<Failure>>, i: nat): (j: nat)
    requires i <= |gens|
    ensures i <= j <= |gens|
    ensures forall k :: i <= k < j ==> Unmatched(gens[k]) == []
    ensures j < |gens| ==> Unmatched(gens[j]) != []
    decreases |gens| - i
  {
    if i == |gens| || Unmatched(gens[i]) != [] then i else Stop(gens, i + 1)
  }

  /** The number of generations among `gens[i..j]` whose group held a ConnectionError. */
  function Troubled(gens: seq<seq<Failure>>, i: nat, j: nat): nat
    requires i <= j <= |gens|
    decreases j - i
  {
    if i == j then 0 else (if Matched(gens[i]) != [] then 1 else 0) + Troubled(gens, i + 1, j)
  }

  /** The sleeps, in order. */
  function Slept(steps: seq<Step>): (r: seq<real>)
    ensures |r| <= |steps|
    decreases |steps|
  {
    if steps == [] then []
    else (if steps[0].Pause? then [steps[0].seconds] else []) + Slept(steps[1..])
  }

  lemma {:induction false} SleptAppend(a: seq<Step>, b: seq<Step>)
    ensures Slept(a + b) == Slept(a) + Slept(b)
    decreases |a|
  {
    if a == [] {
      assert a + b == b;
    } else {
      assert (a + b)[0] == a[0];
      assert (a + b)[1..] == a[1..] + b;
      SleptAppend(a[1..], b);
    }
  }

  /** The loop ends exactly at the first generation that lets an exception other than
      a ConnectionError out (cancellation, InvalidToken, a KeyboardInterrupt): it
      re-raises what `except*` did not handle and starts nothing after it. Until then
      every generation is started once, in order. */
  lemma {:induction false} StopsAtUnhandled(gens: seq<seq<Failure>>, i: nat, delay: real)
    requires i <= |gens|
    ensures var r := Supervise(gens, i, delay);
            var j := Stop(gens, i);
            r.raised == (if j < |gens| then Unmatched(gens[j]) else []) &&
            multiset(r.steps)[Launch] == Ran(gens, i) - i
    decreases |gens| - i
  {
    if i < |gens| {
      var round := Round(gens[i], delay);
      assert multiset(round)[Launch] == 1;
      if Unmatched(gens[i]) == [] {
        var rest := Supervise(gens, i + 1, delay);
        StopsAtUnhandled(gens, i + 1, delay);
        assert Supervise(gens, i, delay) == Supervision(round + rest.steps, rest.raised);
        assert Stop(gens, i) == Stop(gens, i + 1);
        assert multiset(round + rest.steps) == multiset(round) + multiset(rest.steps);
      } else {
        assert Stop(gens, i) == i;
        assert Supervise(gens, i, delay).steps == round;
      }
    }
  }

  /** How many generations the loop starts from `i` on: up to and including the one
      that stops it. */
  function Ran(gens: seq<seq<Failure>>, i: nat): (n: nat)
    requires i <= |gens|
    ensures i <= n <= |gens|
  {
    var j := Stop(gens, i);
    if j < |gens| then j + 1 else j
  }

  /** The sleeps of the loop from generation `i` on: one of `delay` for each started
      generation whose group held a ConnectionError. */
  predicate SleepsFixed(gens: seq<seq<Failure>>, i: nat, delay: real)
    requires i <= |gens|
  {
    Slept(Supervise(gens, i, delay).steps) == seq(Troubled(gens, i, Ran(gens, i)), _ => delay)
  }

  /** Exactly one sleep per generation that failed with a ConnectionError, none after
      a generation that ended cleanly, and always of the fixed `delay`: the delay
      never grows. */
  lemma {:induction false} FixedDelay(gens: seq<seq<Failure>>, i: nat, delay: real)
    requires i <= |gens|
    ensures SleepsFixed(gens, i, delay)
    decreases |gens| - i
  {
    if i < |gens| {
      SleptRound(gens[i], delay);
      if Unmatched(gens[i]) == [] {
        FixedDelay(gens, i + 1, delay);
        FixedDelayStep(gens, i, delay);
      } else {
        assert Stop(gens, i) == i;
        assert Supervise(gens, i, delay).steps == Round(gens[i], delay);
        assert Troubled(gens, i + 1, i + 1) == 0;
      }
    }
  }

  /** The induction step of `FixedDelay` for a generation the loop survives. */
  lemma FixedDelayStep(gens: seq<seq<Failure>>, i: nat, delay: real)
    requires i < |gens| && Unmatched(gens[i]) == []
    requires SleepsFixed(gens, i + 1, delay)
    ensures SleepsFixed(gens, i, delay)
  {
    var round := Round(gens[i], delay);
    var own := if Matched(gens[i]) == [] then 0 else 1;
    var rest := Supervise(gens, i + 1, delay);
    var ran := Ran(gens, i + 1);
    SleptRound(gens[i], delay);
    assert Stop(gens, i) == Stop(gens, i + 1);
    assert Supervise(gens, i, delay).steps == round + rest.steps;
    SleptAppend(round, rest.steps);
    assert Troubled(gens, i, ran) == own + Troubled(gens, i + 1, ran);
    Constants(own, Troubled(gens, i + 1, ran), delay);
  }

  lemma Constants(m: nat, n: nat, delay: real)
    ensures seq(m, _ => delay) + seq(n, _ => delay) == seq(m + n, _ => delay)
  {
  }

  /** A generation sleeps once, for `delay`, exactly when its group held a
      ConnectionError. */
  lemma SleptRound(errors: seq<Failure>, delay: real)
    ensures Slept(Round(errors, delay)) == seq(if Matched(errors) == [] then 0 else 1, _ => delay)
  {
    var round := Round(errors, delay);
    var matched := Matched(errors);
    assert round[0] == Launch;
    assert round[1..] == if matched == [] then [] else [Pause(matched[0], delay)];
    if matched != [] {
      assert round[1..][0].seconds == delay;
      assert round[1..][1..] == [];
    }
  }

  /** Every sleep directly follows the start of the generation it belongs to: a sleep
      is only ever taken after a generation has run. */
  lemma {:induction false} PauseFollowsLaunch(gens: seq<seq<Failure>>, i: nat, delay: real)
    requires i <= |gens|
    ensures var s := Supervise(gens, i, delay).steps;
            (s == [] || s[0] == Launch) &&
            forall k :: 0 <= k < |s| && s[k].Pause? ==> 0 < k && s[k - 1] == Launch
    decreases |gens| - i
  {
    if i < |gens| && Unmatched(gens[i]) == [] {
      PauseFollowsLaunch(gens, i + 1, delay);
      var round := Round(gens[i], delay);
      var rest := Supervise(gens, i + 1, delay).steps;
      var s := round + rest;
      assert rest != [] ==> s[|round|] == rest[0];
      forall k | |round| < k < |s| && s[k].Pause?
        ensures s[k - 1] == Launch
      {
        assert s[k] == rest[k - |round|];
        assert s[k - 1] == rest[k - 1 - |round|];
      }
    }
  }
}
