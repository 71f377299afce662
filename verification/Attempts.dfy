/** Retrying one call under a gate: each attempt enters, tells the gate how it went, and leaves. */
module Attempts {
  import opened Wrappers
  import opened GateProtocol

  /** What one call comes to. */
  datatype Try<+T> = Returned(value: T) | Raised(error: string)

  /** What an attempt does beside the call itself; the k-th pause is twice as long as the one before. */
  datatype GateCall = Acquire | OnSuccess | OnError | BackOff(power: nat) | Release

  /** The i-th of at most `n` attempts, under a gate or without one. */
  function AttemptCalls<T>(gated: bool, backoff: bool, outcome: Try<T>, i: nat, n: nat): seq<GateCall> {
    (if gated then [Acquire, if outcome.Returned? then OnSuccess else OnError] else [])
    + (if outcome.Raised? && i + 1 < n && backoff then [BackOff(i)] else [])
    + (if gated then [Release] else [])
  }

  function CallsOf<T>(gated: bool, backoff: bool, outcomes: seq<Try<T>>, n: nat): seq<GateCall> {
    if outcomes == [] then []
    else
      var i := |outcomes| - 1;
      CallsOf(gated, backoff, outcomes[..i], n) + AttemptCalls(gated, backoff, outcomes[i], i, n)
  }

  /** Call until the first success, at most `n` times; the last error is the one reported. Without any
      attempt there is nothing to report. */
  method Attempt<T>(gated: bool, backoff: bool, outcomes: seq<Try<T>>, n: nat)
    returns (r: Option<Try<T>>, used: nat, calls: seq<GateCall>)
    requires n <= |outcomes|
    ensures used <= n && (n > 0 ==> used > 0)
    ensures r == if n == 0 then None else Some(outcomes[used - 1])
    ensures forall i | 0 <= i < used - 1 :: outcomes[i].Raised?
    ensures r.Some? && r.value.Raised? ==> used == n
    ensures calls == CallsOf(gated, backoff, outcomes[..used], n)
  {
    r, used, calls := None, 0, [];
    while used < n && (r.None? || r.value.Raised?)
      invariant used <= n && r == (if used == 0 then None else Some(outcomes[used - 1]))
      invariant forall i | 0 <= i < used - 1 :: outcomes[i].Raised?
      invariant calls == CallsOf(gated, backoff, outcomes[..used], n)
    {
      assert outcomes[..used + 1][..used] == outcomes[..used];
      var outcome := outcomes[used];
      var made := AttemptOnce(gated, backoff, outcome, used, n);
      calls := calls + made;
      r, used := Some(outcome), used + 1;
    }
  }

  method AttemptOnce<T>(gated: bool, backoff: bool, outcome: Try<T>, i: nat, n: nat) returns (calls: seq<GateCall>)
    ensures calls == AttemptCalls(gated, backoff, outcome, i, n)
  {
    calls := [];
    if gated {
      calls := [Acquire, if outcome.Returned? then OnSuccess else OnError];
    }
    if outcome.Raised? && i + 1 < n && backoff {
      calls := calls + [BackOff(i)];
    }
    if gated {
      calls := calls + [Release];
    }
  }

  /** An attempt under a gate enters it, tells it how the call went and leaves it; a failed one that is to be followed
      by another pauses before it leaves, for a time that doubles with each attempt. */
  lemma AttemptCallsAre<T>(gated: bool, backoff: bool, outcome: Try<T>, i: nat, n: nat)
    ensures var calls, pauses := AttemptCalls(gated, backoff, outcome, i, n), outcome.Raised? && backoff && i < n - 1;
      && (!gated && !pauses ==> calls == [])
      && (!gated && pauses ==> calls == [BackOff(i)])
      && (gated && outcome.Returned? ==> calls == [Acquire, OnSuccess, Release])
      && (gated && outcome.Raised? && !pauses ==> calls == [Acquire, OnError, Release])
      && (gated && pauses ==> calls == [Acquire, OnError, BackOff(i), Release])
  {
  }

  /** The calls of a series of attempts are those of one after the other. */
  lemma CallsInTurn<T>(gated: bool, backoff: bool, outcomes: seq<Try<T>>, last: Try<T>, n: nat)
    ensures CallsOf<T>(gated, backoff, [], n) == []
    ensures CallsOf(gated, backoff, outcomes + [last], n)
         == CallsOf(gated, backoff, outcomes, n) + AttemptCalls(gated, backoff, last, |outcomes|, n)
  {
    assert (outcomes + [last])[..|outcomes|] == outcomes;
  }

  // ----- The calls are those of a worker at the gate -----

  /** Where a worker stands after a call; a call out of turn leads nowhere. */
  function Moved(at: Phase, call: GateCall): Option<Phase> {
    match call
    case Acquire => if at.Idle? then Some(Holding) else None
    case OnSuccess => if at.Holding? then Some(Leaving) else None
    case OnError => if at.Holding? then Some(Leaving) else None
    case BackOff(_) => if at.Leaving? then Some(Leaving) else None
    case Release => if at.Leaving? then Some(Idle) else None
  }

  function Ends(at: Phase, calls: seq<GateCall>): Option<Phase>
    decreases |calls|
  {
    if calls == [] then Some(at)
    else
      match Moved(at, calls[0])
      case None => None
      case Some(next) => Ends(next, calls[1..])
  }

  lemma {:induction false} EndsAppend(at: Phase, calls: seq<GateCall>, more: seq<GateCall>)
    requires Ends(at, calls).Some?
    ensures Ends(at, calls + more) == Ends(Ends(at, calls).value, more)
    decreases |calls|
  {
    if calls == [] {
      assert calls + more == more;
    } else {
      assert (calls + more)[1..] == calls[1..] + more;
      EndsAppend(Moved(at, calls[0]).value, calls[1..], more);
    }
  }

  lemma OneAttemptEnds<T>(backoff: bool, outcome: Try<T>, i: nat, n: nat)
    ensures Ends(Idle, AttemptCalls(true, backoff, outcome, i, n)) == Some(Idle)
  {
    assert Ends(Idle, []) == Some(Idle);
    assert Ends(Leaving, [Release]) == Ends(Idle, [Release][1..]);
    var feedback := if outcome.Returned? then OnSuccess else OnError;
    var calls := AttemptCalls(true, backoff, outcome, i, n);
    if outcome.Raised? && i + 1 < n && backoff {
      assert calls == [Acquire, feedback, BackOff(i), Release];
      assert calls[1..] == [feedback, BackOff(i), Release] && calls[1..][1..] == [BackOff(i), Release];
      assert calls[1..][1..][1..] == [Release];
      assert Ends(Leaving, [BackOff(i), Release]) == Ends(Leaving, [Release]);
      assert Ends(Holding, [feedback, BackOff(i), Release]) == Ends(Leaving, [BackOff(i), Release]);
    } else {
      assert calls == [Acquire, feedback, Release];
      assert calls[1..] == [feedback, Release] && calls[1..][1..] == [Release];
      assert Ends(Holding, [feedback, Release]) == Ends(Leaving, [Release]);
    }
  }

  /** Under a gate an attempt series is a legal series of moves of one worker, and leaves it outside:
      whatever the outcomes, each slot taken is given back, after the gate was told how it went. */
  lemma {:induction false} AttemptsAreLegal<T>(backoff: bool, outcomes: seq<Try<T>>, n: nat)
    ensures Ends(Idle, CallsOf(true, backoff, outcomes, n)) == Some(Idle)
  {
    if outcomes == [] {
    } else {
      var i := |outcomes| - 1;
      AttemptsAreLegal(backoff, outcomes[..i], n);
      OneAttemptEnds(backoff, outcomes[i], i, n);
      EndsAppend(Idle, CallsOf(true, backoff, outcomes[..i], n), AttemptCalls(true, backoff, outcomes[i], i, n));
    }
  }

  /** Each move is one the gate's protocol allows the worker, at the latest when its turn comes. */
  lemma MovesAreSteps(s: State, w: nat, call: GateCall, now: real)
    requires w < |s.phases| && s.clock <= now && !call.BackOff? && Moved(s.phases[w], call).Some?
    ensures match call
      case Acquire => Enabled(s, Start(w))
      case OnSuccess => Enabled(s, Succeed(w)) && Next(s, Succeed(w)).phases[w] == Leaving
      case OnError => Enabled(s, Fail(w, now)) && Next(s, Fail(w, now)).phases[w] == Leaving
      case Release => s.lock.None? ==> Enabled(s, Leave(w)) && Next(s, Leave(w)).phases[w] == Idle
      case BackOff(_) => true
  {
  }
}
