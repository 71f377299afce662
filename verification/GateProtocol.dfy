/** Workers calling through one gate: whatever their interleaving, the gate counts its holders, keeps
    its limits, and never leaves a waiter that nobody will wake. */
module GateProtocol {
  import opened Wrappers
  import opened RateGates

  /** Where a worker stands in acquiring, calling and releasing. A sleeper keeps the lock. */
  datatype Phase = Idle | Wanting | Sleeping | Waiting | Notified | Holding | Leaving

  datatype State = State(gate: Gate, clock: real, lock: Option<nat>, phases: seq<Phase>)

  datatype Step =
    | Start(w: nat)
    | Try(w: nat, now: real)
    | Succeed(w: nat)
    | Fail(w: nat, now: real)
    | Abandon(w: nat)
    | Leave(w: nat)

  /** Before anything has happened, with `n` workers. */
  function Begin(gate: Gate, n: nat): State {
    State(gate, 0.0, None, seq(n, _ => Idle))
  }

  predicate In(s: State, w: nat, phase: Phase) {
    w < |s.phases| && s.phases[w] == phase
  }

  predicate Enabled(s: State, step: Step) {
    match step
    case Start(w) => In(s, w, Idle)
    case Try(w, now) =>
      && s.clock <= now
      && if s.lock.None? then In(s, w, Wanting) || In(s, w, Notified) else s.lock.value == w && In(s, w, Sleeping)
    case Succeed(w) => In(s, w, Holding)
    case Fail(w, now) => In(s, w, Holding) && s.clock <= now
    case Abandon(w) => In(s, w, Holding)
    case Leave(w) => In(s, w, Leaving) && s.lock.None?
  }

  function Moved(s: State, w: nat, phase: Phase): State
    requires w < |s.phases|
  {
    s.(phases := s.phases[w := phase])
  }

  function AllNotified(phases: seq<Phase>): (woken: seq<Phase>)
    ensures |woken| == |phases|
  {
    seq(|phases|, i requires 0 <= i < |phases| => if phases[i].Waiting? then Notified else phases[i])
  }

  function Next(s: State, step: Step): State
    requires Enabled(s, step)
  {
    match step
    case Start(w) => Moved(s, w, Wanting)
    case Try(w, now) =>
      (match EntryAt(s.gate, now)
       case Sleep => Moved(s, w, Sleeping).(lock := Some(w), clock := now)
       case Enter => Moved(s, w, Holding).(lock := None, clock := now, gate := Entered(s.gate, now))
       case Wait => Moved(s, w, Waiting).(lock := None, clock := now))
    case Succeed(w) => Moved(s, w, Leaving).(gate := Succeeded(s.gate))
    case Fail(w, now) => Moved(s, w, Leaving).(gate := Errored(s.gate, now), clock := now)
    case Abandon(w) => Moved(s, w, Leaving)
    case Leave(w) => s.(gate := Released(s.gate), phases := AllNotified(s.phases[w := Idle]))
  }

  /** A worker holds a slot from the moment it enters until it has released it. */
  predicate Holds(p: Phase) { p.Holding? || p.Leaving? }

  function Holders(phases: seq<Phase>): nat {
    if phases == [] then 0 else Holders(phases[1..]) + if Holds(phases[0]) then 1 else 0
  }

  lemma {:induction false} HoldersUpdated(phases: seq<Phase>, w: nat, p: Phase)
    requires w < |phases|
    ensures Holders(phases[w := p]) == Holders(phases) - (if Holds(phases[w]) then 1 else 0) + if Holds(p) then 1 else 0
  {
    if w == 0 {
      assert phases[0 := p][1..] == phases[1..];
    } else {
      assert phases[w := p][1..] == phases[1..][w - 1 := p];
      HoldersUpdated(phases[1..], w - 1, p);
    }
  }

  lemma {:induction false} HoldersNotified(phases: seq<Phase>)
    ensures Holders(AllNotified(phases)) == Holders(phases)
  {
    if phases == [] {
    } else {
      assert AllNotified(phases)[1..] == AllNotified(phases[1..]);
      HoldersNotified(phases[1..]);
    }
  }

  lemma {:induction false} SomeHolder(phases: seq<Phase>) returns (w: nat)
    requires Holders(phases) > 0
    ensures w < |phases| && Holds(phases[w])
  {
    if Holds(phases[0]) {
      w := 0;
    } else {
      w := SomeHolder(phases[1..]);
      w := w + 1;
    }
  }

  lemma {:induction false} NoHolders(phases: seq<Phase>)
    requires forall p <- phases :: !Holds(p)
    ensures Holders(phases) == 0
  {
    if phases == [] {
    } else {
      NoHolders(phases[1..]);
    }
  }

  // ----- What every step keeps -----

  function Low(first: Gate): int { MinOf(first.min, first.limit) }
  function High(first: Gate): int { MaxOf(first.min, MaxOf(first.limit, first.max)) }

  ghost predicate LockHeld(s: State) {
    forall w | 0 <= w < |s.phases| :: s.phases[w].Sleeping? <==> s.lock == Some(w)
  }

  ghost predicate Sound(first: Gate, s: State) {
    && s.gate.min == first.min && s.gate.max == first.max && s.gate.pause == first.pause
    && s.gate.inflight == Holders(s.phases) <= High(first)
    && Low(first) <= s.gate.limit <= High(first)
    && s.gate.resumeAt <= MaxTime(s.clock, s.clock + first.pause)
    && LockHeld(s) && (s.lock.Some? ==> s.lock.value < |s.phases|)
    && ((exists w | 0 <= w < |s.phases| :: s.phases[w].Waiting?) ==> s.gate.inflight > 0)
  }

  function MaxTime(a: real, b: real): real { if a >= b then a else b }

  ghost predicate Ready(first: Gate) {
    first.inflight == 0 && first.streak == 0 && first.resumeAt == 0.0 && first.limit >= 1 && first.min >= 1
  }

  lemma BeginSound(first: Gate, n: nat)
    requires Ready(first)
    ensures Sound(first, Begin(first, n))
  {
    NoHolders(Begin(first, n).phases);
  }

  lemma MovedLock(s: State, w: nat, phase: Phase, lock: Option<nat>)
    requires LockHeld(s) && w < |s.phases| && (s.lock.Some? ==> s.lock.value == w)
    requires lock == if phase.Sleeping? then Some(w) else None
    ensures LockHeld(Moved(s, w, phase).(lock := lock))
  {
  }

  lemma TrySound(first: Gate, s: State, w: nat, now: real)
    requires Ready(first) && Sound(first, s) && Enabled(s, Try(w, now))
    ensures Sound(first, Next(s, Try(w, now)))
  {
    var t := Next(s, Try(w, now));
    HoldersUpdated(s.phases, w, t.phases[w]);
    MovedLock(s, w, t.phases[w], t.lock);
    if v :| 0 <= v < |t.phases| && t.phases[v].Waiting? && v != w {
      assert s.phases[v].Waiting?;
    }
  }

  lemma LeaveSound(first: Gate, s: State, w: nat)
    requires Ready(first) && Sound(first, s) && Enabled(s, Leave(w))
    ensures Sound(first, Next(s, Leave(w)))
  {
    HoldersUpdated(s.phases, w, Idle);
    HoldersNotified(s.phases[w := Idle]);
  }

  lemma NextSound(first: Gate, s: State, step: Step)
    requires Ready(first) && Sound(first, s) && Enabled(s, step)
    ensures Sound(first, Next(s, step))
  {
    if step.Try? {
      TrySound(first, s, step.w, step.now);
    } else if step.Leave? {
      LeaveSound(first, s, step.w);
    } else {
      var t := Next(s, step);
      HoldersUpdated(s.phases, step.w, t.phases[step.w]);
      if v :| 0 <= v < |t.phases| && t.phases[v].Waiting? {
        assert s.phases[v].Waiting?;
      }
    }
  }

  // ----- Whole runs -----

  ghost predicate IsRun(first: Gate, n: nat, steps: seq<Step>, states: seq<State>) {
    && |states| == |steps| + 1 && states[0] == Begin(first, n)
    && forall i | 0 <= i < |steps| :: Enabled(states[i], steps[i]) && states[i + 1] == Next(states[i], steps[i])
  }

  lemma {:induction false} RunsSound(first: Gate, n: nat, steps: seq<Step>, states: seq<State>, i: nat)
    requires Ready(first) && IsRun(first, n, steps, states) && i < |states|
    ensures Sound(first, states[i])
  {
    if i == 0 {
      BeginSound(first, n);
    } else {
      RunsSound(first, n, steps, states, i - 1);
      NextSound(first, states[i - 1], steps[i - 1]);
    }
  }

  /** In every reachable state the gate counts exactly its holders, the limit and the count stay within
      the widest bounds its arguments set, and giving a slot back never needs clipping at zero. */
  lemma GateCountsHolders(first: Gate, n: nat, steps: seq<Step>, states: seq<State>, i: nat)
    requires Ready(first) && IsRun(first, n, steps, states) && i < |states|
    ensures var s := states[i];
      && s.gate.inflight == Holders(s.phases) <= High(first)
      && Low(first) <= s.gate.limit <= High(first)
      && (forall w | In(s, w, Leaving) :: Released(s.gate).inflight == s.gate.inflight - 1)
  {
    RunsSound(first, n, steps, states, i);
    forall w | In(states[i], w, Leaving) ensures states[i].gate.inflight > 0 {
      HoldersUpdated(states[i].phases, w, Idle);
    }
  }

  // ----- Who enters, and when -----

  /** Past the pause a worker enters exactly if there are fewer holders than the limit; before its end it
      sleeps, and otherwise it waits. */
  lemma EntersIffRoom(first: Gate, n: nat, steps: seq<Step>, states: seq<State>, i: nat, w: nat, now: real)
    requires Ready(first) && IsRun(first, n, steps, states) && i < |states| && Enabled(states[i], Try(w, now))
    ensures var s, t := states[i], Next(states[i], Try(w, now));
      && w < |t.phases|
      && (t.phases[w] == Holding <==> now >= s.gate.resumeAt && Holders(s.phases) < s.gate.limit)
      && (t.phases[w] == Sleeping <==> now < s.gate.resumeAt)
      && (t.phases[w] == Waiting <==> now >= s.gate.resumeAt && Holders(s.phases) >= s.gate.limit)
  {
    RunsSound(first, n, steps, states, i);
  }

  /** The pause in force is that of the last error, if there was one. */
  lemma {:induction false} PauseIsLastError(first: Gate, n: nat, steps: seq<Step>, states: seq<State>, i: nat, j: nat)
    requires Ready(first) && IsRun(first, n, steps, states) && i <= j <= |steps|
    requires forall k | i <= k < j :: !steps[k].Fail?
    requires i > 0 ==> steps[i - 1].Fail?
    ensures states[j].gate.resumeAt == if i == 0 then 0.0 else steps[i - 1].now + first.pause
    decreases j
  {
    if i == j {
      if i > 0 { RunsSound(first, n, steps, states, i - 1); }
    } else {
      PauseIsLastError(first, n, steps, states, i, j - 1);
    }
  }

  /** The limit rises by one with the success that completes a round as long as the limit, and not beyond the
      maximum; it halves with an error, and not below the minimum; nothing else moves it. */
  lemma LimitMoves(s: State, step: Step)
    requires Enabled(s, step)
    ensures var g, h := s.gate, Next(s, step).gate;
      && h.min == g.min && h.max == g.max && h.pause == g.pause
      && (step.Succeed? ==>
            if g.streak + 1 >= g.limit && g.limit < g.max then h.limit == g.limit + 1 && h.streak == 0
            else h.limit == g.limit && h.streak == g.streak + 1)
      && (step.Fail? ==>
            && h.streak == 0 && h.limit >= g.min
            && (2 * h.limit <= g.limit <= 2 * h.limit + 1 || (h.limit == g.min && g.limit < 2 * g.min)))
      && (!step.Succeed? && !step.Fail? ==> h.limit == g.limit && h.streak == g.streak)
  {
  }

  // ----- The limit and its bounds -----

  /** A limit below zero lets nobody in, so nothing can change it. */
  ghost predicate Within(first: Gate, s: State) {
    && s.gate.min == first.min && s.gate.max == first.max && s.gate.inflight >= 0
    && first.min <= s.gate.limit <= first.max
    && (s.gate.limit >= 0 || forall w | 0 <= w < |s.phases| :: !Holds(s.phases[w]))
  }

  lemma StepWithin(first: Gate, s: State, step: Step)
    requires Within(first, s) && Enabled(s, step)
    ensures Within(first, Next(s, step))
  {
  }

  lemma {:induction false} RunsWithin(first: Gate, n: nat, steps: seq<Step>, states: seq<State>, i: nat)
    requires first.min <= first.limit <= first.max && first.inflight == 0
    requires IsRun(first, n, steps, states) && i < |states|
    ensures Within(first, states[i])
  {
    if i == 0 {
    } else {
      RunsWithin(first, n, steps, states, i - 1);
      StepWithin(first, states[i - 1], steps[i - 1]);
    }
  }

  /** In no run does the limit leave the bounds it was given. */
  ghost predicate LimitKept(first: Gate) {
    forall n: nat, steps: seq<Step>, states: seq<State>, i: nat | IsRun(first, n, steps, states) && i < |states| ::
      first.min <= states[i].gate.limit <= first.max
  }

  /** The limit stays within its bounds in every run exactly when it begins there. */
  lemma LimitKeptIff(first: Gate)
    requires first.inflight == 0
    ensures LimitKept(first) <==> first.min <= first.limit <= first.max
  {
    if first.min <= first.limit <= first.max {
      forall n: nat, steps: seq<Step>, states: seq<State>, i: nat | IsRun(first, n, steps, states) && i < |states|
        ensures first.min <= states[i].gate.limit <= first.max
      {
        RunsWithin(first, n, steps, states, i);
      }
    } else {
      var states := [Begin(first, 0)];
      assert IsRun(first, 0, [], states) && states[0].gate == first;
    }
  }

  /** The worker is on its way: it will move without waiting for another. */
  predicate Moving(s: State, w: nat) {
    && w < |s.phases|
    && match s.phases[w]
       case Wanting => s.lock.None?
       case Notified => s.lock.None?
       case Sleeping => s.lock == Some(w)
       case Holding => true
       case Leaving => s.lock.None?
       case _ => false
  }

  /** No deadlock: while any worker is inside, some worker can move, and every waiter has a holder
      whose release will wake it. */
  lemma SomeoneMoves(first: Gate, n: nat, steps: seq<Step>, states: seq<State>, i: nat, blocked: nat)
    requires Ready(first) && IsRun(first, n, steps, states) && i < |states|
    requires blocked < |states[i].phases| && !states[i].phases[blocked].Idle?
    ensures exists w :: Moving(states[i], w)
    ensures states[i].phases[blocked].Waiting? ==> exists w :: In(states[i], w, Holding) || In(states[i], w, Leaving)
  {
    var s := states[i];
    RunsSound(first, n, steps, states, i);
    if s.phases[blocked].Waiting? {
      var holder := SomeHolder(s.phases);
      assert In(s, holder, Holding) || In(s, holder, Leaving);
      assert s.lock.None? ==> Moving(s, holder);
    }
    if s.lock.Some? {
      assert Moving(s, s.lock.value);
    } else if !s.phases[blocked].Waiting? {
      assert Moving(s, blocked);
    }
  }

  /** Whoever is on its way has a step to take, and nobody else. */
  lemma MovingCanStep(s: State, w: nat, now: real)
    requires s.clock <= now && w < |s.phases|
    ensures Enabled(s, Try(w, now)) <==>
      if s.lock.None? then s.phases[w].Wanting? || s.phases[w].Notified?
      else s.lock.value == w && s.phases[w].Sleeping?
    ensures (Enabled(s, Succeed(w)) <==> s.phases[w].Holding?) && (Enabled(s, Fail(w, now)) <==> s.phases[w].Holding?)
    ensures Enabled(s, Abandon(w)) <==> s.phases[w].Holding?
    ensures Enabled(s, Leave(w)) <==> s.phases[w].Leaving? && s.lock.None?
    ensures Enabled(s, Start(w)) <==> s.phases[w].Idle?
    ensures LockHeld(s) ==>
      (Moving(s, w) <==> Enabled(s, Try(w, now)) || Enabled(s, Succeed(w)) || Enabled(s, Leave(w)))
  {
  }

  /** A release wakes every waiter. */
  lemma ReleaseWakesAll(s: State, w: nat, v: nat)
    requires Enabled(s, Leave(w)) && In(s, v, Waiting)
    ensures In(Next(s, Leave(w)), v, Notified)
  {
  }

  lemma PauseStep(first: Gate, s: State, step: Step)
    requires Ready(first) && Sound(first, s) && Enabled(s, step) && first.pause >= 0.0
    ensures Next(s, step).gate.resumeAt >= s.gate.resumeAt
  {
  }

  lemma {:induction false} ResumeLater(first: Gate, n: nat, steps: seq<Step>, states: seq<State>, i: nat, j: nat)
    requires Ready(first) && first.pause >= 0.0 && IsRun(first, n, steps, states) && i <= j < |states|
    ensures states[j].gate.resumeAt >= states[i].gate.resumeAt
    decreases j
  {
    if i == j {
    } else {
      ResumeLater(first, n, steps, states, i, j - 1);
      RunsSound(first, n, steps, states, j - 1);
      PauseStep(first, states[j - 1], steps[j - 1]);
    }
  }

  /** After an error no call enters before the pause is over, however many errors and entries come between. */
  lemma PauseRespected(first: Gate, n: nat, steps: seq<Step>, states: seq<State>, i: nat, j: nat)
    requires Ready(first) && first.pause >= 0.0 && IsRun(first, n, steps, states) && i < j < |steps|
    requires steps[i].Fail? && steps[j].Try? && In(states[j + 1], steps[j].w, Holding)
    ensures steps[j].now >= steps[i].now + first.pause
    ensures states[j].gate.inflight < states[j].gate.limit
  {
    RunsSound(first, n, steps, states, i);
    assert states[i + 1].gate.resumeAt == steps[i].now + first.pause;
    ResumeLater(first, n, steps, states, i + 1, j);
  }

  // ----- A limit of zero would deadlock -----

  ghost predicate Enables(s: State, steps: seq<Step>)
    decreases |steps|
  {
    steps == [] || (Enabled(s, steps[0]) && Enables(Next(s, steps[0]), steps[1..]))
  }

  function After(s: State, steps: seq<Step>): State
    requires Enables(s, steps)
    decreases |steps|
  {
    if steps == [] then s else After(Next(s, steps[0]), steps[1..])
  }

  /** A worker waits and nobody will ever wake it. */
  ghost predicate Stuck(s: State) {
    && (exists w | 0 <= w < |s.phases| :: s.phases[w].Waiting?)
    && forall w | 0 <= w < |s.phases| :: s.phases[w].Waiting? || s.phases[w].Idle?
  }

  lemma Prepend(s: State, step: Step, rest: seq<Step>)
    requires Enabled(s, step) && Enables(Next(s, step), rest)
    ensures Enables(s, [step] + rest) && After(s, [step] + rest) == After(Next(s, step), rest)
  {
    assert ([step] + rest)[1..] == rest;
  }

  /** With a minimum of zero or less, failing calls by one worker bring the gate to a standstill. */
  lemma {:induction false} StuckWithoutMinimum(s: State) returns (steps: seq<Step>)
    requires s.gate.min <= 0 <= s.gate.limit && s.gate.inflight == 0 && s.lock.None?
    requires |s.phases| == 1 && s.phases[0].Idle?
    ensures Enables(s, steps) && Stuck(After(s, steps))
    decreases s.gate.limit
  {
    var t := Next(s, Start(0));
    var now := MaxTime(t.clock, t.gate.resumeAt);
    var u := Next(t, Try(0, now));
    if s.gate.limit == 0 {
      assert u.phases == [Waiting];
      steps := [];
      assert u.phases[0].Waiting? && Stuck(u);
    } else {
      assert u.phases == [Holding];
      var v := Next(u, Fail(0, now));
      var x := Next(v, Leave(0));
      assert x.phases == [Idle];
      steps := StuckWithoutMinimum(x);
      Prepend(v, Leave(0), steps);
      Prepend(u, Fail(0, now), [Leave(0)] + steps);
      steps := [Fail(0, now)] + ([Leave(0)] + steps);
    }
    Prepend(t, Try(0, now), steps);
    Prepend(s, Start(0), [Try(0, now)] + steps);
    steps := [Start(0)] + ([Try(0, now)] + steps);
  }

  /** With a limit of zero or less to begin with, the first worker to come waits for ever. */
  lemma StuckWithoutLimit(s: State) returns (steps: seq<Step>)
    requires s.gate.limit <= 0 && s.gate.inflight == 0 && s.lock.None?
    requires |s.phases| == 1 && s.phases[0].Idle?
    ensures Enables(s, steps) && Stuck(After(s, steps))
  {
    var t := Next(s, Start(0));
    var now := MaxTime(t.clock, t.gate.resumeAt);
    var u := Next(t, Try(0, now));
    assert u.phases == [Waiting];
    assert u.phases[0].Waiting? && Stuck(u);
    Prepend(t, Try(0, now), []);
    Prepend(s, Start(0), [Try(0, now)] + []);
    steps := [Start(0)] + ([Try(0, now)] + []);
  }

  lemma {:induction false} AfterSound(first: Gate, s: State, steps: seq<Step>)
    requires Ready(first) && Sound(first, s) && Enables(s, steps)
    ensures Sound(first, After(s, steps))
    decreases |steps|
  {
    if steps == [] {
    } else {
      NextSound(first, s, steps[0]);
      AfterSound(first, Next(s, steps[0]), steps[1..]);
    }
  }

  ghost predicate NeverStuck(first: Gate) {
    forall n: nat, steps: seq<Step> | Enables(Begin(first, n), steps) :: !Stuck(After(Begin(first, n), steps))
  }

  lemma StuckHasNoHolder(s: State)
    ensures Stuck(s) ==> Holders(s.phases) == 0 && exists w | 0 <= w < |s.phases| :: s.phases[w].Waiting?
  {
    if Stuck(s) { NoHolders(s.phases); }
  }

  /** The gate never comes to a standstill exactly when both its limit to begin with and its minimum
      are at least one. */
  lemma NeverStuckIffLimits(first: Gate)
    requires first.inflight == 0 && first.streak == 0 && first.resumeAt == 0.0
    ensures NeverStuck(first) <==> first.min >= 1 && first.limit >= 1
  {
    if first.limit < 1 {
      var steps := StuckWithoutLimit(Begin(first, 1));
    } else if first.min < 1 {
      var steps := StuckWithoutMinimum(Begin(first, 1));
    } else {
      forall n: nat, steps: seq<Step> | Enables(Begin(first, n), steps) ensures !Stuck(After(Begin(first, n), steps)) {
        BeginSound(first, n);
        AfterSound(first, Begin(first, n), steps);
        StuckHasNoHolder(After(Begin(first, n), steps));
      }
    }
  }
}
