/** When the scheduler sends, how it dates what it sends, and when it stops, in plain arithmetic. */
module SchedulerLaws {
  import opened Wrappers
  import opened Records
  import opened RequestBooks
  import opened LoadPlans
  import opened LoadControllers
  import opened ControllerWindows
  import opened Pacing
  import opened Schedulers
  import opened SchedulerRuns
  import opened LoadLaws
  import RealFacts

  // ----- An interval -----

  /** How many intervals of the rate have passed since `a`. */
  function Passed(a: real, t: real, rate: real): real { (t - a) * rate }

  lemma AfterIsInterval(a: real, rate: real, t: real)
    requires rate > 0.0
    ensures After(a, Finite(rate)).At? && Passed(a, After(a, Finite(rate)).time, rate) == 1.0
    ensures After(a, Finite(rate)).time <= t <==> Passed(a, t, rate) >= 1.0
  {
    IntervalPositive(rate);
    var gap := Interval(rate);
    assert After(a, Finite(rate)).time - a == gap;
    if gap <= t - a {
      RealFacts.ScaleOrder(gap, t - a, rate);
    } else {
      RealFacts.ProductPositive(gap - (t - a), rate);
      RealFacts.Distribute(rate, gap, t - a);
    }
  }

  // ----- The pace says exactly when a request is due -----

  /** With the last request sent at `a`, one is due from `clock` on exactly once an interval of the present rate has
      passed since; at an infinite rate at once, at a rate of zero never. */
  ghost predicate DueSince(p: Pace, a: real, clock: real) {
    match p.lastRate
    case None => false
    case Some(Inf) => p.due.At? && p.due.time <= clock
    case Some(Finite(r)) =>
      if r == 0.0 then p.due.Never?
      else r > 0.0 && p.due.At? && forall t | t >= clock :: p.due.time <= t <==> Passed(a, t, r) >= 1.0
  }

  ghost predicate DueExactly(p: Pace, log: seq<Admission>, clock: real) {
    if log == [] then p.lastDispatch.None? && p.due.At? && p.due.time <= clock
    else p.lastDispatch == Some(log[|log| - 1].at) && DueSince(p, log[|log| - 1].at, clock)
  }

  lemma DueLater(p: Pace, log: seq<Admission>, clock: real, later: real)
    requires DueExactly(p, log, clock) && clock <= later
    ensures DueExactly(p, log, later)
  {
  }

  lemma RetimedExactly(p: Pace, log: seq<Admission>, clock: real, rate: Rate)
    requires DueExactly(p, log, clock) && (rate.Finite? ==> rate.value >= 0.0)
    requires log != [] ==> log[|log| - 1].at <= clock
    ensures DueExactly(Retimed(p, clock, rate), log, clock) && Retimed(p, clock, rate).lastRate == Some(rate)
  {
    if p.lastRate != Some(rate) && log != [] && rate.Finite? && rate.value > 0.0 {
      var a := log[|log| - 1].at;
      forall t | t >= clock ensures Retimed(p, clock, rate).due.At?
                            && (Retimed(p, clock, rate).due.time <= t <==> Passed(a, t, rate.value) >= 1.0) {
        AfterIsInterval(a, rate.value, t);
      }
      AfterIsInterval(a, rate.value, clock);
    }
  }

  lemma RefreshedExactly(p: Pace, log: seq<Admission>, clock: real, full: bool)
    requires DueExactly(p, log, clock)
    ensures DueExactly(Refreshed(p, clock, full), log, clock)
  {
  }

  lemma SentExactly(p: Pace, log: seq<Admission>, clock: real, rate: Rate, e: Admission)
    requires p.lastRate == Some(rate) && rate != Finite(0.0) && (rate.Finite? ==> rate.value >= 0.0) && e.at == clock
    ensures DueExactly(Pacing.Sent(p, clock, After(clock, rate)), log + [e], clock)
  {
    if rate.Finite? {
      forall t | t >= clock ensures After(clock, rate).At?
                            && (After(clock, rate).time <= t <==> Passed(clock, t, rate.value) >= 1.0) {
        AfterIsInterval(clock, rate.value, t);
      }
      AfterIsInterval(clock, rate.value, clock);
    }
  }

  // ----- Through a step -----

  ghost predicate Exact(s: State) { DueExactly(s.pace, s.log, s.clock) }

  lemma ArrivedSane(s: State, step: Step)
    requires Sane(s) && step.Turn? && Enabled(s, step)
    ensures Sane(Arrive(s, step.elapsed)) && Arrive(s, step.elapsed).plan == s.plan
  {
    ArriveSane(s, step.elapsed);
  }

  lemma RepacedExactly(s: State)
    requires Sane(s) && Exact(s)
    ensures DueExactly(Repaced(s), s.log, s.clock) && Repaced(s).lastRate == Some(TargetOf(s.control, s.clock).0)
  {
    var rate := TargetOf(s.control, s.clock).0;
    TargetFits(s.plan, s.control, s.clock);
    RetimedExactly(s.pace, s.log, s.clock, rate);
    RefreshedExactly(Retimed(s.pace, s.clock, rate), s.log, s.clock, Full(s, s.clock));
  }

  lemma ServedExactly(s: State, step: Step)
    requires Sane(s) && Exact(s) && s.plan.constantArrivals && step.Turn? && s.clock <= step.offered <= step.arrived
    ensures Exact(Served(s, step))
  {
    var rate, t := TargetOf(s.control, s.clock).0, s.(pace := Repaced(s));
    RepacedExactly(s);
    TargetFits(s.plan, s.control, s.clock);
    if MaySend(t.pace, t.clock, rate, Full(t, t.clock)) {
      if step.offered >= t.control.Deadline() || Full(t, step.offered) {
        DueLater(t.pace, t.log, t.clock, step.offered);
      } else {
        var e := Admission(t.clock, rate, TargetOf(t.control, step.offered).1, t.books.inflight);
        SentExactly(t.pace, t.log, t.clock, rate, e);
        DueLater(Pacing.Sent(t.pace, t.clock, After(t.clock, rate)), t.log + [e], t.clock, step.arrived);
      }
    }
  }

  lemma TurnExactly(s: State, step: Step)
    requires Sane(s) && Exact(s) && s.plan.constantArrivals && step.Turn? && Enabled(s, step)
    ensures Exact(Next(s, step))
  {
    ArrivedSane(s, step);
    var t := Arrive(s, step.elapsed);
    DueLater(s.pace, s.log, s.clock, step.elapsed);
    DueLater(s.pace, s.log, s.clock, step.offered);
    if t.books.failures == [] && t.control.end.None? && !Tripped(t.plan, t.books) {
      ServedExactly(t, step);
    }
  }

  lemma OtherExactly(s: State, step: Step)
    requires Sane(s) && Exact(s) && !step.Turn? && Enabled(s, step)
    ensures Exact(Next(s, step))
  {
    DueLater(s.pace, s.log, s.clock, Next(s, step).clock);
  }

  lemma ExactAt(plan: LoadPlan, run: string, steps: seq<Step>, states: seq<State>, n: nat)
    requires plan.Valid() && plan.constantArrivals && SchedulerRuns.IsRun(plan, run, steps, states) && n < |steps|
      && Exact(states[n])
    ensures Exact(states[n + 1])
  {
    RunsSane(plan, run, steps, states, n);
    if steps[n].Turn? { TurnExactly(states[n], steps[n]); } else { OtherExactly(states[n], steps[n]); }
  }

  lemma {:induction false} ExactChain(states: seq<State>, n: nat)
    requires n < |states| && Exact(states[0]) && forall i | 0 <= i < n && Exact(states[i]) :: Exact(states[i + 1])
    ensures Exact(states[n])
  {
    if n == 0 {
    } else {
      ExactChain(states, n - 1);
    }
  }

  lemma RunsExact(plan: LoadPlan, run: string, steps: seq<Step>, states: seq<State>, n: nat)
    requires plan.Valid() && plan.constantArrivals && SchedulerRuns.IsRun(plan, run, steps, states) && n < |states|
    ensures Exact(states[n])
  {
    forall i | 0 <= i < n && Exact(states[i]) ensures Exact(states[i + 1]) {
      ExactAt(plan, run, steps, states, i);
    }
    ExactChain(states, n);
  }

  // ----- When a request is sent -----

  /** The error rate has reached the threshold over enough judged requests. */
  lemma TrippedMeans(plan: LoadPlan, b: Books)
    requires plan.Valid()
    ensures Tripped(plan, b) <==> AtThreshold(plan, b)
  {
    if plan.abortOnErrorRate.Some? && b.completed >= plan.breakerMinN {
      var n, limit := b.completed as real, plan.abortOnErrorRate.value;
      RealFacts.DivideBack(b.errors as real, n);
      var share := ErrorShare(b.errors, b.completed);
      if share >= limit {
        RealFacts.ScaleOrder(limit, share, n);
      } else {
        RealFacts.ProductPositive(limit - share, n);
        RealFacts.Distribute(n, limit, share);
      }
    }
  }

  /** No judge has failed, the plan has not ended, and the breaker has no reason to trip. */
  ghost predicate GoesOn(s: State, found: Control) {
    && s.books.failures == [] && found.end.None?
    && !AtThreshold(s.plan, s.books)
  }

  ghost predicate AtThreshold(plan: LoadPlan, b: Books) {
    && plan.abortOnErrorRate.Some? && b.completed >= plan.breakerMinN
    && b.errors as real >= plan.abortOnErrorRate.value * b.completed as real
  }

  /** There is room when the turn begins, and when the request is made, which is before the stage ends. */
  ghost predicate HasRoom(inflight: int, found: Control, elapsed: real, offered: real)
    requires found.Shaped()
  {
    && inflight < TargetOf(found, elapsed).1
    && inflight < TargetOf(found, offered).1 && offered < found.start + found.stages[found.index].duration
  }

  /** The first request is due at once; from then on an interval of the present rate must have passed since the last
      one sent: none for an infinite rate, while at a rate of zero nothing is ever due. */
  ghost predicate IntervalPassed(log: seq<Admission>, rate: Rate, elapsed: real) {
    && rate != Finite(0.0)
    && (log == [] || rate.Inf? || (elapsed - log[|log| - 1].at) * rate.value >= 1.0)
  }

  lemma DueMeans(p: Pace, log: seq<Admission>, clock: real, rate: Rate)
    requires DueExactly(p, log, clock) && p.lastRate == Some(rate)
    ensures rate != Finite(0.0) && IsDue(p.due, clock) <==> IntervalPassed(log, rate, clock)
  {
    if log != [] && rate.Finite? && rate.value != 0.0 {
      var a := log[|log| - 1].at;
      assert p.due.time <= clock <==> Passed(a, clock, rate.value) >= 1.0;
    }
  }

  lemma SendsMeans(s: State, step: Step)
    requires Sane(s) && Exact(s) && step.Turn? && s.clock == step.elapsed
    ensures Sends(s, step) <==>
      && HasRoom(s.books.inflight, s.control, step.elapsed, step.offered)
      && IntervalPassed(s.log, TargetOf(s.control, step.elapsed).0, step.elapsed)
  {
    RepacedExactly(s);
    DueMeans(Repaced(s), s.log, s.clock, TargetOf(s.control, s.clock).0);
  }

  /** All that it takes to send a request in a turn that finds the controller so. */
  ghost predicate MaySendNow(s: State, found: Control, step: Step)
    requires step.Turn? && found.Shaped()
  {
    && GoesOn(s, found) && HasRoom(s.books.inflight, found, step.elapsed, step.offered)
    && IntervalPassed(s.log, TargetOf(found, step.elapsed).0, step.elapsed)
  }

  /** With constant arrivals a turn of any run sends a request exactly if nothing stops it, there is room, and an
      interval of the present rate has passed since the last one sent; and it never sends more than one. */
  lemma SendsExactlyWhenDue(plan: LoadPlan, run: string, steps: seq<Step>, states: seq<State>, n: nat)
    requires plan.Valid() && plan.constantArrivals && SchedulerRuns.IsRun(plan, run, steps, states) && n < |steps|
      && steps[n].Turn?
    ensures states[n].Shaped() && Arrive(states[n], steps[n].elapsed).control.Shaped()
    ensures states[n + 1].books.sent
         == states[n].books.sent
            + if MaySendNow(states[n], Arrive(states[n], steps[n].elapsed).control, steps[n]) then 1 else 0
  {
    RunsSane(plan, run, steps, states, n);
    RunsExact(plan, run, steps, states, n);
    TurnSendsExactly(states[n], steps[n], states[n + 1]);
  }

  lemma GoesOnMeans(s: State, found: Control)
    requires s.plan.Valid()
    ensures GoesOn(s, found) <==> s.books.failures == [] && found.end.None? && !Tripped(s.plan, s.books)
  {
    TrippedMeans(s.plan, s.books);
  }

  lemma TurnSendsExactly(s: State, step: Step, t: State)
    requires Sane(s) && Exact(s) && step.Turn? && Enabled(s, step) && t == Next(s, step)
    ensures Arrive(s, step.elapsed).control.Shaped()
    ensures t.books.sent
         == s.books.sent + if MaySendNow(s, Arrive(s, step.elapsed).control, step) then 1 else 0
  {
    ArrivedSane(s, step);
    var found := Arrive(s, step.elapsed);
    TurnSends(s, step, found);
    GoesOnMeans(s, found.control);
    FoundSends(s, step, found);
  }

  lemma FoundSends(s: State, step: Step, found: State)
    requires Sane(s) && Exact(s) && step.Turn? && Enabled(s, step) && found == Arrive(s, step.elapsed) && Sane(found)
    ensures Sends(found, step) <==>
      && HasRoom(s.books.inflight, found.control, step.elapsed, step.offered)
      && IntervalPassed(s.log, TargetOf(found.control, step.elapsed).0, step.elapsed)
  {
    DueLater(s.pace, s.log, s.clock, step.elapsed);
    SendsMeans(found, step);
  }

  lemma TurnSends(s: State, step: Step, found: State)
    requires Sane(s) && step.Turn? && Enabled(s, step) && found == Arrive(s, step.elapsed) && Sane(found)
    ensures Next(s, step).books.sent
         == s.books.sent
            + if s.books.failures == [] && found.control.end.None? && !Tripped(s.plan, s.books) && Sends(found, step)
              then 1 else 0
  {
    AdmissionIsSafe(s, step);
  }

  // ----- How a request is dated -----

  /** The record of a request just sent. */
  ghost predicate NewlySent(r: RequestRecord, id: string, scheduled: real, step: Step)
    requires step.Turn?
  {
    && r.id == id && r.scheduledAt == scheduled && r.arrivedAt == step.arrived && r.caseId == step.caseId
    && r.facets == step.facets && r.state.Arrived? && r.dispatchedAt.None? && r.finishedAt.None?
    && r.reason.None? && r.operationRunId.None?
  }

  /** A request is scheduled for the instant it became due, unless the rate has changed or the slots were full in the
      turn before: it is then scheduled for this turn. It takes a slot and counts as sent. */
  lemma SentRecord(s: State, step: Step)
    requires s.Shaped() && step.Turn? && s.clock == step.elapsed && Sends(s, step) && s.pace.due != Never
    requires s.log == [] ==> s.pace.due.time <= s.clock
    ensures var t, rate, requests := Served(s, step), TargetOf(s.control, s.clock).0, s.books.ledger.requests;
      && t.books.ledger.requests[..|requests|] == requests && |t.books.ledger.requests| == |requests| + 1
      && t.books.inflight == s.books.inflight + 1 && t.books.active == s.books.active + {|requests|}
      && t.books.ledger.operationRuns == s.books.ledger.operationRuns
      && t.books.ledger.evaluations == s.books.ledger.evaluations && t.clock == step.arrived
      && exists scheduled ::
           && NewlySent(t.books.ledger.requests[|requests|], s.books.run + ":" + Decimal(|requests|), scheduled, step)
           && scheduled <= step.elapsed
           && (s.pace.lastRate == Some(rate) && !s.pace.wasFull ==> scheduled == s.pace.due.time)
           && (s.pace.wasFull ==> scheduled == step.elapsed)
  {
    var t, requests := Served(s, step), s.books.ledger.requests;
    var scheduled := Repaced(s).due.time;
    assert NewlySent(t.books.ledger.requests[|requests|], s.books.run + ":" + Decimal(|requests|), scheduled, step);
  }

  /** A request sent sets the next one an interval of the present rate after it, or the drawn gap after it if arrivals
      are not constant. */
  lemma SentPace(s: State, step: Step)
    requires Sane(s) && step.Turn? && s.clock == step.elapsed && Sends(s, step)
    ensures var t, rate := Served(s, step), TargetOf(s.control, s.clock).0;
      && t.pace.lastDispatch == Some(step.elapsed) && t.pace.lastRate == Some(rate) && !t.pace.wasFull
      && t.pace.due.At?
      && (!s.plan.constantArrivals ==> t.pace.due.time == step.elapsed + step.gap)
      && (s.plan.constantArrivals && rate.Inf? ==> t.pace.due.time == step.elapsed)
      && (s.plan.constantArrivals && rate.Finite? ==> Passed(step.elapsed, t.pace.due.time, rate.value) == 1.0)
  {
    TargetFits(s.plan, s.control, s.clock);
    var rate := TargetOf(s.control, s.clock).0;
    if rate.Finite? { AfterIsInterval(step.elapsed, rate.value, step.elapsed); }
  }

  /** A turn that sends nothing remembers the rate and whether there was room; with neither changed, and after a turn
      with room, what is due stays due then. */
  lemma UnsentPace(s: State, step: Step)
    requires s.Shaped() && step.Turn? && s.clock == step.elapsed && !Sends(s, step)
    ensures var t, target := Served(s, step), TargetOf(s.control, s.clock);
      && t.books == s.books && t.log == s.log && t.pace.lastDispatch == s.pace.lastDispatch
      && t.pace.lastRate == Some(target.0) && (t.pace.wasFull <==> s.books.inflight >= target.1)
      && (s.pace.lastRate == Some(target.0) && !(s.pace.wasFull && s.books.inflight < target.1) ==>
            t.pace.due == s.pace.due)
      && (s.pace.lastRate == Some(target.0) && s.pace.wasFull && s.books.inflight < target.1 && s.pace.due.At? ==>
            t.pace.due == At(Max(s.pace.due.time, step.elapsed)))
  {
  }

  /** A change of rate moves what is due to an interval of the new rate after the last request, but not into
      the past. */
  lemma RateChangePace(p: Pace, elapsed: real, rate: Rate)
    requires p.lastRate != Some(rate) && (rate.Finite? ==> rate.value >= 0.0)
    ensures var q := Retimed(p, elapsed, rate);
      && q.lastRate == Some(rate) && q.lastDispatch == p.lastDispatch && q.wasFull == p.wasFull
      && (p.lastDispatch.None? ==> q.due == At(elapsed))
      && (p.lastDispatch.Some? ==>
            match rate
            case Inf => q.due == At(Max(p.lastDispatch.value, elapsed))
            case Finite(r) =>
              if r == 0.0 then q.due.Never?
              else
                && q.due.At? && q.due.time >= elapsed && Passed(p.lastDispatch.value, q.due.time, r) >= 1.0
                && (q.due.time == elapsed || Passed(p.lastDispatch.value, q.due.time, r) == 1.0))
  {
    if p.lastDispatch.Some? && rate.Finite? && rate.value > 0.0 {
      AfterIsInterval(p.lastDispatch.value, rate.value, Retimed(p, elapsed, rate).due.time);
    }
  }

  // ----- Why and with what the loop is left -----

  /** What the breaker writes down of what it saw. */
  ghost predicate SnapshotOf(p: Snapshot, at: real, b: Books, plan: LoadPlan) {
    && p.at == at && p.completed == b.completed && p.errors == b.errors && Some(p.threshold) == plan.abortOnErrorRate
    && p.errorRate * p.completed as real == p.errors as real
  }

  lemma SnapshotIs(s: State, at: real)
    requires s.plan.Valid() && Tripped(s.plan, s.books)
    ensures SnapshotOf(Snapshot(at, s.books.completed, s.books.errors, ErrorShare(s.books.errors, s.books.completed),
                                s.plan.abortOnErrorRate.value), at, s.books, s.plan)
  {
    RealFacts.DivideBack(s.books.errors as real, s.books.completed as real);
  }

  /** A turn that finds the error rate at its threshold, and nothing to go before that, stops the load there and then
      and writes down what it saw. */
  lemma BreakerStops(s: State, step: Step)
    requires Sane(s) && step.Turn? && Enabled(s, step)
    requires s.books.failures == [] && Arrive(s, step.elapsed).control.end.None? && AtThreshold(s.plan, s.books)
    ensures var t := Next(s, step);
      && t.phase.Draining? && t.stop.reason.ErrorRate? && t.stop.snapshot.Some? && t.clock == step.elapsed
      && SnapshotOf(t.stop.snapshot.value, step.elapsed, s.books, s.plan)
      && t.stop.inflightAtStop == s.books.inflight && t.measured == t.control.end == Some(step.elapsed)
      && t.books == s.books
  {
    ArrivedSane(s, step);
    AdvancedTiled(s.control, step.elapsed, s.books.inflight, Full(s, step.elapsed) && IsDue(s.pace.due, step.elapsed));
    TrippedMeans(s.plan, s.books);
    SnapshotIs(s, step.elapsed);
    TrippedTurn(s, step, Arrive(s, step.elapsed));
  }

  lemma TripEnds(s: State)
    requires s.Shaped() && Tripped(s.plan, s.books) && s.control.end.None? && s.clock < s.control.Deadline()
    ensures TrippedAt(s).control.end == Some(s.clock) && TrippedAt(s).measured == Some(s.clock)
  {
    AbortEnds(s.control, s.clock);
  }

  lemma TrippedTurn(s: State, step: Step, found: State)
    requires Sane(s) && step.Turn? && Enabled(s, step) && found == Arrive(s, step.elapsed) && Sane(found)
    requires s.books.failures == [] && found.control.end.None? && Tripped(s.plan, s.books)
    requires step.elapsed < found.control.Deadline()
    ensures var t, b := Next(s, step), s.books;
      && t.phase.Draining? && t.stop.reason.ErrorRate? && t.clock == step.elapsed
      && t.stop.snapshot == Some(Snapshot(step.elapsed, b.completed, b.errors, ErrorShare(b.errors, b.completed),
                                          s.plan.abortOnErrorRate.value))
      && t.stop.inflightAtStop == b.inflight && t.measured == t.control.end == Some(step.elapsed) && t.books == b
  {
    TripEnds(found);
  }

  /** At its planned end the load stops for that reason, with what is in flight then. */
  lemma DeadlineStops(s: State, step: Step)
    requires Sane(s) && step.Turn? && Enabled(s, step)
    requires s.books.failures == [] && Arrive(s, step.elapsed).control.end.Some?
    ensures var t, found := Next(s, step), Arrive(s, step.elapsed).control;
      && t.phase.Draining? && t.stop.reason.Deadline? && t.stop.snapshot.None?
      && t.stop.inflightAtStop == s.books.inflight && t.control == found && t.measured == found.end
      && t.measuredFrom == (if found.holdStart.Some? then found.holdStart else found.end)
      && t.books == s.books && t.clock == step.elapsed
  {
    ArrivedSane(s, step);
  }

  /** Cleaning up before that stops the load at once, as aborted, and not later than its stage would have ended; what
      is active is to be waited for. */
  lemma CleanupStops(s: State, step: Step)
    requires Sane(s) && step.CleansUp? && Enabled(s, step)
    ensures var t := Next(s, step);
      && t.phase.Cleaning? && t.remaining == s.books.active && t.books == s.books && t.clock == step.at
      && (s.phase.Looping? ==>
            && t.stop.reason.Aborted? && t.stop.snapshot.None? && t.stop.inflightAtStop == s.books.inflight
            && t.measured == t.control.end
            && (s.control.end.None? ==>
                  t.control.end == Some(Min(step.at, s.control.start + s.control.stages[s.control.index].duration))))
      && (s.phase.Draining? ==> t.stop == s.stop && t.measured == s.measured && t.control == s.control)
  {
  }

  /** On leaving, the cooldown is what passed since the measurement, with how it ended; the census is of the requests
      that were cut. */
  lemma LeavingRecords(s: State, step: Step)
    requires Sane(s) && step.Leaves? && Enabled(s, step)
    ensures var t := Next(s, step);
      && t.phase.Left? && t.cooldown.Some? && t.books == s.books && t.clock == step.at
      && Some(t.cooldown.value.start) == s.measured && t.cooldown.value.end == step.at
      && (t.cooldown.value.complete <==> forall r <- s.books.ledger.requests :: !r.state.Interrupted?)
      && (t.cooldown.value.reason.Emptied? <==> forall r <- s.books.ledger.requests :: !r.state.Interrupted?)
      && (!t.cooldown.value.reason.Emptied? ==> (t.cooldown.value.reason.WasCancelled? <==> s.stop.reason.Aborted?))
      && (t.stop.forceCancelled <==> exists r <- s.books.ledger.requests :: r.state.Interrupted?)
  {
    NoneIffZero(s.books.ledger.requests, IsInterrupted());
  }

  // ----- What can happen next -----

  /** A request waits to be dispatched, is under way, or has ended; the driver moves when none waits. */
  lemma WhatCanHappen(s: State, step: Step)
    ensures Enabled(s, step) <==>
      var requests := s.books.ledger.requests;
      match step
      case Turn(elapsed, offered, arrived, _, _, gap) =>
        s.phase.Looping? && (forall r <- requests :: !r.state.Arrived?) && s.clock <= elapsed <= offered <= arrived
        && gap >= 0.0
      case FireStarts(k, at) => k < |requests| && requests[k].state.Arrived? && s.clock <= at
      case FireEnds(k, at, _, _, _) => k < |requests| && requests[k].state.Dispatched? && s.clock <= at
      case FireStops(k, at, _) => k < |requests| && requests[k].state.Dispatched? && s.clock <= at
      case FireSettles(k) =>
        k in s.books.active && k < |requests| && !requests[k].state.Arrived? && !requests[k].state.Dispatched?
      case CleansUp(at) =>
        (s.phase.Looping? || s.phase.Draining?) && (forall r <- requests :: !r.state.Arrived?) && s.clock <= at
      case Leaves(at) =>
        && s.phase.Cleaning? && s.measured.Some? && s.clock <= at
        && forall k <- s.remaining ::
             k < |requests| ==> !requests[k].state.Arrived? && !requests[k].state.Dispatched?
  {
  }

  // ----- Request numbers -----

  /** What a text of digits is worth. */
  function Worth(digits: string): nat {
    if digits == [] then 0
    else 10 * Worth(digits[..|digits| - 1]) + DigitWorth(digits[|digits| - 1])
  }

  function DigitWorth(c: char): nat {
    if '0' <= c <= '9' then c as int - '0' as int else 0
  }

  lemma WorthSnoc(digits: string, c: char)
    ensures Worth(digits + [c]) == 10 * Worth(digits) + DigitWorth(c)
  {
    assert (digits + [c])[..|digits|] == digits;
  }

  lemma DigitIsWorth(d: nat)
    requires d < 10
    ensures DigitWorth(Digit(d)) == d
  {
  }

  /** The number in a request id is its decimal number. */
  lemma {:induction false} DecimalIsWorth(n: nat)
    ensures Worth(Decimal(n)) == n && (n > 0 ==> Decimal(n)[0] != '0')
  {
    if n < 10 {
      DigitIsWorth(n);
      assert Decimal(n) == [] + [Digit(n)];
      WorthSnoc([], Digit(n));
    } else {
      DecimalIsWorth(n / 10);
      DigitIsWorth(n % 10);
      WorthSnoc(Decimal(n / 10), Digit(n % 10));
    }
  }
}
