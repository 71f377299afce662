/** What every run of the scheduler keeps, however its fires and its driver interleave. */
module SchedulerRuns {
  import opened Wrappers
  import opened Records
  import opened RequestBooks
  import opened Reduction
  import opened LoadPlans
  import opened LoadControllers
  import opened ControllerWindows
  import opened Pacing
  import opened Schedulers
  import RealFacts

  // ----- The controller stays within the plan's peak -----

  ghost predicate Fits(plan: LoadPlan, c: Control)
    requires plan.Valid()
  {
    && (c.previous.0.Finite? ==> c.previous.0.value >= 0.0)
    && 1 <= c.previous.1 <= plan.PeakInflight()
  }

  lemma InitialFits(plan: LoadPlan)
    requires plan.Valid()
    ensures Fits(plan, Initial(plan)) && Sound(plan, Initial(plan))
  {
    InitialTiled(plan);
    PeakMonotone(plan.PlannedStages(), plan.cap, plan.cap);
  }

  lemma TargetFits(plan: LoadPlan, c: Control, at: real)
    requires plan.Valid() && c.Shaped() && c.stages == plan.PlannedStages() && Fits(plan, c)
    ensures 1 <= TargetOf(c, at).1 <= plan.PeakInflight()
    ensures TargetOf(c, at).0.Finite? ==> TargetOf(c, at).0.value >= 0.0
  {
    assert c.Stage() in c.stages && c.Stage().Valid();
    if c.Stage().kind.Ramp? {
      var f := Min(1.0, Share(Max(0.0, at - c.start), c.Stage().duration));
      RealFacts.DivideOrder(0.0, Max(0.0, at - c.start), c.Stage().duration);
      InterpolateBetween(c.Stage(), c.previous.0, c.previous.1, f);
      if c.previous.0.Finite? && c.Stage().rate.Finite? {
        BlendBetween(c.previous.0.value, c.Stage().rate.value, f);
      }
    }
  }

  lemma TurnedFits(plan: LoadPlan, c: Control, at: real, inflight: int, limited: bool)
    requires plan.Valid() && c.Shaped() && c.stages == plan.PlannedStages() && c.end.None?
    ensures var t := LoadControllers.Turned(c, at, inflight, limited);
            Fits(plan, t) && (t.end.Some? ==> t.end.value <= at && t.windows != [] && t.Current().complete)
  {
    assert c.Stage() in c.stages && c.Stage().Valid();
  }

  /** Going forward keeps the ramp origin within the plan, and any end at or before `at`. */
  lemma {:induction false} AdvancedFits(plan: LoadPlan, c: Control, at: real, inflight: int, limited: bool)
    requires plan.Valid() && c.Shaped() && c.stages == plan.PlannedStages() && Fits(plan, c) && c.end.None?
    ensures var a := Advanced(c, at, inflight, limited);
            Fits(plan, a) && (a.end.Some? ==> a.end.value <= at && a.windows != [] && a.Current().complete)
    decreases |c.stages| - c.index
  {
    AdvancedTurns(c, at, inflight, limited);
    if at < c.Deadline() && !Capped(c, at, inflight) {
    } else {
      var t := LoadControllers.Turned(c, at, inflight, limited);
      TurnedFits(plan, c, at, inflight, limited);
      if t.end.None? {
        AdvancedFits(plan, t, at, inflight, limited);
      }
    }
  }

  // ----- Invariants -----

  ghost predicate InControl(s: State)
    requires s.plan.Valid()
  {
    && Sound(s.plan, s.control) && Fits(s.plan, s.control)
    && match s.control.end
       case None => s.control.last <= s.clock
       case Some(e) => e <= s.clock && (s.phase.Looping? ==> s.control.Current().complete)
  }

  /** Every admission saw the requests in flight below the cap, and the cap within the peak. */
  ghost predicate Bounded(s: State)
    requires s.plan.Valid()
  {
    && s.books.inflight <= s.plan.PeakInflight()
    && |s.log| == |s.books.ledger.requests|
    && forall e <- s.log :: e.inflight < e.cap <= s.plan.PeakInflight()
  }

  /** The breaker's snapshot really meets its conditions, and counts no more than the books do now. */
  ghost predicate Meets(s: State, p: Snapshot)
    requires s.plan.Valid()
  {
    && s.plan.abortOnErrorRate == Some(p.threshold)
    && p.completed >= s.plan.breakerMinN >= 1
    && p.errorRate == ErrorShare(p.errors, p.completed) >= p.threshold
    && p.completed <= s.books.completed && p.errors <= s.books.errors && p.at <= s.clock
  }

  ghost predicate StopMeant(s: State)
    requires s.plan.Valid() && s.control.Shaped()
  {
    match s.stop.reason
    case ErrorRate => s.stop.snapshot.Some? && Meets(s, s.stop.snapshot.value)
    case Deadline => s.stop.snapshot.None? && s.control.Current().complete
    case Aborted => s.stop.snapshot.None?
  }

  ghost predicate Frozen(s: State)
    requires s.plan.Valid() && s.control.Shaped()
  {
    s.measured.Some? && s.measured == s.control.end && s.measuredFrom == MeasuredFrom(s.control)
      && NonePending(s.books) && StopMeant(s)
  }

  ghost predicate Phased(s: State)
    requires s.plan.Valid() && s.control.Shaped()
  {
    match s.phase
    case Looping => s.measured.None? && s.cooldown.None?
    case Draining => Frozen(s) && s.cooldown.None?
    case Cleaning => Frozen(s) && s.cooldown.None? && (forall k | InOpen(s.books, k) :: k in s.remaining)
    case Left => Frozen(s) && Over(s)
  }

  predicate InOpen(b: Books, k: nat) {
    k < |b.ledger.requests| && Open(b.ledger.requests[k])
  }

  /** Nothing is in flight, everything has ended, and the census counts what was cut. */
  ghost predicate Over(s: State) {
    && (forall r <- s.books.ledger.requests :: r.state.Finished? || r.state.Interrupted?)
    && s.stop.interrupted == CountIf(s.books.ledger.requests, IsInterrupted())
    && s.measured.Some? && s.cooldown.Some?
       && s.cooldown.value.start == s.measured.value <= s.cooldown.value.end == s.clock
    && (s.cooldown.value.complete <==> s.stop.interrupted == 0) && (s.stop.forceCancelled <==> s.stop.interrupted > 0)
    && (s.cooldown.value.reason.Emptied? <==> s.stop.interrupted == 0)
    && (s.cooldown.value.reason.WasCancelled? <==> s.stop.interrupted > 0 && s.stop.reason.Aborted?)
  }

  ghost predicate Sane(s: State) {
    && s.plan.Valid()
    && Kept(s.books, s.clock) && OnlyRequests(s.books)
    && InControl(s)
    && Paced(s.pace, s.log, s.plan.constantArrivals, s.clock)
    && Bounded(s) && Phased(s)
  }

  lemma BeginSane(plan: LoadPlan, run: string)
    requires plan.Valid()
    ensures Sane(Begin(plan, run))
  {
    InitialFits(plan);
    BlankKept(run, 0.0);
    PeakMonotone(plan.PlannedStages(), plan.cap, plan.cap);
  }

  // ----- The driver's turn -----

  lemma ControlAdvances(s: State, at: real, limited: bool)
    requires s.plan.Valid() && InControl(s) && s.clock <= at
    ensures InControl(s.(control := Advanced(s.control, at, s.books.inflight, limited), clock := at))
  {
    var c := s.control;
    AppliedSound(s.plan, c, AdvanceTo(at, s.books.inflight, limited));
    if c.end.None? {
      AdvancedFits(s.plan, c, at, s.books.inflight, limited);
    }
  }

  lemma AbortSound(s: State, at: real)
    requires s.plan.Valid() && InControl(s) && s.clock <= at
    ensures var c := AbortedAt(s.control, at);
            Sound(s.plan, c) && Fits(s.plan, c) && c.end.Some? && c.end.value <= at
  {
    AppliedSound(s.plan, s.control, AbortNow(at));
  }

  lemma ArriveSane(s: State, elapsed: real)
    requires Sane(s) && s.phase.Looping? && s.clock <= elapsed
    ensures Sane(Arrive(s, elapsed))
  {
    KeptLater(s.books, s.clock, elapsed);
    PacedLater(s.pace, s.log, s.plan.constantArrivals, s.clock, elapsed);
    ControlAdvances(s, elapsed, Full(s, elapsed) && IsDue(s.pace.due, elapsed));
  }

  lemma CleanedSane(s: State, at: real)
    requires Sane(s) && (s.phase.Looping? || s.phase.Draining?) && NonePending(s.books) && s.clock <= at
    ensures Sane(CleanedUp(s, at)) && CleanedUp(s, at).phase.Cleaning?
  {
    KeptLater(s.books, s.clock, at);
    PacedLater(s.pace, s.log, s.plan.constantArrivals, s.clock, at);
    if s.measured.None? { AbortSound(s, at); }
    forall k | InOpen(s.books, k) ensures k in s.books.active {
      assert Entered(s.books, k, s.clock);
    }
  }

  lemma WoundDownSane(s: State)
    requires Sane(s) && s.phase.Looping? && NonePending(s.books) && s.control.end.Some?
    ensures Sane(WoundDown(s, StopReason.Deadline, None))
  {
  }

  lemma TrippedSane(s: State)
    requires Sane(s) && s.phase.Looping? && NonePending(s.books) && Tripped(s.plan, s.books)
    ensures Sane(TrippedAt(s))
  {
    AbortSound(s, s.clock);
  }

  lemma ServedSane(s: State, step: Step)
    requires Sane(s) && s.phase.Looping? && s.control.end.None?
    requires step.Turn? && s.clock <= step.offered <= step.arrived && step.gap >= 0.0
    ensures Sane(Served(s, step))
  {
    var rate := TargetOf(s.control, s.clock).0;
    TargetFits(s.plan, s.control, s.clock);
    RetimedPaced(s.pace, s.log, s.plan.constantArrivals, s.clock, s.clock, rate);
    RefreshedPaced(Retimed(s.pace, s.clock, rate), s.log, s.plan.constantArrivals, s.clock, s.clock, Full(s, s.clock));
    var t := s.(pace := Repaced(s));
    assert t.pace.lastRate == Some(rate);
    if MaySend(t.pace, t.clock, rate, Full(t, t.clock)) {
      OfferedSane(t, step);
    }
  }

  lemma OfferedSane(s: State, step: Step)
    requires Sane(s) && s.phase.Looping? && s.control.end.None?
    requires step.Turn? && s.clock <= step.offered <= step.arrived && step.gap >= 0.0
    requires s.pace.lastRate == Some(TargetOf(s.control, s.clock).0)
    requires MaySend(s.pace, s.clock, TargetOf(s.control, s.clock).0, Full(s, s.clock))
    ensures Sane(Offered(s, step))
  {
    var constant := s.plan.constantArrivals;
    TargetFits(s.plan, s.control, s.clock);
    TargetFits(s.plan, s.control, step.offered);
    KeptLater(s.books, s.clock, step.offered);
    PacedLater(s.pace, s.log, constant, s.clock, step.offered);
    if !(step.offered >= s.control.Deadline() || Full(s, step.offered)) {
      var e := Admission(s.clock, TargetOf(s.control, s.clock).0, TargetOf(s.control, step.offered).1,
        s.books.inflight);
      var next := NextDue(s, step.gap);
      NextDueLater(s, step.gap);
      AdmittedKept(s.books, s.pace.due.time, step.arrived, step.caseId, step.facets, s.clock);
      SentPaced(s.pace, s.log, constant, s.clock, e, next);
      PacedLater(Pacing.Sent(s.pace, s.clock, next), s.log + [e], constant, s.clock, step.arrived);
    }
  }

  lemma NextDueLater(s: State, gap: real)
    requires s.Shaped() && gap >= 0.0
    requires TargetOf(s.control, s.clock).0.Finite? ==> TargetOf(s.control, s.clock).0.value >= 0.0
    ensures NotBefore(NextDue(s, gap), s.clock)
  {
    var rate := TargetOf(s.control, s.clock).0;
    if rate.Finite? && rate.value > 0.0 { IntervalPositive(rate.value); }
  }

  lemma TurnSane(s: State, step: Step)
    requires Sane(s) && step.Turn? && Enabled(s, step)
    ensures Sane(Next(s, step))
  {
    ArriveSane(s, step.elapsed);
    var t := Arrive(s, step.elapsed);
    if t.books.failures != [] {
      CleanedSane(t, step.offered);
    } else if t.control.end.Some? {
      WoundDownSane(t);
    } else if Tripped(t.plan, t.books) {
      TrippedSane(t);
    } else {
      ServedSane(t, step);
    }
  }

  // ----- Fires -----

  /** The books after a step of a fire, beside those before: no request comes, none is reopened, nothing
      is counted back. */
  ghost predicate Follows(b: Books, before: Books, clock: real) {
    && Kept(b, clock) && OnlyRequests(b) && |b.ledger.requests| == |before.ledger.requests|
    && b.inflight <= before.inflight && b.completed >= before.completed && b.errors >= before.errors
    && forall k | 0 <= k < |b.ledger.requests| ::
       b.ledger.requests[k] == before.ledger.requests[k] || !Open(b.ledger.requests[k])
  }

  /** A step of a fire that keeps the books leaves the rest as it was. */
  lemma FollowsSane(s: State, b: Books, clock: real)
    requires Sane(s) && s.clock <= clock && Follows(b, s.books, clock)
    requires !s.phase.Left? || (b.ledger.requests == s.books.ledger.requests && clock == s.clock)
    ensures Sane(s.(books := b, clock := clock))
  {
    PacedLater(s.pace, s.log, s.plan.constantArrivals, s.clock, clock);
    if !s.phase.Looping? {
      forall r <- b.ledger.requests ensures !r.state.Arrived? {
        var k :| 0 <= k < |b.ledger.requests| && b.ledger.requests[k] == r;
        assert s.books.ledger.requests[k] in s.books.ledger.requests;
      }
    }
  }

  lemma EndedFollows(b: Books, step: Step, clock: real)
    requires Kept(b, clock) && OnlyRequests(b) && step.FireEnds? && InState(b, step.k, RequestState.Dispatched)
      && clock <= step.at
    ensures Follows(Ended(b, step.k, step.at, step.outcome, step.facets, step.judgement), b, step.at)
  {
    EndedKept(b, step.k, step.at, step.outcome, step.facets, step.judgement, clock);
    EndedChanges(b, step.k, step.at, step.outcome, step.facets, step.judgement);
  }

  lemma StoppedFollows(b: Books, step: Step, clock: real)
    requires Kept(b, clock) && OnlyRequests(b) && step.FireStops? && InState(b, step.k, RequestState.Dispatched)
      && clock <= step.at
    ensures Follows(Stopped(b, step.k, step.at, step.outcome), b, step.at)
  {
    StoppedKept(b, step.k, step.at, step.outcome, clock);
  }

  /** Once the scheduler has left no fire is under way. */
  lemma NoneUnderWay(s: State, k: nat)
    requires Sane(s) && InState(s.books, k, RequestState.Dispatched)
    ensures !s.phase.Left?
  {
    assert s.books.ledger.requests[k] in s.books.ledger.requests;
  }

  lemma FireEndsSane(s: State, step: Step)
    requires Sane(s) && step.FireEnds? && InState(s.books, step.k, RequestState.Dispatched) && s.clock <= step.at
    ensures Sane(s.(books := Ended(s.books, step.k, step.at, step.outcome, step.facets, step.judgement),
      clock := step.at))
  {
    NoneUnderWay(s, step.k);
    EndedFollows(s.books, step, s.clock);
    FollowsSane(s, Ended(s.books, step.k, step.at, step.outcome, step.facets, step.judgement), step.at);
  }

  lemma FireStopsSane(s: State, step: Step)
    requires Sane(s) && step.FireStops? && InState(s.books, step.k, RequestState.Dispatched) && s.clock <= step.at
    ensures Sane(s.(books := Stopped(s.books, step.k, step.at, step.outcome), clock := step.at))
  {
    NoneUnderWay(s, step.k);
    StoppedFollows(s.books, step, s.clock);
    FollowsSane(s, Stopped(s.books, step.k, step.at, step.outcome), step.at);
  }

  lemma FireSettlesSane(s: State, step: Step)
    requires Sane(s) && Enabled(s, step) && step.FireSettles?
    ensures Sane(s.(books := Settled(s.books, step.k)))
  {
    SettledKept(s.books, step.k, s.clock);
    FollowsSane(s, Settled(s.books, step.k), s.clock);
  }

  lemma NextSane(s: State, step: Step)
    requires Sane(s) && Enabled(s, step)
    ensures Sane(Next(s, step))
  {
    match step
    case Turn(_, _, _, _, _, _) => TurnSane(s, step);
    case FireStarts(k, at) => FireStartsSane(s, k, at);
    case CleansUp(at) => CleanedSane(s, at);
    case Leaves(at) => LeavesSane(s, at);
    case FireEnds(_, _, _, _, _) => FireEndsSane(s, step);
    case FireStops(_, _, _) => FireStopsSane(s, step);
    case FireSettles(_) => FireSettlesSane(s, step);
  }

  lemma FireStartsSane(s: State, k: nat, at: real)
    requires Sane(s) && Enabled(s, FireStarts(k, at))
    ensures Sane(Next(s, FireStarts(k, at)))
  {
    assert s.books.ledger.requests[k] in s.books.ledger.requests;
    assert s.phase.Looping?;
    StartedKept(s.books, k, at, s.clock);
    ControlAdvances(s, at, false);
    PacedLater(s.pace, s.log, s.plan.constantArrivals, s.clock, at);
  }

  lemma LeavesSane(s: State, at: real)
    requires Sane(s) && Enabled(s, Leaves(at))
    ensures Sane(Next(s, Leaves(at)))
  {
    KeptLater(s.books, s.clock, at);
    PacedLater(s.pace, s.log, s.plan.constantArrivals, s.clock, at);
    forall r <- s.books.ledger.requests ensures r.state.Finished? || r.state.Interrupted? {
      var k :| 0 <= k < |s.books.ledger.requests| && s.books.ledger.requests[k] == r;
      assert Entered(s.books, k, s.clock);
      assert !InOpen(s.books, k);
    }
  }

  // ----- Whole runs -----

  /** A run from the beginning: any interleaving of the driver's steps and the fires'. */
  ghost predicate IsRun(plan: LoadPlan, run: string, steps: seq<Step>, states: seq<State>)
    requires plan.Valid()
  {
    && |states| == |steps| + 1 && states[0] == Begin(plan, run)
    && forall i | 0 <= i < |steps| ::
         states[i].Shaped() && Enabled(states[i], steps[i]) && states[i + 1] == Next(states[i], steps[i])
  }

  lemma {:induction false} RunsSane(plan: LoadPlan, run: string, steps: seq<Step>, states: seq<State>, n: nat)
    requires plan.Valid() && IsRun(plan, run, steps, states) && n < |states|
    ensures Sane(states[n]) && states[n].plan == plan
  {
    if n == 0 {
      BeginSane(plan, run);
    } else {
      RunsSane(plan, run, steps, states, n - 1);
      NextSane(states[n - 1], steps[n - 1]);
    }
  }

  // ----- Ledger conservation -----

  lemma {:induction false} EveryOneCounted(records: seq<RequestRecord>)
    requires forall r <- records :: !r.state.Dropped?
    ensures |records| == CountIf(records, IsOpen()) + CountIf(records, IsFinished()) + CountIf(records, IsInterrupted())
  {
    if records == [] {
    } else {
      EveryOneCounted(records[1..]);
    }
  }

  /** Each request sent is in flight, judged, lost to a failing judge, or interrupted, and the operation
      runs are those of the requests that have ended. */
  ghost predicate Balanced(b: Books) {
    && b.inflight == CountIf(b.ledger.requests, IsOpen())
    && b.sent == |b.ledger.requests|
       == b.inflight + b.completed + |b.failures| + CountIf(b.ledger.requests, IsInterrupted())
    && b.completed == |b.ledger.evaluations| && b.errors == |FailedIds(b.ledger.evaluations)| <= b.completed
    && |b.ledger.operationRuns| == b.sent - b.inflight
    && forall r <- b.ledger.requests :: RunIds(b.ledger.operationRuns)[r.id] == if Open(r) then 0 else 1
  }

  lemma KeptBalanced(b: Books, clock: real)
    requires Kept(b, clock)
    ensures Balanced(b)
  {
    forall r <- b.ledger.requests
      ensures !r.state.Dropped? && RunIds(b.ledger.operationRuns)[r.id] == if Open(r) then 0 else 1
    {
      var k :| 0 <= k < |b.ledger.requests| && b.ledger.requests[k] == r;
      assert Entered(b, k, clock);
    }
    EveryOneCounted(b.ledger.requests);
    FailedAreSome(b.ledger.evaluations);
  }

  /** The ledger balances in every reachable state. */
  lemma LedgerConserved(plan: LoadPlan, run: string, steps: seq<Step>, states: seq<State>, n: nat)
    requires plan.Valid() && IsRun(plan, run, steps, states) && n < |states|
    ensures Balanced(states[n].books)
  {
    RunsSane(plan, run, steps, states, n);
    KeptBalanced(states[n].books, states[n].clock);
  }

  lemma {:induction false} Subset(a: set<string>, b: set<string>)
    requires a <= b
    ensures |a| <= |b|
  {
    if a != {} {
      var x :| x in a;
      Subset(a - {x}, b - {x});
    }
  }

  lemma FailedAreSome(evaluations: map<string, Evaluation>)
    ensures |FailedIds(evaluations)| <= |evaluations|
  {
    Subset(FailedIds(evaluations), evaluations.Keys);
    assert |evaluations.Keys| == |evaluations|;
  }

  lemma OverBalanced(s: State)
    requires Over(s) && Balanced(s.books)
    ensures s.books.inflight == 0 && s.books.sent == s.books.completed + |s.books.failures| + s.stop.interrupted
  {
    CountNone(s.books.ledger.requests, IsOpen());
  }

  /** When the scheduler has left, nothing is in flight, every request is finished or interrupted,
      and the stop counts the interrupted ones. */
  lemma LeftIsOver(plan: LoadPlan, run: string, steps: seq<Step>, states: seq<State>, n: nat)
    requires plan.Valid() && IsRun(plan, run, steps, states) && n < |states| && states[n].phase.Left?
    ensures var s := states[n];
      && Over(s) && s.books.inflight == 0
      && s.books.sent == s.books.completed + |s.books.failures| + s.stop.interrupted
  {
    RunsSane(plan, run, steps, states, n);
    LedgerConserved(plan, run, steps, states, n);
    OverBalanced(states[n]);
  }

  // ----- Admission safety -----

  /** Once the controller has ended, a judge has failed or the loop was left, no request is admitted. */
  predicate Shut(s: State) {
    s.books.failures != [] || s.control.end.Some? || !s.phase.Looping?
  }

  lemma {:induction false} EndStays(c: Control, at: real, inflight: int, limited: bool)
    requires c.Shaped() && c.end.Some?
    ensures Advanced(c, at, inflight, limited) == c && AbortedAt(c, at) == c
  {
  }

  lemma ShutStep(s: State, step: Step)
    requires s.Shaped() && Enabled(s, step) && Shut(s)
    ensures Shut(Next(s, step)) && Next(s, step).books.sent == s.books.sent
  {
    if s.control.end.Some? && step.Turn? {
      EndStays(s.control, step.elapsed, s.books.inflight, Full(s, step.elapsed) && IsDue(s.pace.due, step.elapsed));
    }
  }

  lemma ShutOneStep(plan: LoadPlan, run: string, steps: seq<Step>, states: seq<State>, n: nat)
    requires plan.Valid() && IsRun(plan, run, steps, states) && n < |steps| && Shut(states[n])
    ensures Shut(states[n + 1]) && states[n + 1].books.sent == states[n].books.sent
  {
    ShutStep(states[n], steps[n]);
  }

  ghost predicate ShutSteps(states: seq<State>) {
    forall n | 0 <= n < |states| - 1 ::
      Shut(states[n]) ==> Shut(states[n + 1]) && states[n + 1].books.sent == states[n].books.sent
  }

  lemma {:induction false} ShutStays(states: seq<State>, i: nat, j: nat)
    requires ShutSteps(states) && i <= j < |states| && Shut(states[i])
    ensures Shut(states[j]) && states[j].books.sent == states[i].books.sent
    decreases j
  {
    if i == j {
    } else {
      ShutStays(states, i, j - 1);
    }
  }

  /** From then on no request is ever admitted again. */
  lemma ShutForGood(plan: LoadPlan, run: string, steps: seq<Step>, states: seq<State>, i: nat, j: nat)
    requires plan.Valid() && IsRun(plan, run, steps, states) && i <= j < |states| && Shut(states[i])
    ensures Shut(states[j]) && states[j].books.sent == states[i].books.sent
  {
    forall n | 0 <= n < |steps| && Shut(states[n])
      ensures Shut(states[n + 1]) && states[n + 1].books.sent == states[n].books.sent
    {
      ShutOneStep(plan, run, steps, states, n);
    }
    ShutStays(states, i, j);
  }

  /** What an admission in this turn looks like, from the state the turn found to the one it leaves. */
  ghost predicate SafeAdmission(s: State, step: Step, t: State)
    requires step.Turn? && t.Shaped() && t.control.index < |t.control.stages|
  {
    && step.offered < t.control.Deadline()
    && s.books.inflight < TargetOf(t.control, step.offered).1
    && s.books.inflight < TargetOf(t.control, step.elapsed).1
    && t.log == s.log + [Admission(step.elapsed, TargetOf(t.control, step.elapsed).0,
                                   TargetOf(t.control, step.offered).1, s.books.inflight)]
  }

  /** The turn sends a request: one is due at the present rate, and there was room both when the
      turn began and when the request was made. */
  predicate Sends(s: State, step: Step)
    requires s.Shaped() && step.Turn?
  {
    && MaySend(Repaced(s), s.clock, TargetOf(s.control, s.clock).0, Full(s, s.clock))
    && step.offered < s.control.Deadline() && !Full(s, step.offered)
  }

  lemma ServedAdmits(s: State, step: Step)
    requires s.Shaped() && step.Turn? && s.clock == step.elapsed
    ensures var t := Served(s, step);
      && t.books.sent == s.books.sent + (if Sends(s, step) then 1 else 0)
      && t.control == s.control && t.plan == s.plan && t.books.failures == s.books.failures && t.phase == s.phase
      && (t.books.sent > s.books.sent ==> SafeAdmission(s, step, t))
  {
  }

  lemma TurnAdmits(s: State, step: Step)
    requires s.Shaped() && step.Turn? && !Shut(s) && Arrive(s, step.elapsed).Shaped()
    ensures var t, found := Schedulers.Turned(s, step), Arrive(s, step.elapsed);
      && s.books.sent <= t.books.sent <= s.books.sent + 1
      && (t.books.sent > s.books.sent <==> found.control.end.None? && !Tripped(s.plan, s.books) && Sends(found, step))
      && (t.books.sent > s.books.sent ==> t.Shaped() && !Shut(t) && SafeAdmission(s, step, t))
  {
    var t := Arrive(s, step.elapsed);
    if t.control.end.None? && !Tripped(t.plan, t.books) {
      ServedAdmits(t, step);
    }
  }

  lemma OthersAdmitNone(s: State, step: Step)
    requires s.Shaped() && Enabled(s, step) && !step.Turn?
    ensures Next(s, step).books.sent == s.books.sent
  {
  }

  /** A step admits at most one request, and does so exactly in a turn that finds the run open, the
      stage running, the breaker quiet, a request due and room under the present cap. */
  lemma AdmissionIsSafe(s: State, step: Step)
    requires s.Shaped() && Enabled(s, step)
    ensures Arrived(s, step).Shaped()
    ensures var t, found := Next(s, step), Arrived(s, step);
      && s.books.sent <= t.books.sent <= s.books.sent + 1
      && (t.books.sent > s.books.sent
         <==> step.Turn? && !Shut(s) && found.control.end.None? && !Tripped(s.plan, s.books) && Sends(found, step))
      && (t.books.sent > s.books.sent ==> t.Shaped() && !Shut(t) && SafeAdmission(s, step, t))
  {
    if step.Turn? {
      AdvancedShaped(s.control, step.elapsed, s.books.inflight,
        Full(s, step.elapsed) && IsDue(s.pace.due, step.elapsed));
    }
    if Shut(s) {
      ShutStep(s, step);
    } else if step.Turn? {
      TurnAdmits(s, step);
    } else {
      OthersAdmitNone(s, step);
    }
  }

  /** The state a turn finds when it has brought the controller forward. */
  function Arrived(s: State, step: Step): State
    requires s.Shaped()
  {
    if step.Turn? then Arrive(s, step.elapsed) else s
  }

  /** Why a turn leaves the loop: a judge's failure goes before the planned end, and that before the breaker. */
  lemma TurnsEndForAReason(s: State, step: Step)
    requires Sane(s) && step.Turn? && Enabled(s, step)
    ensures var t, ended := Next(s, step), Arrive(s, step.elapsed).control.end.Some?;
      && (t.phase.Cleaning? <==> s.books.failures != [])
      && (t.phase.Draining? && t.stop.reason.Deadline? <==> s.books.failures == [] && ended)
      && (t.phase.Draining? && t.stop.reason.ErrorRate?
         <==> s.books.failures == [] && !ended && Tripped(s.plan, s.books))
      && (t.phase.Looping? <==> s.books.failures == [] && !ended && !Tripped(s.plan, s.books))
  {
    ArriveSane(s, step.elapsed);
    ServedAdmits(Arrive(s, step.elapsed), step);
  }

  /** In every reachable state no more requests are in flight than the plan's peak, even where a
      ramp has since lowered the cap, and every admission saw fewer than the cap then in force. */
  lemma InflightWithinPeak(plan: LoadPlan, run: string, steps: seq<Step>, states: seq<State>, n: nat)
    requires plan.Valid() && IsRun(plan, run, steps, states) && n < |states|
    ensures CountIf(states[n].books.ledger.requests, IsOpen()) <= plan.PeakInflight()
    ensures forall e <- states[n].log :: e.inflight < e.cap <= plan.PeakInflight()
  {
    RunsSane(plan, run, steps, states, n);
  }

  /** A run stopped by the breaker met both the minimum count and the threshold when it stopped. */
  lemma BreakerWasRight(plan: LoadPlan, run: string, steps: seq<Step>, states: seq<State>, n: nat)
    requires plan.Valid() && IsRun(plan, run, steps, states) && n < |states|
    requires !states[n].phase.Looping? && states[n].stop.reason.ErrorRate?
    ensures states[n].plan == plan && states[n].stop.snapshot.Some? && Meets(states[n], states[n].stop.snapshot.value)
  {
    RunsSane(plan, run, steps, states, n);
  }

  // ----- Frozen load facts -----

  /** What was measured, by which stages, and why it stopped. */
  predicate SameFacts(s: State, t: State) {
    && t.control == s.control && t.measured == s.measured && t.measuredFrom == s.measuredFrom
    && t.stop.reason == s.stop.reason && t.stop.snapshot == s.stop.snapshot
    && t.stop.inflightAtStop == s.stop.inflightAtStop
  }

  lemma FactsStep(s: State, step: Step)
    requires Sane(s) && Enabled(s, step) && !s.phase.Looping?
    ensures SameFacts(s, Next(s, step)) && !Next(s, step).phase.Looping?
  {
    if step.FireStarts? { EndStays(s.control, step.at, s.books.inflight, false); }
  }

  lemma FactsOneStep(plan: LoadPlan, run: string, steps: seq<Step>, states: seq<State>, n: nat)
    requires plan.Valid() && IsRun(plan, run, steps, states) && n < |steps| && !states[n].phase.Looping?
    ensures SameFacts(states[n], states[n + 1]) && !states[n + 1].phase.Looping?
  {
    RunsSane(plan, run, steps, states, n);
    FactsStep(states[n], steps[n]);
  }

  ghost predicate KeepsFacts(states: seq<State>, n: nat)
    requires n + 1 < |states|
  {
    !states[n].phase.Looping? ==> SameFacts(states[n], states[n + 1]) && !states[n + 1].phase.Looping?
  }

  lemma {:induction false} FactsStay(states: seq<State>, i: nat, j: nat)
    requires i <= j < |states| && !states[i].phase.Looping? && forall n | i <= n < j :: KeepsFacts(states, n)
    ensures SameFacts(states[i], states[j]) && !states[j].phase.Looping?
    decreases j
  {
    if i == j {
    } else {
      FactsStay(states, i, j - 1);
      assert KeepsFacts(states, j - 1);
    }
  }

  /** Once the loop is left neither draining nor cleaning up rewrites the load facts. */
  lemma FactsAreFrozen(plan: LoadPlan, run: string, steps: seq<Step>, states: seq<State>, i: nat, j: nat)
    requires plan.Valid() && IsRun(plan, run, steps, states) && i <= j < |states| && !states[i].phase.Looping?
    ensures SameFacts(states[i], states[j]) && !states[j].phase.Looping? && states[i].measured.Some?
  {
    RunsSane(plan, run, steps, states, i);
    forall n | i <= n < j ensures KeepsFacts(states, n) {
      if !states[n].phase.Looping? { FactsOneStep(plan, run, steps, states, n); }
    }
    FactsStay(states, i, j);
  }

  // ----- Pacing -----

  /** The plan's rates, to begin with and in every stage, are finite and at most `limit`. */
  ghost predicate PlannedBelow(plan: LoadPlan, limit: real)
    requires plan.Valid()
  {
    && plan.rate.Finite? && 0.0 <= plan.rate.value <= limit
    && forall s <- plan.PlannedStages() :: s.rate.Finite? && 0.0 <= s.rate.value <= limit
  }

  /** Then so is every target, on a ramp too. */
  lemma TargetBelow(plan: LoadPlan, c: Control, at: real, limit: real)
    requires plan.Valid() && PlannedBelow(plan, limit) && ControllerWindows.Sound(plan, c) && c.end.None?
    ensures TargetOf(c, at).0.Finite? && TargetOf(c, at).0.value <= limit
  {
    var stages := c.stages;
    assert c.Stage() in stages;
    if c.Stage().kind.Ramp? {
      if |c.windows| > 1 {
        assert c.windows[|c.windows| - 2] in c.windows;
        assert stages[c.windows[|c.windows| - 2].index] in stages;
      }
      assert c.Stage().Valid();
      RealFacts.DivideOrder(0.0, Max(0.0, at - c.start), c.Stage().duration);
      BlendBetween(c.previous.0.value, c.Stage().rate.value,
        Min(1.0, Share(Max(0.0, at - c.start), c.Stage().duration)));
    }
  }

  ghost predicate LogBelow(log: seq<Admission>, limit: real) {
    forall e <- log :: e.rate.Finite? && e.rate.value <= limit
  }

  lemma ServedLog(s: State, step: Step)
    requires s.Shaped() && step.Turn? && Served(s, step).books.sent == s.books.sent
    ensures Served(s, step).log == s.log
  {
  }

  lemma LogOnlyGrows(s: State, step: Step)
    requires s.Shaped() && Enabled(s, step) && Next(s, step).books.sent == s.books.sent
    ensures Next(s, step).log == s.log
  {
    if step.Turn? {
      AdvancedShaped(s.control, step.elapsed, s.books.inflight,
        Full(s, step.elapsed) && IsDue(s.pace.due, step.elapsed));
      var t := Arrive(s, step.elapsed);
      if t.books.failures == [] && t.control.end.None? && !Tripped(t.plan, t.books) { ServedLog(t, step); }
    }
  }

  lemma LogStep(plan: LoadPlan, s: State, step: Step, limit: real)
    requires Sane(s) && s.plan == plan && Enabled(s, step) && Sane(Next(s, step)) && PlannedBelow(plan, limit)
      && LogBelow(s.log, limit)
    ensures LogBelow(Next(s, step).log, limit)
  {
    AdmissionIsSafe(s, step);
    var t := Next(s, step);
    if t.books.sent > s.books.sent {
      TargetBelow(plan, t.control, step.elapsed, limit);
    } else {
      LogOnlyGrows(s, step);
    }
  }

  lemma {:induction false} RunsBelow(plan: LoadPlan, run: string, steps: seq<Step>, states: seq<State>, n: nat,
                                     limit: real)
    requires plan.Valid() && IsRun(plan, run, steps, states) && n < |states| && PlannedBelow(plan, limit)
    ensures LogBelow(states[n].log, limit)
  {
    if n == 0 {
    } else {
      RunsBelow(plan, run, steps, states, n - 1, limit);
      LogBelowAt(plan, run, steps, states, n - 1, limit);
    }
  }

  lemma LogBelowAt(plan: LoadPlan, run: string, steps: seq<Step>, states: seq<State>, n: nat, limit: real)
    requires plan.Valid() && IsRun(plan, run, steps, states) && n < |steps|
    requires PlannedBelow(plan, limit) && LogBelow(states[n].log, limit)
    ensures LogBelow(states[n + 1].log, limit)
  {
    RunsSane(plan, run, steps, states, n);
    RunsSane(plan, run, steps, states, n + 1);
    LogStep(plan, states[n], steps[n], limit);
  }

  /** With constant arrivals, no interval of a run admits more than one request and the plan's maximum rate. */
  lemma RunsHaveNoBurst(plan: LoadPlan, run: string, steps: seq<Step>, states: seq<State>, n: nat, from: real,
                        to: real, limit: real)
    requires plan.Valid() && plan.constantArrivals && IsRun(plan, run, steps, states) && n < |states|
    requires from <= to && limit > 0.0 && PlannedBelow(plan, limit)
    ensures AllSpaced(states[n].log, true)
    ensures CountIn(states[n].log, from, to) as real <= 1.0 + (to - from) * limit
  {
    RunsSane(plan, run, steps, states, n);
    RunsBelow(plan, run, steps, states, n, limit);
    NoBurst(states[n].log, from, to, limit);
  }

  // ----- What is measured -----

  lemma {:induction false} StartsBefore(stages: seq<Stage>, windows: seq<Window>, i: nat, j: nat)
    requires Tiles(stages, windows) && i <= j < |windows|
    ensures 0.0 <= windows[i].start <= windows[j].start
    decreases j, i
  {
    if j == 0 {
    } else {
      assert Adjoin(stages, windows[j - 1], windows[j]);
      if i < j { StartsBefore(stages, windows, i, j - 1); } else { StartsBefore(stages, windows, i - 1, j - 1); }
    }
  }

  lemma {:induction false} FirstHoldIsStart(windows: seq<Window>) returns (i: nat)
    requires FirstHold(windows).Some?
    ensures i < |windows| && windows[i].kind.Hold? && windows[i].start == FirstHold(windows).value
    ensures forall k | 0 <= k < i :: !windows[k].kind.Hold?
  {
    var n := |windows| - 1;
    if FirstHold(windows[..n]).Some? {
      i := FirstHoldIsStart(windows[..n]);
      assert forall k | 0 <= k <= i :: windows[..n][k] == windows[k];
    } else {
      i := n;
      NoHoldBefore(windows[..n]);
      assert forall k | 0 <= k < n :: windows[..n][k] == windows[k];
    }
  }

  lemma {:induction false} NoHoldBefore(windows: seq<Window>)
    requires FirstHold(windows).None?
    ensures forall k | 0 <= k < |windows| :: !windows[k].kind.Hold?
  {
    if windows == [] {
    } else {
      var n := |windows| - 1;
      NoHoldBefore(windows[..n]);
      assert forall k | 0 <= k < n :: windows[..n][k] == windows[k];
    }
  }

  lemma MeasuredFromWithin(c: Control)
    requires Tiled(c) && c.end.Some?
    ensures MeasuredFrom(c).Some? && 0.0 <= MeasuredFrom(c).value <= c.end.value
  {
    var n := |c.windows| - 1;
    StartsBefore(c.stages, c.windows, n, n);
    if c.holdStart.Some? {
      var i := FirstHoldIsStart(c.windows);
      StartsBefore(c.stages, c.windows, i, n);
    }
  }

  /** Once the loop is left, what was measured runs from the first hold, or from the end if none began, to
      the controller's end, within the planned duration. */
  lemma MeasurementWithin(plan: LoadPlan, run: string, steps: seq<Step>, states: seq<State>, n: nat)
    requires plan.Valid() && IsRun(plan, run, steps, states) && n < |states| && !states[n].phase.Looping?
    ensures var s := states[n];
      && s.measuredFrom.Some? && s.measured.Some?
      && 0.0 <= s.measuredFrom.value <= s.measured.value <= plan.Duration()
      && s.measured == s.control.end
      && s.measuredFrom == (if FirstHold(s.control.windows).Some? then FirstHold(s.control.windows) else s.measured)
  {
    RunsSane(plan, run, steps, states, n);
    MeasuredFromWithin(states[n].control);
    PrefixIsDuration(plan.PlannedStages());
  }

  /** No request is dispatched before it arrives, arrives before it is scheduled or finishes before it is
      dispatched, in any reachable state; and one that has ended has all its times. */
  lemma RecordsInOrder(plan: LoadPlan, run: string, steps: seq<Step>, states: seq<State>, n: nat)
    requires plan.Valid() && IsRun(plan, run, steps, states) && n < |states|
    ensures forall r <- states[n].books.ledger.requests ::
      && Timely(r, states[n].clock) && 0.0 <= r.scheduledAt <= r.arrivedAt <= states[n].clock
      && (r.dispatchedAt.Some? ==> r.arrivedAt <= r.dispatchedAt.value <= states[n].clock)
      && (r.finishedAt.Some? ==> r.dispatchedAt.Some? && r.dispatchedAt.value <= r.finishedAt.value <= states[n].clock)
      && (r.finishedAt.Some? <==> r.state.Finished? || r.state.Interrupted?)
      && (r.dispatchedAt.None? <==> r.state.Arrived?)
  {
    RunsSane(plan, run, steps, states, n);
    var s := states[n];
    forall r <- s.books.ledger.requests ensures Timely(r, s.clock) {
      var k :| 0 <= k < |s.books.ledger.requests| && s.books.ledger.requests[k] == r;
      assert Entered(s.books, k, s.clock);
    }
  }

  // ----- What is left can be reduced -----

  function SpansOf(windows: seq<Window>): seq<Span> {
    seq(|windows|, i requires 0 <= i < |windows| => Span(windows[i].start, windows[i].end))
  }

  lemma SpansTile(c: Control)
    requires Tiled(c) && c.end.Some?
    ensures SpansOf(c.windows) != [] && SpansOf(c.windows)[0].start == 0.0 && Tiling(SpansOf(c.windows))
    ensures SpansOf(c.windows)[|c.windows| - 1].end == c.end.value
  {
    var spans := SpansOf(c.windows);
    forall i | 0 <= i < |spans|
      ensures spans[i].start <= spans[i].end && (i < |spans| - 1 ==> spans[i].end == spans[i + 1].start)
    {
      if i < |spans| - 1 { assert Adjoin(c.stages, c.windows[i], c.windows[i + 1]); }
    }
  }

  /** The stage windows and the cooldown after them, which may be kept open until later. */
  function AllSpans(s: State, until: real): seq<Span>
    requires s.cooldown.Some?
  {
    SpansOf(s.control.windows) + [Span(s.cooldown.value.start, until)]
  }

  lemma AllSpansTile(s: State, until: real)
    requires Sane(s) && s.phase.Left? && s.clock <= until
    ensures s.cooldown.Some? && Tiling(AllSpans(s, until)) && AllSpans(s, until)[0].start == 0.0
  {
    SpansTile(s.control);
    var stages := SpansOf(s.control.windows);
    var spans := AllSpans(s, until);
    forall i | 0 <= i < |spans| - 1 ensures spans[i].end == spans[i + 1].start {
      if i < |stages| - 1 { assert stages[i].end == stages[i + 1].start; }
    }
  }

  function Happens(ledger: Ledger, m: Measure): Choice {
    r => Moment(ledger, m, r).Some?
  }

  function HappensAt(ledger: Ledger, m: Measure, t: real): Choice {
    r => Moment(ledger, m, r) == Some(t)
  }

  /** Whatever a request is counted for happened between the beginning and now. */
  lemma MomentInTime(ledger: Ledger, m: Measure, r: RequestRecord, clock: real)
    requires Timely(r, clock)
    ensures Moment(ledger, m, r).Some? ==> 0.0 <= Moment(ledger, m, r).value <= clock
  {
  }

  lemma {:induction false} TallyAndLast(ledger: Ledger, m: Measure, records: seq<RequestRecord>, clock: real,
                                        until: real)
    requires clock <= until && forall r <- records :: Timely(r, clock)
    ensures Tally(ledger, m, records, 0.0, until) + CountIf(records, HappensAt(ledger, m, until))
      == CountIf(records, Happens(ledger, m))
  {
    if records == [] {
    } else {
      TallyAndLast(ledger, m, records[1..], clock, until);
      TallyCons(ledger, m, records, 0.0, until);
      assert Timely(records[0], clock);
      MomentInTime(ledger, m, records[0], clock);
    }
  }

  lemma {:induction false} NoneIffZero(records: seq<RequestRecord>, p: Choice)
    ensures CountIf(records, p) == 0 <==> forall r <- records :: !p(r)
  {
    if records == [] {
    } else {
      NoneIffZero(records[1..], p);
    }
  }

  /** What a finished run leaves tiles its whole time and can be reduced over every window. Every event
      of it is counted in exactly one window, but one at the very instant the last window is closed:
      nothing is lost if and only if nothing happened then. */
  lemma LeftReduces(plan: LoadPlan, run: string, steps: seq<Step>, states: seq<State>, n: nat, m: Measure, until: real)
    requires plan.Valid() && IsRun(plan, run, steps, states) && n < |states| && states[n].phase.Left?
      && states[n].clock <= until
    ensures states[n].cooldown.Some? && states[n].cooldown.value.end == states[n].clock
    ensures var ledger, spans := states[n].books.ledger, AllSpans(states[n], until);
      && Ordered(ledger.requests) && (forall span <- spans :: CanReduce(ledger, span))
      && Tiling(spans)
      && SumOfTallies(ledger, m, ledger.requests, spans) + CountIf(ledger.requests, HappensAt(ledger, m, until))
         == CountIf(ledger.requests, Happens(ledger, m))
      && (SumOfTallies(ledger, m, ledger.requests, spans) == CountIf(ledger.requests, Happens(ledger, m))
          <==> forall r <- ledger.requests :: Moment(ledger, m, r) != Some(until))
  {
    RunsSane(plan, run, steps, states, n);
    var s := states[n];
    var ledger, spans := s.books.ledger, AllSpans(s, until);
    AllSpansTile(s, until);
    ReducibleOver(s, spans);
    TilingConserves(ledger, m, ledger.requests, spans);
    RecordsInOrder(plan, run, steps, states, n);
    TallyAndLast(ledger, m, ledger.requests, s.clock, until);
    NoneIffZero(ledger.requests, HappensAt(ledger, m, until));
  }

  lemma ReducibleOver(s: State, spans: seq<Span>)
    requires Sane(s) && spans != []
    ensures Ordered(s.books.ledger.requests) && forall span <- spans :: CanReduce(s.books.ledger, span)
  {
    KeptReduces(s.books, s.clock, spans[0]);
    forall span <- spans ensures CanReduce(s.books.ledger, span) {
      KeptReduces(s.books, s.clock, span);
    }
  }

  /** So nothing at all is lost once the last window is kept open past the end of the run. */
  lemma NothingLost(plan: LoadPlan, run: string, steps: seq<Step>, states: seq<State>, n: nat, m: Measure, until: real)
    requires plan.Valid() && IsRun(plan, run, steps, states) && n < |states| && states[n].phase.Left?
      && states[n].clock < until
    ensures states[n].cooldown.Some?
    ensures var ledger := states[n].books.ledger;
      SumOfTallies(ledger, m, ledger.requests, AllSpans(states[n], until))
        == CountIf(ledger.requests, Happens(ledger, m))
  {
    LeftReduces(plan, run, steps, states, n, m, until);
    RecordsInOrder(plan, run, steps, states, n);
    forall r <- states[n].books.ledger.requests ensures Moment(states[n].books.ledger, m, r) != Some(until) {
      MomentInTime(states[n].books.ledger, m, r, states[n].clock);
    }
  }

  // ----- The measurement window -----

  lemma WindowsFromTile(c: Control, i: nat)
    requires Tiled(c) && c.end.Some? && i < |c.windows|
    ensures var spans := SpansOf(c.windows)[i..];
      spans != [] && Tiling(spans) && spans[0].start == c.windows[i].start && spans[|spans| - 1].end == c.end.value
  {
    SpansTile(c);
    var all := SpansOf(c.windows);
    var spans := all[i..];
    forall k | 0 <= k < |spans| - 1 ensures spans[k].end == spans[k + 1].start {
      assert all[i + k].end == all[i + k + 1].start;
    }
  }

  /** The measurement window counts what the stage windows from the first hold on count together; without
      a hold it is empty. */
  lemma MeasurementIsItsStages(plan: LoadPlan, run: string, steps: seq<Step>, states: seq<State>, n: nat, m: Measure,
                               i: nat)
    requires plan.Valid() && IsRun(plan, run, steps, states) && n < |states| && !states[n].phase.Looping?
    requires i <= |states[n].control.windows| && forall k | 0 <= k < i :: !states[n].control.windows[k].kind.Hold?
    requires i < |states[n].control.windows| ==> states[n].control.windows[i].kind.Hold?
    ensures states[n].measuredFrom.Some? && states[n].measured.Some?
    ensures var ledger := states[n].books.ledger;
      SumOfTallies(ledger, m, ledger.requests, SpansOf(states[n].control.windows)[i..])
      == Tally(ledger, m, ledger.requests, states[n].measuredFrom.value, states[n].measured.value)
  {
    RunsSane(plan, run, steps, states, n);
    MeasuredTally(states[n].control, states[n].books.ledger, m, i);
  }

  lemma MeasuredTally(c: Control, ledger: Ledger, m: Measure, i: nat)
    requires Tiled(c) && c.end.Some?
    requires i <= |c.windows| && (forall k | 0 <= k < i :: !c.windows[k].kind.Hold?)
      && (i < |c.windows| ==> c.windows[i].kind.Hold?)
    ensures MeasuredFrom(c).Some?
    ensures SumOfTallies(ledger, m, ledger.requests, SpansOf(c.windows)[i..])
         == Tally(ledger, m, ledger.requests, MeasuredFrom(c).value, c.end.value)
  {
    FirstHoldIs(c.windows, i);
    if i < |c.windows| {
      WindowsFromTile(c, i);
      TilingConserves(ledger, m, ledger.requests, SpansOf(c.windows)[i..]);
    } else {
      NothingAt(ledger, m, ledger.requests, c.end.value);
    }
  }

  lemma {:induction false} FirstHoldIs(windows: seq<Window>, i: nat)
    requires i <= |windows| && forall k | 0 <= k < i :: !windows[k].kind.Hold?
    requires i < |windows| ==> windows[i].kind.Hold?
    ensures FirstHold(windows) == if i < |windows| then Some(windows[i].start) else None
    decreases |windows|
  {
    if windows == [] {
    } else {
      var n := |windows| - 1;
      assert forall k | 0 <= k < n :: windows[..n][k] == windows[k];
      FirstHoldIs(windows[..n], if i <= n then i else n);
    }
  }

  lemma {:induction false} NothingAt(ledger: Ledger, m: Measure, records: seq<RequestRecord>, t: real)
    ensures Tally(ledger, m, records, t, t) == 0
  {
    if records == [] {
    } else {
      NothingAt(ledger, m, records[1..], t);
      TallyCons(ledger, m, records, t, t);
    }
  }
}
