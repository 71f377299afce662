/** The load scheduler: one driver loop that admits, paces, trips a breaker and drains, and one fire
    per request. Each step is a stretch of code between two points where control can change hands. */
module Schedulers {
  import opened Wrappers
  import opened Records
  import opened RequestBooks
  import opened Reduction
  import opened LoadPlans
  import opened LoadControllers
  import opened Pacing

  datatype Phase = Looping | Draining | Cleaning | Left

  datatype StopReason = Deadline | ErrorRate | Aborted

  datatype Snapshot = Snapshot(at: real, completed: int, errors: int, errorRate: real, threshold: real)

  datatype Stop = Stop(reason: StopReason, snapshot: Option<Snapshot>, inflightAtStop: int, interrupted: int,
    forceCancelled: bool)

  /** How the drain after the load ended. */
  datatype DrainEnd = Emptied | TimedOut | WasCancelled

  datatype Cooldown = Cooldown(start: real, end: real, complete: bool, reason: DrainEnd)

  /** Everything the run has written down, its clock, and the history of admissions. */
  datatype State = State(
    plan: LoadPlan, clock: real, control: Control, books: Books, pace: Pace, log: seq<Admission>,
    phase: Phase, measured: Option<real>, measuredFrom: Option<real>, stop: Stop, remaining: set<nat>,
    cooldown: Option<Cooldown>)
  {
    ghost predicate Shaped() {
      plan.Valid() && control.Shaped()
    }
  }

  /** A step with the clock readings it takes and the choices made elsewhere. */
  datatype Step =
    | Turn(elapsed: real, offered: real, arrived: real, caseId: string, facets: map<string, string>, gap: real)
    | FireStarts(k: nat, at: real)
    | FireEnds(k: nat, at: real, outcome: Outcome, facets: map<string, string>, judgement: Judgement)
    | FireStops(k: nat, at: real, outcome: Outcome)
    | FireSettles(k: nat)
    | CleansUp(at: real)
    | Leaves(at: real)

  function Begin(plan: LoadPlan, run: string): State
    requires plan.Valid()
  {
    State(plan, 0.0, Initial(plan), Blank(run), UNPACED, [], Looping, None, None, NOT_STOPPED, {}, None)
  }

  const NOT_STOPPED := Stop(StopReason.Aborted, None, 0, 0, false)

  // ----- The driver's turn -----

  function ErrorShare(errors: int, completed: int): real
    requires completed != 0
  {
    errors as real / completed as real
  }

  predicate Tripped(plan: LoadPlan, b: Books)
    requires plan.Valid()
  {
    && plan.abortOnErrorRate.Some? && b.completed >= plan.breakerMinN
    && ErrorShare(b.errors, b.completed) >= plan.abortOnErrorRate.value
  }

  function Full(s: State, at: real): bool
    requires s.control.Shaped()
  {
    s.books.inflight >= TargetOf(s.control, at).1
  }

  /** The controller as the turn finds it. */
  function Arrive(s: State, elapsed: real): State
    requires s.control.Shaped()
  {
    s.(control := Advanced(s.control, elapsed, s.books.inflight, Full(s, elapsed) && IsDue(s.pace.due, elapsed)),
      clock := elapsed)
  }

  /** Measuring starts with the first hold, or not at all. */
  function MeasuredFrom(c: Control): Option<real> {
    if c.holdStart.Some? then c.holdStart else c.end
  }

  function WoundDown(s: State, reason: StopReason, snapshot: Option<Snapshot>): State {
    s.(measured := s.control.end, measuredFrom := MeasuredFrom(s.control),
      stop := Stop(reason, snapshot, s.books.inflight, 0, false),
       phase := Draining)
  }

  /** Freeze the load facts if the loop did not get to it. */
  function Froze(s: State, at: real): State
    requires s.control.Shaped()
  {
    if s.measured.Some? then s
    else
      var c := AbortedAt(s.control, at);
      s.(control := c, measured := c.end, measuredFrom := MeasuredFrom(c),
        stop := Stop(StopReason.Aborted, None, s.books.inflight, 0, false))
  }

  /** What `finally` does first: freeze, then cancel what is active. */
  function CleanedUp(s: State, at: real): State
    requires s.control.Shaped()
  {
    Froze(s, at).(phase := Cleaning, remaining := s.books.active, clock := at)
  }

  function TrippedAt(s: State): State
    requires s.Shaped() && Tripped(s.plan, s.books)
  {
    var b := s.books;
    WoundDown(s.(control := AbortedAt(s.control, s.clock)), ErrorRate,
      Some(Snapshot(s.clock, b.completed, b.errors, ErrorShare(b.errors, b.completed), s.plan.abortOnErrorRate.value)))
  }

  /** The pace once the turn has taken account of the present rate and room. */
  function Repaced(s: State): Pace
    requires s.control.Shaped()
  {
    Refreshed(Retimed(s.pace, s.clock, TargetOf(s.control, s.clock).0), s.clock, Full(s, s.clock))
  }

  function NextDue(s: State, gap: real): Due
    requires s.Shaped()
  {
    if s.plan.constantArrivals then After(s.clock, TargetOf(s.control, s.clock).0) else At(s.clock + gap)
  }

  /** Reserve a slot and start a fire. */
  function Taken(s: State, step: Step): State
    requires s.Shaped() && step.Turn? && s.pace.due.At?
  {
    s.(books := RequestBooks.Admitted(s.books, s.pace.due.time, step.arrived, step.caseId, step.facets),
       log := s.log + [Admission(s.clock, TargetOf(s.control, s.clock).0, TargetOf(s.control, step.offered).1,
         s.books.inflight)],
       pace := Pacing.Sent(s.pace, s.clock, NextDue(s, step.gap)), clock := step.arrived)
  }

  /** Take the request, unless the stage has ended or filled up meanwhile. */
  function Offered(s: State, step: Step): State
    requires s.Shaped() && step.Turn? && s.pace.due.At?
  {
    if step.offered >= s.control.Deadline() || Full(s, step.offered) then s.(clock := step.offered) else Taken(s, step)
  }

  /** The part of a turn that sends a request if one is due. */
  function Served(s: State, step: Step): State
    requires s.Shaped() && step.Turn?
  {
    var t := s.(pace := Repaced(s));
    if MaySend(t.pace, t.clock, TargetOf(t.control, t.clock).0, Full(t, t.clock)) then Offered(t, step) else t
  }

  function Turned(s: State, step: Step): State
    requires s.Shaped() && step.Turn?
  {
    AdvancedShaped(s.control, step.elapsed, s.books.inflight, Full(s, step.elapsed) && IsDue(s.pace.due, step.elapsed));
    var t := Arrive(s, step.elapsed);
    if t.books.failures != [] then CleanedUp(t, step.offered)
    else if t.control.end.Some? then WoundDown(t, StopReason.Deadline, None)
    else if Tripped(t.plan, t.books) then TrippedAt(t)
    else Served(t, step)
  }

  lemma {:induction false} AdvancedShaped(c: Control, at: real, inflight: int, limited: bool)
    requires c.Shaped()
    ensures Advanced(c, at, inflight, limited).Shaped()
    decreases if c.end.None? then |c.stages| - c.index else 0
  {
    if c.end.Some? {
    } else {
      AdvancedTurns(c, at, inflight, limited);
      if !(at < c.Deadline() && !Capped(c, at, inflight)) {
        AdvancedShaped(LoadControllers.Turned(c, at, inflight, limited), at, inflight, limited);
      }
    }
  }

  // ----- Steps -----

  function DrainEndOf(interrupted: nat, reason: StopReason): DrainEnd {
    if interrupted == 0 then Emptied else if reason.Aborted? then WasCancelled else TimedOut
  }

  /** The cooldown window and the final census. */
  function LeftAt(s: State, at: real): State
    requires s.measured.Some?
  {
    var interrupted := CountIf(s.books.ledger.requests, IsInterrupted());
    s.(stop := s.stop.(interrupted := interrupted, forceCancelled := interrupted > 0),
       cooldown := Some(Cooldown(s.measured.value, at, interrupted == 0, DrainEndOf(interrupted, s.stop.reason))),
       phase := Left, clock := at)
  }

  /** A fire's first stretch always comes before the driver resumes, because the driver yields right
      after making it; so the driver never moves while a request is only reserved. */
  predicate NonePending(b: Books) {
    forall r <- b.ledger.requests :: !r.state.Arrived?
  }

  predicate InState(b: Books, k: nat, state: RequestState) {
    k < |b.ledger.requests| && b.ledger.requests[k].state == state
  }

  predicate Enabled(s: State, step: Step) {
    match step
    case Turn(elapsed, offered, arrived, _, _, gap) =>
      s.phase.Looping? && NonePending(s.books) && s.clock <= elapsed <= offered <= arrived && gap >= 0.0
    case FireStarts(k, at) => InState(s.books, k, RequestState.Arrived) && s.clock <= at
    case FireEnds(k, at, _, _, _) => InState(s.books, k, RequestState.Dispatched) && s.clock <= at
    case FireStops(k, at, _) => InState(s.books, k, RequestState.Dispatched) && s.clock <= at
    case FireSettles(k) => k in s.books.active && k < |s.books.ledger.requests| && !Open(s.books.ledger.requests[k])
    case CleansUp(at) => (s.phase.Looping? || s.phase.Draining?) && NonePending(s.books) && s.clock <= at
    case Leaves(at) =>
      && s.phase.Cleaning? && s.measured.Some? && s.clock <= at
      && forall k <- s.remaining :: k < |s.books.ledger.requests| ==> !Open(s.books.ledger.requests[k])
  }

  function Next(s: State, step: Step): (t: State)
    requires s.Shaped() && Enabled(s, step)
    ensures t.plan == s.plan
  {
    match step
    case Turn(_, _, _, _, _, _) => Turned(s, step)
    case FireStarts(k, at) =>
      s.(books := RequestBooks.Started(s.books, k, at), control := Advanced(s.control, at, s.books.inflight, false),
        clock := at)
    case FireEnds(k, at, outcome, facets, judgement) =>
      s.(books := RequestBooks.Ended(s.books, k, at, outcome, facets, judgement), clock := at)
    case FireStops(k, at, outcome) => s.(books := RequestBooks.Stopped(s.books, k, at, outcome), clock := at)
    case FireSettles(k) => s.(books := RequestBooks.Settled(s.books, k))
    case CleansUp(at) => CleanedUp(s, at)
    case Leaves(at) => LeftAt(s, at)
  }
}
