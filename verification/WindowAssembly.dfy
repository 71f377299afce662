/** Which windows a run is reduced over: the measurement, the stages or what was driven, the drain, and
    what was observed. */
module WindowAssembly {
  import opened Wrappers
  import opened Records
  import opened Reduction
  import opened LoadPlans
  import LoadControllers
  import opened Schedulers
  import SchedulerRuns

  datatype WindowKind = Measurement | Staged(kind: Kind) | Drain | Observation

  datatype RunWindow = RunWindow(
    kind: WindowKind, start: real, end: real, complete: bool, level: Option<real>, limitedS: real)

  /** What the scheduler leaves for the assembly. */
  datatype DriveFacts = DriveFacts(measuredFrom: real, windows: seq<RunWindow>, deadline: bool, interrupted: bool)

  /** All the assembly depends on; `observed` is there if some probe asks for the whole observation. */
  datatype Inputs = Inputs(
    plan: LoadPlan, drive: Option<DriveFacts>, measured: Option<real>, cooldownStart: Option<real>,
    cooldownEnd: Option<real>, finishes: seq<Option<real>>, observed: Option<(real, real)>)
  {
    function MeasuredEnd(): real
      requires plan.Valid()
    {
      if measured.Some? then measured.value else plan.Duration()
    }
  }

  const EPSILON: real := 0.000000000001

  predicate IsHold(w: RunWindow) { w.kind.Staged? && w.kind.kind.Hold? }

  function HoldLimited(windows: seq<RunWindow>): real {
    if windows == [] then 0.0
    else
      var last := windows[|windows| - 1];
      HoldLimited(windows[..|windows| - 1]) + if IsHold(last) then last.limitedS else 0.0
  }

  function MeasurementWindow(a: Inputs): RunWindow
    requires a.plan.Valid()
  {
    match a.drive
    case None => RunWindow(Measurement, 0.0, Max(0.0, a.MeasuredEnd()), a.MeasuredEnd() >= a.plan.Duration(), None, 0.0)
    case Some(d) =>
      RunWindow(Measurement, d.measuredFrom, Max(d.measuredFrom, a.MeasuredEnd()),
        d.deadline && exists w <- d.windows :: IsHold(w) && w.complete, None, HoldLimited(d.windows))
  }

  function Level(s: Stage): real {
    if s.rate.Inf? then s.cap as real else s.rate.value
  }

  /** The part of a stage before `limit`, if there is any. */
  function Clip(s: Stage, clock: real, limit: real): seq<RunWindow> {
    var end := Min(clock + s.duration, limit);
    if end > clock then [RunWindow(Staged(s.kind), clock, end, limit >= clock + s.duration, Some(Level(s)), 0.0)]
    else []
  }

  function ClippedStages(stages: seq<Stage>, clock: real, limit: real): seq<RunWindow> {
    if stages == [] then []
    else Clip(stages[0], clock, limit) + ClippedStages(stages[1..], clock + stages[0].duration, limit)
  }

  /** The last window kept open until `end`. */
  function Extended(windows: seq<RunWindow>, end: real): seq<RunWindow>
    requires windows != []
  {
    windows[..|windows| - 1] + [windows[|windows| - 1].(end := end)]
  }

  predicate KeepsOpen(a: Inputs) { a.drive.Some? && a.cooldownEnd.Some? && a.drive.value.windows != [] }

  function StageWindows(a: Inputs): seq<RunWindow>
    requires a.plan.Valid()
  {
    match a.drive
    case None => ClippedStages(a.plan.PlannedStages(), 0.0, a.MeasuredEnd())
    case Some(d) => if KeepsOpen(a) then Extended(d.windows, a.cooldownEnd.value) else d.windows
  }

  function CooldownWindows(a: Inputs): seq<RunWindow> {
    if !KeepsOpen(a) && a.cooldownStart.Some? && a.cooldownEnd.Some?
    then [RunWindow(Drain, a.cooldownStart.value, a.cooldownEnd.value, true, None, 0.0)] else []
  }

  /** The latest finish, or the end of the measurement if that is later; a finish at time zero is passed over. */
  function DrainEnd(finishes: seq<Option<real>>, end: real): real {
    if finishes == [] then end
    else
      var last := finishes[|finishes| - 1];
      Max(DrainEnd(finishes[..|finishes| - 1], end), FinishOr(last, end))
  }

  function FinishOr(finish: Option<real>, end: real): real {
    if finish.Some? && finish.value != 0.0 then finish.value else end
  }

  function DrainWindows(a: Inputs): seq<RunWindow>
    requires a.plan.Valid()
  {
    var end := DrainEnd(a.finishes, a.MeasuredEnd());
    if a.drive.None? && end > a.MeasuredEnd() then [RunWindow(Drain, a.MeasuredEnd(), end + EPSILON, true, None, 0.0)]
    else []
  }

  function ObservationWindows(a: Inputs): seq<RunWindow> {
    match a.observed
    case None => []
    case Some((baseline, end)) =>
      [RunWindow(Observation, Min(0.0, baseline), end,
         a.drive.None? || (a.drive.value.deadline && !a.drive.value.interrupted), None, 0.0)]
  }

  function AssembledWindows(a: Inputs): seq<RunWindow>
    requires a.plan.Valid()
  {
    [MeasurementWindow(a)] + StageWindows(a) + CooldownWindows(a) + DrainWindows(a) + ObservationWindows(a)
  }

  // ----- As the engine does it -----

  method Assemble(a: Inputs) returns (windows: seq<RunWindow>)
    requires a.plan.Valid()
    ensures windows == AssembledWindows(a)
  {
    windows := [MeasurementWindow(a)];
    if a.drive.None? {
      var stages := AssembleStages(a.plan, a.MeasuredEnd());
      windows := windows + stages;
    } else if a.cooldownEnd.Some? && a.drive.value.windows != [] {
      windows := windows + Extended(a.drive.value.windows, a.cooldownEnd.value);
    } else {
      windows := windows + a.drive.value.windows;
    }
    assert windows == [MeasurementWindow(a)] + StageWindows(a);
    windows := windows + CooldownWindows(a);
    var drainEnd := FindDrainEnd(a.finishes, a.MeasuredEnd());
    windows := windows + if a.drive.None? && drainEnd > a.MeasuredEnd()
      then [RunWindow(Drain, a.MeasuredEnd(), drainEnd + EPSILON, true, None, 0.0)] else [];
    windows := windows + ObservationWindows(a);
  }

  method AssembleStages(plan: LoadPlan, limit: real) returns (windows: seq<RunWindow>)
    requires plan.Valid()
    ensures windows == ClippedStages(plan.PlannedStages(), 0.0, limit)
  {
    var stages := ComputePlannedStages(plan);
    windows := [];
    var clock := 0.0;
    for i := 0 to |stages|
      invariant ClippedStages(stages, 0.0, limit) == windows + ClippedStages(stages[i..], clock, limit)
    {
      ClippedNext(stages, i, clock, limit, windows);
      windows := windows + Clip(stages[i], clock, limit);
      clock := clock + stages[i].duration;
    }
  }

  lemma ClippedNext(stages: seq<Stage>, i: nat, clock: real, limit: real, windows: seq<RunWindow>)
    requires i < |stages|
    ensures windows + ClippedStages(stages[i..], clock, limit)
         == windows + Clip(stages[i], clock, limit)
            + ClippedStages(stages[i + 1..], clock + stages[i].duration, limit)
  {
    assert stages[i..][0] == stages[i] && stages[i..][1..] == stages[i + 1..];
  }

  method FindDrainEnd(finishes: seq<Option<real>>, end: real) returns (latest: real)
    ensures latest == DrainEnd(finishes, end)
  {
    latest := end;
    for i := 0 to |finishes|
      invariant latest == DrainEnd(finishes[..i], end)
    {
      assert finishes[..i + 1][..i] == finishes[..i];
      latest := Max(latest, FinishOr(finishes[i], end));
    }
    assert finishes[..|finishes|] == finishes;
  }

  // ----- Without a drive the stages tile what was planned -----

  function SpansOf(windows: seq<RunWindow>): seq<Span> {
    seq(|windows|, i requires 0 <= i < |windows| => Span(windows[i].start, windows[i].end))
  }

  lemma {:induction false} NothingClip(stages: seq<Stage>, clock: real, limit: real)
    requires limit <= clock && forall s <- stages :: s.Valid()
    ensures ClippedStages(stages, clock, limit) == []
  {
    if stages == [] {
    } else {
      assert stages[0].Valid();
      NothingClip(stages[1..], clock + stages[0].duration, limit);
    }
  }

  lemma TilingCons(span: Span, spans: seq<Span>)
    requires span.start <= span.end && Tiling(spans) && (spans != [] ==> spans[0].start == span.end)
    ensures Tiling([span] + spans)
  {
    var all := [span] + spans;
    forall i | 0 <= i < |all| - 1 ensures all[i].end == all[i + 1].start {
      if i > 0 { assert spans[i - 1].end == spans[i].start; }
    }
  }

  /** The clipped stages tile the time from `clock` to the limit or the end of the stages. */
  lemma {:induction false} ClippedTile(stages: seq<Stage>, clock: real, limit: real)
    requires clock < limit && stages != [] && forall s <- stages :: s.Valid()
    ensures var spans := SpansOf(ClippedStages(stages, clock, limit));
      && spans != [] && Tiling(spans) && spans[0].start == clock
      && spans[|spans| - 1].end == Min(limit, clock + TotalDuration(stages))
    decreases |stages|
  {
    var s, rest := stages[0], ClippedStages(stages[1..], clock + stages[0].duration, limit);
    assert s.Valid();
    var first := Clip(s, clock, limit)[0];
    var windows := ClippedStages(stages, clock, limit);
    assert windows == [first] + rest;
    assert SpansOf(windows) == [Span(first.start, first.end)] + SpansOf(rest);
    assert TotalDuration(stages) == s.duration + TotalDuration(stages[1..]);
    if limit <= clock + s.duration {
      NothingClip(stages[1..], clock + s.duration, limit);
      RestNonnegative(stages[1..]);
    } else if stages[1..] != [] {
      ClippedTile(stages[1..], clock + s.duration, limit);
    }
    TilingCons(Span(first.start, first.end), SpansOf(rest));
  }

  lemma {:induction false} RestNonnegative(stages: seq<Stage>)
    requires forall s <- stages :: s.Valid()
    ensures TotalDuration(stages) >= 0.0
  {
    if stages == [] {
    } else {
      assert stages[0].Valid();
      RestNonnegative(stages[1..]);
    }
  }

  lemma {:induction false} DrainIsLatest(finishes: seq<Option<real>>, end: real)
    ensures DrainEnd(finishes, end) >= end
    ensures forall i | 0 <= i < |finishes| && finishes[i].Some? && finishes[i].value != 0.0 ::
              finishes[i].value <= DrainEnd(finishes, end)
  {
    if finishes == [] {
    } else {
      var rest := finishes[..|finishes| - 1];
      DrainIsLatest(rest, end);
      forall i | 0 <= i < |finishes| && finishes[i].Some? && finishes[i].value != 0.0
        ensures finishes[i].value <= DrainEnd(finishes, end)
      {
        if i < |rest| { assert rest[i] == finishes[i]; }
      }
    }
  }

  /** Without a drive, stages and drain tile time exactly unless something finished after a measurement that
      outlasted the plan; no finish after the measurement is left out either way. */
  lemma UndrivenTiles(a: Inputs)
    requires a.plan.Valid() && a.drive.None?
    ensures var spans, end := SpansOf(StageWindows(a) + DrainWindows(a)), a.MeasuredEnd();
      && (Tiling(spans) <==> end <= a.plan.Duration() || DrainWindows(a) == [])
      && (end > 0.0 ==> spans != [] && spans[0].start == 0.0 && spans[|spans| - 1].end >= Min(end, a.plan.Duration()))
      && forall i | 0 <= i < |a.finishes| :: Late(a, i) ==>
           spans != [] && a.finishes[i].value < spans[|spans| - 1].end
  {
    var stages, drain := SpansOf(StageWindows(a)), SpansOf(DrainWindows(a));
    assert SpansOf(StageWindows(a) + DrainWindows(a)) == stages + drain;
    DrainHolds(a);
    if a.MeasuredEnd() <= 0.0 {
      RestNonnegative(a.plan.PlannedStages());
      NothingClip(a.plan.PlannedStages(), 0.0, a.MeasuredEnd());
      assert stages + drain == drain;
    } else {
      ClippedTile(a.plan.PlannedStages(), 0.0, a.MeasuredEnd());
      DrainTiles(stages, drain, a.MeasuredEnd(), a.plan.Duration());
    }
  }

  /** The drain is one window from the end of the measurement to past every late finish, or none. */
  lemma DrainHolds(a: Inputs)
    requires a.plan.Valid() && a.drive.None?
    ensures var drain := SpansOf(DrainWindows(a));
      && |drain| <= 1 && (drain != [] <==> DrainWindows(a) != [])
      && (drain != [] ==> drain[0].start == a.MeasuredEnd() < drain[0].end)
      && forall i | 0 <= i < |a.finishes| :: Late(a, i) ==> drain != [] && a.finishes[i].value < drain[0].end
  {
    DrainIsLatest(a.finishes, a.MeasuredEnd());
  }

  lemma DrainTiles(stages: seq<Span>, drain: seq<Span>, end: real, duration: real)
    requires stages != [] && Tiling(stages) && stages[|stages| - 1].end == Min(end, duration)
    requires |drain| <= 1 && (drain != [] ==> drain[0].start == end < drain[0].end)
    ensures Tiling(stages + drain) <==> end <= duration || drain == []
  {
    var all := stages + drain;
    if drain == [] {
      assert all == stages;
    } else if end <= duration {
      TilingAppend(stages, drain);
    } else {
      assert all[|stages| - 1].end < all[|stages|].start;
    }
  }

  /** A finish after the measurement; one at time zero counts as none. */
  predicate Late(a: Inputs, i: nat)
    requires a.plan.Valid() && i < |a.finishes|
  {
    var finish := a.finishes[i];
    finish.Some? && finish.value != 0.0 && finish.value > a.MeasuredEnd()
  }

  lemma TilingAppend(spans: seq<Span>, more: seq<Span>)
    requires Tiling(spans) && spans != [] && |more| <= 1
    requires more != [] ==> more[0].start == spans[|spans| - 1].end && more[0].start <= more[0].end
    ensures Tiling(spans + more)
  {
    var all := spans + more;
    forall i | 0 <= i < |all| - 1 ensures all[i].end == all[i + 1].start {
      if i < |spans| - 1 { assert spans[i].end == spans[i + 1].start; }
    }
  }

  // ----- With a drive they are what was driven -----

  function StageWindow(stages: seq<Stage>, w: LoadControllers.Window): RunWindow {
    var level := if w.index < |stages| then Some(Level(stages[w.index])) else None;
    RunWindow(Staged(w.kind), w.start, w.end, w.complete, level, w.limitedS)
  }

  /** What a scheduler that has left hands over. */
  function FactsOf(s: State): DriveFacts
    requires s.measuredFrom.Some? && s.cooldown.Some?
  {
    var c, cooldown := s.control, s.cooldown.value;
    DriveFacts(s.measuredFrom.value,
      seq(|c.windows|, i requires 0 <= i < |c.windows| => StageWindow(c.stages, c.windows[i]))
      + [RunWindow(Drain, cooldown.start, cooldown.end, cooldown.complete, None, 0.0)],
      s.stop.reason.Deadline?, s.stop.interrupted > 0)
  }

  /** The inputs for a run that was driven, with its cooldown kept open until `until`. */
  function DrivenInputs(s: State, until: real): Inputs
    requires s.measuredFrom.Some? && s.cooldown.Some?
  {
    Inputs(s.plan, Some(FactsOf(s)), s.measured, None, Some(until), [], None)
  }

  /** After the measurement window come the stage windows and the cooldown, in one line. */
  lemma DrivenSpans(s: State, until: real)
    requires s.plan.Valid() && s.measuredFrom.Some? && s.cooldown.Some?
    ensures SpansOf(AssembledWindows(DrivenInputs(s, until)))
         == [SpansOf(AssembledWindows(DrivenInputs(s, until)))[0]] + SchedulerRuns.AllSpans(s, until)
  {
    var a := DrivenInputs(s, until);
    var windows := AssembledWindows(a);
    assert windows == [MeasurementWindow(a)] + StageWindows(a);
    assert SpansOf(windows)[1..] == SchedulerRuns.AllSpans(s, until);
  }

  /** From a run to its reduced windows nothing is lost: over the stage and cooldown windows that the engine
      assembles and reduces, each count adds up to the requests it happened to, once the cooldown is kept open
      past the end of the run. */
  lemma RunIsCounted(plan: LoadPlan, run: string, steps: seq<Step>, states: seq<State>, n: nat, until: real,
                     facts: LoadFacts, m: Measure)
    requires plan.Valid() && SchedulerRuns.IsRun(plan, run, steps, states)
    requires n < |states| && states[n].phase.Left? && states[n].clock < until
    ensures var s := states[n]; s.plan == plan && s.measuredFrom.Some? && s.measured.Some? && s.cooldown.Some?
    ensures forall windows | AreReduced(states[n], until, facts, windows) ::
              SumOfCounts(windows[1..], m)
              == CountIf(states[n].books.ledger.requests, SchedulerRuns.Happens(states[n].books.ledger, m))
  {
    SchedulerRuns.RunsSane(plan, run, steps, states, n);
    SchedulerRuns.NothingLost(plan, run, steps, states, n, m, until);
    forall windows | AreReduced(states[n], until, facts, windows)
      ensures SumOfCounts(windows[1..], m)
           == CountIf(states[n].books.ledger.requests, SchedulerRuns.Happens(states[n].books.ledger, m))
    {
      CountedOver(states[n], until, facts, windows, m);
    }
  }

  /** The windows assembled for the run that ended in `s`, each with its statistics. */
  ghost predicate AreReduced(s: State, until: real, facts: LoadFacts, windows: seq<WindowStats>)
    requires s.plan.Valid() && s.measuredFrom.Some? && s.cooldown.Some?
  {
    && AllAssembled(s.books.ledger, facts, windows)
    && Spans(windows) == SpansOf(AssembledWindows(DrivenInputs(s, until)))
  }

  lemma CountedOver(s: State, until: real, facts: LoadFacts, windows: seq<WindowStats>, m: Measure)
    requires s.plan.Valid() && s.measuredFrom.Some? && s.cooldown.Some? && AreReduced(s, until, facts, windows)
    ensures SumOfCounts(windows[1..], m)
         == SumOfTallies(s.books.ledger, m, s.books.ledger.requests, SchedulerRuns.AllSpans(s, until))
  {
    DrivenSpans(s, until);
    assert |windows| == |Spans(windows)| > 0;
    assert Spans(windows)[1..] == SchedulerRuns.AllSpans(s, until);
    assert Spans(windows[1..]) == Spans(windows)[1..];
    assert forall w <- windows[1..] :: w in windows;
    SumIsTallies(s.books.ledger, facts, windows[1..], m);
  }

  // ----- Assembling and reducing -----

  /** What the caveats depend on: the plan, and how long each window was limited. */
  function LoadFactsOf(plan: LoadPlan, windows: seq<RunWindow>): LoadFacts {
    LoadFacts(plan.Saturated(),
      seq(|windows|, i requires 0 <= i < |windows| =>
        LimitedSpan(windows[i].start, windows[i].end, windows[i].limitedS)))
  }

  /** Assemble the windows of a run and reduce its ledger over each. */
  method AggregateRun(a: Inputs, ledger: Ledger) returns (r: Result<seq<WindowStats>>)
    requires a.plan.Valid() && Ordered(ledger.requests)
    ensures r.Ok? <==> forall span <- SpansOf(AssembledWindows(a)) :: CanReduce(ledger, span)
    ensures r.Ok? ==> Spans(r.value) == SpansOf(AssembledWindows(a))
    ensures r.Ok? ==> AllAssembled(ledger, LoadFactsOf(a.plan, AssembledWindows(a)), r.value)
  {
    var windows := Assemble(a);
    r := Aggregate(ledger, LoadFactsOf(a.plan, windows), SpansOf(windows));
  }

  /** For a run that has left this never fails, and nothing is lost. */
  method ReduceLeft(ghost plan: LoadPlan, ghost run: string, ghost steps: seq<Step>, ghost states: seq<State>,
                    ghost n: nat, s: State, until: real) returns (windows: seq<WindowStats>)
    requires plan.Valid() && SchedulerRuns.IsRun(plan, run, steps, states)
    requires n < |states| && states[n] == s && s.phase.Left? && s.clock < until
    ensures s.plan == plan && s.measuredFrom.Some? && s.measured.Some? && s.cooldown.Some?
    ensures AreReduced(s, until, LoadFactsOf(plan, AssembledWindows(DrivenInputs(s, until))), windows)
    ensures windows != []
    ensures forall m: Measure :: SumOfCounts(windows[1..], m)
              == CountIf(s.books.ledger.requests, SchedulerRuns.Happens(s.books.ledger, m))
  {
    SchedulerRuns.RunsSane(plan, run, steps, states, n);
    var a := DrivenInputs(s, until);
    SchedulerRuns.ReducibleOver(s, SpansOf(AssembledWindows(a)));
    var r := AggregateRun(a, s.books.ledger);
    windows := r.value;
    assert |windows| == |Spans(windows)|;
    forall m: Measure ensures SumOfCounts(windows[1..], m)
                           == CountIf(s.books.ledger.requests, SchedulerRuns.Happens(s.books.ledger, m))
    {
      RunIsCounted(plan, run, steps, states, n, until, LoadFactsOf(plan, AssembledWindows(a)), m);
    }
  }
}
