/** When the last window of a load run may be closed without losing an event. */
module ClosingInstant {
  import opened Wrappers
  import opened Records
  import opened RequestBooks
  import opened Reduction
  import opened LoadPlans
  import opened LoadControllers
  import opened Pacing
  import opened Schedulers
  import opened SchedulerRuns

  // ----- A run that ends at the instant of an event -----

  /** One hold of a second, one request per second, no warmup. */
  function BriefPlan(): LoadPlan {
    LoadPlan(Finite(1.0), 1, 1.0, 0.0, [], true, None, 1)
  }

  function Verdict(): Judgement { Judged(Evaluation(true, None)) }

  function TurnAtZero(): Step { Step.Turn(0.0, 0.0, 0.0, "", map[], 0.0) }

  lemma BriefBegin()
    ensures BriefPlan().Valid() && BriefPlan().PlannedStages() == [Stage(1.0, Finite(1.0), 1, Hold)]
    ensures Begin(BriefPlan(), "").Shaped() && Enabled(Begin(BriefPlan(), ""), TurnAtZero())
  {
  }

  /** Still in the first stage, with one window open, at time zero. */
  ghost predicate AtStart(s: State) {
    && s.Shaped() && s.phase.Looping? && s.clock == 0.0 && s.measured.None?
    && s.control.end.None? && s.control.index == 0 && s.control.start == 0.0
    && s.control.stages == [Stage(1.0, Finite(1.0), 1, Hold)]
    && |s.control.windows| == 1 && s.control.windows[0].start == 0.0
  }

  function OneRequest(): Books { Admitted(Blank(""), 0.0, 0.0, "", map[]) }

  /** The first turn finds the controller in its only stage */
  lemma BriefArrive(a: State)
    requires a == Begin(BriefPlan(), "") && a.Shaped()
    ensures var t := Arrive(a, 0.0); AtStart(t) && t.plan == a.plan && t.books == a.books && t.pace == a.pace
  {
    assert a.control.Stage() == Stage(1.0, Finite(1.0), 1, Hold);
    AdvancedTurns(a.control, 0.0, a.books.inflight, Full(a, 0.0) && IsDue(a.pace.due, 0.0));
  }

  /** and sends a request at once. */
  lemma BriefServed(t: State)
    requires AtStart(t) && t.plan == BriefPlan() && t.books == Blank("") && t.pace == Begin(BriefPlan(), "").pace
    ensures AtStart(Served(t, TurnAtZero())) && Served(t, TurnAtZero()).books == OneRequest()
  {
    assert t.control.Stage() == Stage(1.0, Finite(1.0), 1, Hold);
    assert TargetOf(t.control, 0.0) == (Finite(1.0), 1);
  }

  lemma BriefTurn() returns (a: State, b: State)
    ensures BriefPlan().Valid() && a == Begin(BriefPlan(), "") && a.Shaped() && Enabled(a, TurnAtZero())
    ensures b == Next(a, TurnAtZero()) && AtStart(b) && b.books == OneRequest()
  {
    BriefBegin();
    a := Begin(BriefPlan(), "");
    BriefArrive(a);
    BriefServed(Arrive(a, 0.0));
    b := Next(a, TurnAtZero());
  }

  /** It is dispatched, */
  lemma BriefStart(b: State) returns (c: State)
    requires AtStart(b) && b.books == OneRequest()
    ensures Enabled(b, FireStarts(0, 0.0)) && c == Next(b, FireStarts(0, 0.0))
    ensures AtStart(c) && c.books == Started(OneRequest(), 0, 0.0)
  {
    assert b.control.Stage() == Stage(1.0, Finite(1.0), 1, Hold);
    c := Next(b, FireStarts(0, 0.0));
  }

  function TurnAtOne(): Step { Step.Turn(1.0, 1.0, 1.0, "", map[], 0.0) }

  /** the plan comes to its end */
  lemma BriefArriveAtOne(c: State)
    requires AtStart(c) && c.books == Started(OneRequest(), 0, 0.0)
    ensures var t := Arrive(c, 1.0);
      t.Shaped() && t.control.end == Some(1.0) && SpansOf(t.control.windows) == [Span(0.0, 1.0)]
  {
    assert c.control.Stage() == Stage(1.0, Finite(1.0), 1, Hold);
    AdvancedTurns(c.control, 1.0, c.books.inflight, Full(c, 1.0) && IsDue(c.pace.due, 1.0));
  }

  lemma BriefLoop(c: State) returns (d: State)
    requires AtStart(c) && c.books == Started(OneRequest(), 0, 0.0)
    ensures Enabled(c, TurnAtOne()) && d == Next(c, TurnAtOne()) && d.Shaped() && AtDeadline(d)
    ensures d.phase.Draining? && d.books == c.books && SpansOf(d.control.windows) == [Span(0.0, 1.0)]
  {
    BriefArriveAtOne(c);
    d := Next(c, TurnAtOne());
  }

  /** The load ended as planned, at time one. */
  ghost predicate AtDeadline(s: State) {
    s.Shaped() && s.clock == 1.0 && s.measured == Some(1.0) && s.stop.reason.Deadline?
  }

  function FinishAtOne(): Step { FireEnds(0, 1.0, Outcome(1000.0, map[]), map[], Verdict()) }

  function OneFinished(): Books {
    Settled(Ended(Started(OneRequest(), 0, 0.0), 0, 1.0, Outcome(1000.0, map[]), map[], Verdict()), 0)
  }

  /** just as the request finishes, */
  lemma BriefDrain(d: State) returns (e: State, f: State)
    requires AtDeadline(d) && d.phase.Draining? && d.books == Started(OneRequest(), 0, 0.0)
    ensures Enabled(d, FinishAtOne()) && e == Next(d, FinishAtOne()) && e.Shaped()
    ensures Enabled(e, FireSettles(0)) && f == Next(e, FireSettles(0)) && AtDeadline(f)
    ensures f.phase.Draining? && f.control == d.control && f.books == OneFinished()
  {
    e := Next(d, FinishAtOne());
    f := Next(e, FireSettles(0));
  }

  /** so nothing is left to cancel. */
  lemma BriefEnd(f: State) returns (g: State, h: State)
    requires AtDeadline(f) && f.phase.Draining? && f.books == OneFinished()
    ensures Enabled(f, CleansUp(1.0)) && g == Next(f, CleansUp(1.0)) && g.Shaped() && g.remaining == {}
    ensures Enabled(g, Leaves(1.0)) && h == Next(g, Leaves(1.0)) && AtDeadline(h)
    ensures h.phase.Left? && h.control == f.control && h.books == f.books && h.stop.interrupted == 0
    ensures h.cooldown == Some(Cooldown(1.0, 1.0, true, Emptied))
  {
    assert OneFinished().ledger.requests[1..] == [];
    g := Next(f, CleansUp(1.0));
    h := Next(g, Leaves(1.0));
  }

  lemma OneCompletes()
    ensures |OneFinished().ledger.requests| == 1
    ensures Moment(OneFinished().ledger, CompletedM, OneFinished().ledger.requests[0]) == Some(1.0)
  {
  }

  /** A run that ends by its deadline and drains empty, its one request finishing at that very instant. */
  lemma BriefRun() returns (steps: seq<Step>, states: seq<State>)
    ensures BriefPlan().Valid() && IsRun(BriefPlan(), "", steps, states) && |states| == 8
    ensures var s := states[7];
      && AtDeadline(s) && s.phase.Left? && s.stop.interrupted == 0
      && s.cooldown == Some(Cooldown(1.0, 1.0, true, Emptied)) && SpansOf(s.control.windows) == [Span(0.0, 1.0)]
      && |s.books.ledger.requests| == 1
      && Moment(s.books.ledger, CompletedM, s.books.ledger.requests[0]) == Some(1.0)
  {
    var a, b := BriefTurn();
    var c := BriefStart(b);
    var d := BriefLoop(c);
    var e, f := BriefDrain(d);
    var g, h := BriefEnd(f);
    OneCompletes();
    steps, states := [], [a];
    steps, states := Extended(steps, states, a, TurnAtZero(), b);
    steps, states := Extended(steps, states, b, FireStarts(0, 0.0), c);
    steps, states := Extended(steps, states, c, TurnAtOne(), d);
    steps, states := Extended(steps, states, d, FinishAtOne(), e);
    steps, states := Extended(steps, states, e, FireSettles(0), f);
    steps, states := Extended(steps, states, f, CleansUp(1.0), g);
    steps, states := Extended(steps, states, g, Leaves(1.0), h);
  }

  lemma Extended(steps: seq<Step>, states: seq<State>, s: State, step: Step, t: State)
    returns (longer: seq<Step>, after: seq<State>)
    requires BriefPlan().Valid() && IsRun(BriefPlan(), "", steps, states) && states[|states| - 1] == s
    requires s.Shaped() && Enabled(s, step) && t == Next(s, step)
    ensures IsRun(BriefPlan(), "", longer, after) && |after| == |states| + 1 && after[|states|] == t
  {
    longer, after := steps + [step], states + [t];
    forall i | 0 <= i < |longer|
      ensures after[i].Shaped() && Enabled(after[i], longer[i]) && after[i + 1] == Next(after[i], longer[i])
    {
      if i < |steps| {
        assert after[i] == states[i] && after[i + 1] == states[i + 1] && longer[i] == steps[i];
      }
    }
  }

  /** One event at an instant is in no window that ends by then. */
  lemma OneEventMissed(ledger: Ledger, m: Measure, start: real, end: real)
    requires |ledger.requests| == 1 && Moment(ledger, m, ledger.requests[0]) == Some(1.0)
    requires end <= 1.0
    ensures Tally(ledger, m, ledger.requests, start, end) == 0
  {
    TallyCons(ledger, m, ledger.requests, start, end);
    assert ledger.requests[1..] == [];
  }

  // ----- The exact condition -----

  /** Every event of the run is in exactly one window when the last is closed `delay` after the run. */
  ghost predicate CountsAll(s: State, m: Measure, delay: real)
    requires s.cooldown.Some?
  {
    SumOfTallies(s.books.ledger, m, s.books.ledger.requests, AllSpans(s, s.clock + delay))
    == CountIf(s.books.ledger.requests, Happens(s.books.ledger, m))
  }

  /** In no run of any plan is anything lost when the last window is closed `delay` after the run. */
  ghost predicate NothingLostAfter(delay: real) {
    forall plan: LoadPlan, run: string, steps: seq<Step>, states: seq<State>, n: nat, m: Measure
      | plan.Valid() && IsRun(plan, run, steps, states) && n < |states| && states[n].phase.Left?
        && states[n].cooldown.Some?
      :: CountsAll(states[n], m, delay)
  }

  lemma BriefRunLoses(delay: real)
    requires delay <= 0.0
    ensures !NothingLostAfter(delay)
  {
    var steps, states := BriefRun();
    var s := states[7];
    var ledger, spans := s.books.ledger, AllSpans(s, s.clock + delay);
    assert spans == [Span(0.0, 1.0), Span(1.0, 1.0 + delay)];
    assert spans[1..] == [Span(1.0, 1.0 + delay)] && spans[1..][1..] == [];
    OneEventMissed(ledger, CompletedM, 0.0, 1.0);
    OneEventMissed(ledger, CompletedM, 1.0, 1.0 + delay);
    assert ledger.requests[1..] == [];
    assert SumOfTallies(ledger, CompletedM, ledger.requests, spans[1..]) == 0;
    assert SumOfTallies(ledger, CompletedM, ledger.requests, spans) == 0;
    assert Happens(ledger, CompletedM)(ledger.requests[0]);
    assert CountIf(ledger.requests, Happens(ledger, CompletedM)) == 1;
    assert !CountsAll(s, CompletedM, delay);
  }

  /** Nothing is ever lost exactly when the last window is closed strictly after the run has ended. */
  lemma NothingLostIffLater(delay: real)
    ensures NothingLostAfter(delay) <==> delay > 0.0
  {
    if delay > 0.0 {
      forall plan: LoadPlan, run: string, steps: seq<Step>, states: seq<State>, n: nat, m: Measure
        | plan.Valid() && IsRun(plan, run, steps, states) && n < |states| && states[n].phase.Left?
          && states[n].cooldown.Some?
        ensures CountsAll(states[n], m, delay)
      {
        NothingLost(plan, run, steps, states, n, m, states[n].clock + delay);
      }
    } else {
      BriefRunLoses(delay);
    }
  }
}
