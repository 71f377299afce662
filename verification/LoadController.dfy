/** Execution of a load plan: which stage is running, and the time windows actually measured. */
module LoadControllers {
  import opened Wrappers
  import opened LoadPlans
  import RealFacts

  datatype Reason = Unfinished | InflightLimit | TargetRate | DurationReached | Aborted

  /** The half-open interval during which the stage with this index ran. */
  datatype Window = Window(
    index: nat, kind: Kind, start: real, end: real, complete: bool, reason: Reason, limitedS: real)

  /** The controller's fields as a value; `previous` is where a ramp starts from. */
  datatype Control = Control(
    stages: seq<Stage>, saturated: bool, index: nat, start: real, previous: (Rate, int),
    windows: seq<Window>, holdStart: Option<real>, end: Option<real>, last: real, limited: bool)
  {
    /** What the constructor sets up and no method changes or breaks. */
    ghost predicate Shaped() {
      && index < |stages| && windows != []
      && (forall s <- stages :: s.Valid() && (s.rate.Inf? <==> saturated))
      && (previous.0.Inf? <==> saturated)
    }

    function Stage(): Stage
      requires index < |stages|
    {
      stages[index]
    }

    function Deadline(): real
      requires index < |stages|
    {
      start + stages[index].duration
    }

    function Current(): Window
      requires windows != []
    {
      windows[|windows| - 1]
    }

    function WithCurrent(w: Window): Control
      requires windows != []
    {
      this.(windows := windows[..|windows| - 1] + [w])
    }
  }

  /** The first hold stage at or after `from`, or the number of stages. */
  function NextHold(stages: seq<Stage>, from: nat): (i: nat)
    requires from <= |stages|
    ensures from <= i <= |stages|
    ensures forall k | from <= k < i :: !stages[k].kind.Hold?
    ensures i < |stages| ==> stages[i].kind.Hold?
    decreases |stages| - from
  {
    if from == |stages| || stages[from].kind.Hold? then from else NextHold(stages, from + 1)
  }

  /** Open a window for the stage now current. */
  function Opened(c: Control): Control
    requires c.index < |c.stages|
  {
    c.(windows := c.windows + [Window(c.index, c.Stage().kind, c.start, c.start, false, Unfinished, 0.0)],
       holdStart := if c.Stage().kind.Hold? && c.holdStart.None? then Some(c.start) else c.holdStart)
  }

  function Initial(plan: LoadPlan): Control
    requires plan.Valid()
  {
    Opened(Control(plan.PlannedStages(), plan.Saturated(), 0, 0.0, (plan.rate, plan.cap), [], None, None, 0.0, false))
  }

  /** The rate and cap to apply at `at`, given the stage now current. */
  function TargetOf(c: Control, at: real): (Rate, int)
    requires c.Shaped()
  {
    assert c.Stage().Valid();
    if !c.Stage().kind.Ramp? then (c.Stage().rate, c.Stage().cap)
    else Interpolate(c.Stage(), c.previous.0, c.previous.1, Min(1.0, Share(Max(0.0, at - c.start), c.Stage().duration)))
  }

  /** Extend the current window to `end`. */
  function Measured(c: Control, end: real): Control
    requires c.windows != []
  {
    var w := c.Current();
    var extra := if c.limited then Max(0.0, end - c.last) else 0.0;
    c.WithCurrent(w.(limitedS := w.limitedS + extra, end := end)).(last := end)
  }

  /** Is the current stage a warmup that the requests in flight end early? */
  predicate Capped(c: Control, at: real, inflight: int)
    requires c.index < |c.stages|
  {
    at < c.Deadline() && c.Stage().kind.Warmup? && inflight >= c.Stage().cap
  }

  function NextIndex(stages: seq<Stage>, index: nat, capped: bool): nat
    requires index < |stages|
  {
    if capped then NextHold(stages, index + 1) else index + 1
  }

  function EndReason(stages: seq<Stage>, stage: Stage, next: nat, capped: bool): Reason {
    if capped then InflightLimit
    else if stage.kind.Warmup? && next < |stages| && stages[next].kind.Hold? then TargetRate
    else DurationReached
  }

  /** Close the current window and move to the next stage, or end. */
  function Closed(c: Control, capped: bool, limited: bool): Control
    requires c.index < |c.stages| && c.windows != []
  {
    var stage, next, end := c.Stage(), NextIndex(c.stages, c.index, capped), c.Current().end;
    var closed := c.WithCurrent(c.Current().(complete := true, reason := EndReason(c.stages, stage, next, capped)))
                   .(previous := (stage.rate, stage.cap), start := end);
    if next == |c.stages| then closed.(end := Some(end))
    else Opened(closed.(index := next)).(limited := limited)
  }

  /** One turn of the loop that ends the current stage. */
  function Turned(c: Control, at: real, inflight: int, limited: bool): Control
    requires c.Shaped()
  {
    Closed(Measured(c, Min(at, c.Deadline())), Capped(c, at, inflight), limited)
  }

  lemma TurnedShaped(c: Control, at: real, inflight: int, limited: bool)
    requires c.Shaped()
    ensures var t := Turned(c, at, inflight, limited);
            t.Shaped() && t.stages == c.stages && (t.end.Some? || (t.index > c.index && t.end == c.end))
  {
    assert c.Stage().Valid() && c.Stage() in c.stages;
  }

  function Advanced(c: Control, at: real, inflight: int, limited: bool): Control
    requires c.Shaped()
    decreases if c.end.None? then |c.stages| - c.index else 0
  {
    if c.end.Some? then c
    else if at < c.Deadline() && !Capped(c, at, inflight) then Measured(c, at).(limited := limited)
    else
      TurnedShaped(c, at, inflight, limited);
      Advanced(Turned(c, at, inflight, limited), at, inflight, limited)
  }

  lemma AdvancedTurns(c: Control, at: real, inflight: int, limited: bool)
    requires c.Shaped() && c.end.None?
    ensures at < c.Deadline() && !Capped(c, at, inflight) ==>
              && Advanced(c, at, inflight, limited) == Measured(c, at).(limited := limited)
              && Measured(c, at).(limited := limited).Shaped()
    ensures !(at < c.Deadline() && !Capped(c, at, inflight)) ==>
              var t := Turned(c, at, inflight, limited);
              t.Shaped() && t.stages == c.stages && (t.end.Some? || t.index > c.index)
              && Advanced(c, at, inflight, limited) == Advanced(t, at, inflight, limited)
  {
    TurnedShaped(c, at, inflight, limited);
  }

  /** Stop at once, leaving the current window incomplete. */
  function AbortedAt(c: Control, at: real): Control
    requires c.Shaped()
  {
    if c.end.Some? then c
    else
      var end := Min(at, c.Deadline());
      c.WithCurrent(c.Current().(end := end, reason := Reason.Aborted)).(end := Some(end))
  }

  class LoadController {
    const stages: seq<Stage>
    const saturated: bool
    var index: nat
    var start: real
    var previous: (Rate, int)
    var windows: seq<Window>
    var holdStart: Option<real>
    var end: Option<real>
    var last: real
    var limited: bool

    ghost function View(): Control
      reads this
    {
      Control(stages, saturated, index, start, previous, windows, holdStart, end, last, limited)
    }

    constructor (plan: LoadPlan)
      requires plan.Valid()
      ensures View() == Initial(plan) && View().Shaped()
    {
      stages, saturated := plan.PlannedStages(), plan.Saturated();
      index, start := 0, 0.0;
      previous := (plan.rate, plan.cap);
      windows := [];
      holdStart, end := None, None;
      last, limited := 0.0, false;
      new;
      Open();
    }

    function Deadline(): real
      requires index < |stages|
      reads this
    {
      start + stages[index].duration
    }

    method Open()
      requires index < |stages|
      modifies this`windows, this`holdStart
      ensures View() == Opened(old(View()))
    {
      var stage := stages[index];
      windows := windows + [Window(index, stage.kind, start, start, false, Unfinished, 0.0)];
      if stage.kind.Hold? && holdStart.None? {
        holdStart := Some(start);
      }
    }

    method Target(at: real) returns (rate: Rate, cap: int)
      requires View().Shaped()
      ensures (rate, cap) == TargetOf(View(), at)
    {
      var stage := stages[index];
      assert stage.Valid();
      if !stage.kind.Ramp? {
        return stage.rate, stage.cap;
      }
      var fraction := Min(1.0, Share(Max(0.0, at - start), stage.duration));
      rate := if saturated then Inf else Finite(Blend(previous.0.value, stage.rate.value, fraction));
      cap := MaxInt(1, Blend(previous.1 as real, stage.cap as real, fraction).Floor);
    }

    /** Bring the windows up to `at`, moving through the stages that have ended by then. */
    method Advance(at: real, inflight: int, limitedNow: bool)
      requires View().Shaped()
      modifies this
      ensures View() == Advanced(old(View()), at, inflight, limitedNow) && View().Shaped()
    {
      ghost var goal := Advanced(View(), at, inflight, limitedNow);
      var moving := true;
      while end.None? && moving
        invariant View().Shaped()
        invariant (if moving then Advanced(View(), at, inflight, limitedNow) else View()) == goal
        decreases moving, if end.None? then |stages| - index else 0
      {
        moving := MoveOn(at, inflight, limitedNow);
      }
    }

    /** One pass of the loop: stay in the current stage, or end it and go on. */
    method MoveOn(at: real, inflight: int, limitedNow: bool) returns (moving: bool)
      requires View().Shaped() && end.None?
      modifies this
      ensures View().Shaped()
      ensures (if moving then Advanced(View(), at, inflight, limitedNow) else View())
        == Advanced(old(View()), at, inflight, limitedNow)
      ensures moving ==> end.Some? || index > old(index)
    {
      AdvancedTurns(View(), at, inflight, limitedNow);
      var stage := stages[index];
      var capped := at < Deadline() && stage.kind.Warmup? && inflight >= stage.cap;
      if at < Deadline() && !capped {
        Measure(at);
        limited := limitedNow;
        return false;
      }
      Turn(Min(at, Deadline()), capped, limitedNow);
      moving := true;
    }

    method Turn(until: real, capped: bool, limitedNow: bool)
      requires index < |stages| && windows != []
      modifies this
      ensures View() == Closed(Measured(old(View()), until), capped, limitedNow)
    {
      Measure(until);
      Close(capped, limitedNow);
    }

    /** Extend the current window to `until`, charging the time to `limitedS` while the load is limited. */
    method Measure(until: real)
      requires windows != []
      modifies this`windows, this`last
      ensures View() == Measured(old(View()), until)
    {
      var w := windows[|windows| - 1];
      if limited {
        w := w.(limitedS := w.limitedS + Max(0.0, until - last));
      }
      last := until;
      windows := windows[..|windows| - 1] + [w.(end := until)];
    }

    /** Close the current window and open the next one, or end; a capped warmup skips to the next hold. */
    method Close(capped: bool, limitedNow: bool)
      requires index < |stages| && windows != []
      modifies this
      ensures View() == Closed(old(View()), capped, limitedNow)
    {
      var stage, w := stages[index], windows[|windows| - 1];
      var next := index + 1;
      if capped {
        while next < |stages| && !stages[next].kind.Hold?
          invariant index + 1 <= next <= |stages|
          invariant NextHold(stages, next) == NextHold(stages, index + 1)
        {
          next := next + 1;
        }
      }
      var reason := EndReason(stages, stage, next, capped);
      windows := windows[..|windows| - 1] + [w.(complete := true, reason := reason)];
      previous := (stage.rate, stage.cap);
      start := w.end;
      if next == |stages| {
        end := Some(start);
        return;
      }
      index := next;
      Open();
      limited := limitedNow;
    }

    method Abort(at: real)
      requires View().Shaped()
      modifies this
      ensures View() == AbortedAt(old(View()), at) && View().Shaped()
    {
      if end.None? {
        var w := windows[|windows| - 1].(end := Min(at, Deadline()), reason := Reason.Aborted);
        windows := windows[..|windows| - 1] + [w];
        end := Some(w.end);
      }
    }
  }
}
