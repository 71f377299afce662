/** What every run of the load controller keeps: its windows tile time, hold stages are never cut
    short, and without a capped warmup it follows the plan exactly. */
module ControllerWindows {
  import opened Wrappers
  import opened LoadPlans
  import opened LoadControllers
  import RealFacts

  /** The planned start of stage `n`. */
  function Prefix(stages: seq<Stage>, n: nat): real
    requires n <= |stages|
  {
    if n == 0 then 0.0 else Prefix(stages, n - 1) + stages[n - 1].duration
  }

  // ----- Tiling -----

  ghost predicate LimitedWithin(w: Window) {
    0.0 <= w.limitedS <= w.end - w.start
  }

  /** A finished window: it lasted exactly its stage unless a warmup met its cap, which only then
      skips to the next hold. */
  ghost predicate Finished(stages: seq<Stage>, w: Window, next: nat) {
    && w.index < |stages| && w.kind == stages[w.index].kind && w.complete && LimitedWithin(w)
    && match w.reason
       case InflightLimit =>
         w.kind.Warmup? && w.end - w.start < stages[w.index].duration && next == NextHold(stages, w.index + 1)
       case TargetRate =>
         && w.end - w.start == stages[w.index].duration && next == w.index + 1
         && w.kind.Warmup? && next < |stages| && stages[next].kind.Hold?
       case DurationReached =>
         && w.end - w.start == stages[w.index].duration && next == w.index + 1
         && !(w.kind.Warmup? && next < |stages| && stages[next].kind.Hold?)
       case _ => false
  }

  /** The window of the stage now running. */
  ghost predicate Running(c: Control)
    requires c.Shaped()
  {
    var w := c.Current();
    && w.index == c.index && w.kind == c.Stage().kind && !w.complete && w.reason == Unfinished
    && w.start == c.start && w.end == c.last && c.last < c.Deadline() && LimitedWithin(w)
  }

  /** The last window of a run that was stopped early. */
  ghost predicate CutShort(stages: seq<Stage>, w: Window) {
    && w.index < |stages| && w.kind == stages[w.index].kind && !w.complete && w.reason == Aborted
    && LimitedWithin(w) && w.end - w.start <= stages[w.index].duration
  }

  ghost predicate Adjoin(stages: seq<Stage>, w: Window, next: Window) {
    w.end == next.start && Finished(stages, w, next.index)
  }

  /** Windows start at zero, each begins where the one before ended, and every one but the last is finished. */
  ghost predicate Tiles(stages: seq<Stage>, windows: seq<Window>) {
    && windows != [] && windows[0].start == 0.0 && windows[0].index == 0
    && forall i | 0 <= i < |windows| - 1 :: Adjoin(stages, windows[i], windows[i + 1])
  }

  /** The start of the first hold window, if there is one. */
  function FirstHold(windows: seq<Window>): Option<real> {
    if windows == [] then None
    else
      var before := FirstHold(windows[..|windows| - 1]);
      if before.Some? then before
      else if windows[|windows| - 1].kind.Hold? then Some(windows[|windows| - 1].start) else None
  }

  ghost predicate Tiled(c: Control) {
    && c.Shaped() && Tiles(c.stages, c.windows)
    && c.holdStart == FirstHold(c.windows)
    && match c.end
       case None => Running(c) && c.start <= Prefix(c.stages, c.index)
       case Some(e) =>
         && c.Current().end == e <= Prefix(c.stages, |c.stages|)
         && (Finished(c.stages, c.Current(), |c.stages|) || CutShort(c.stages, c.Current()))
  }

  lemma FirstHoldReplace(windows: seq<Window>, w: Window)
    requires windows != [] && w.kind == windows[|windows| - 1].kind && w.start == windows[|windows| - 1].start
    ensures FirstHold(windows[..|windows| - 1] + [w]) == FirstHold(windows)
  {
    assert (windows[..|windows| - 1] + [w])[..|windows| - 1] == windows[..|windows| - 1];
  }

  lemma FirstHoldAppend(windows: seq<Window>, w: Window)
    ensures FirstHold(windows + [w])
         == if FirstHold(windows).Some? then FirstHold(windows) else if w.kind.Hold? then Some(w.start) else None
  {
    assert (windows + [w])[..|windows|] == windows;
  }

  lemma TilesReplace(stages: seq<Stage>, windows: seq<Window>, w: Window)
    requires Tiles(stages, windows)
    requires w.start == windows[|windows| - 1].start && w.index == windows[|windows| - 1].index
    ensures Tiles(stages, windows[..|windows| - 1] + [w])
  {
    var n := |windows|;
    var changed := windows[..n - 1] + [w];
    forall i | 0 <= i < n - 1 ensures Adjoin(stages, changed[i], changed[i + 1]) {
      assert Adjoin(stages, windows[i], windows[i + 1]);
    }
  }

  lemma TilesAppend(stages: seq<Stage>, windows: seq<Window>, w: Window)
    requires Tiles(stages, windows) && Adjoin(stages, windows[|windows| - 1], w)
    ensures Tiles(stages, windows + [w])
  {
    var longer := windows + [w];
    forall i | 0 <= i < |longer| - 1 ensures Adjoin(stages, longer[i], longer[i + 1]) {
      if i < |windows| - 1 { assert Adjoin(stages, windows[i], windows[i + 1]); }
    }
  }

  lemma {:induction false} PrefixMonotone(stages: seq<Stage>, n: nat, m: nat)
    requires n <= m <= |stages| && forall s <- stages :: s.Valid()
    ensures Prefix(stages, n) <= Prefix(stages, m) && (n < m ==> Prefix(stages, n) < Prefix(stages, m))
    decreases m
  {
    if n == m {
    } else {
      assert stages[m - 1].Valid();
      PrefixMonotone(stages, n, m - 1);
    }
  }

  lemma FirstHoldOne(w: Window)
    ensures FirstHold([w]) == if w.kind.Hold? then Some(w.start) else None
  {
    assert [w][..0] == [];
  }

  lemma TilesOne(stages: seq<Stage>, w: Window)
    requires w.start == 0.0 && w.index == 0
    ensures Tiles(stages, [w])
  {
  }

  lemma FirstTiled(c: Control)
    requires c.stages != [] && (forall s <- c.stages :: s.Valid() && (s.rate.Inf? <==> c.saturated))
      && (c.previous.0.Inf? <==> c.saturated)
    requires c.index == 0 && c.start == 0.0 == c.last && c.windows == [] && c.holdStart.None? && c.end.None?
    ensures Tiled(Opened(c))
  {
    assert c.Stage() in c.stages && c.Stage().Valid();
    var w := Window(0, c.Stage().kind, 0.0, 0.0, false, Unfinished, 0.0);
    FirstHoldOne(w);
    TilesOne(c.stages, w);
    assert Opened(c).windows == [w];
    assert Running(Opened(c));
  }

  lemma InitialTiled(plan: LoadPlan)
    requires plan.Valid()
    ensures Tiled(Initial(plan))
  {
    FirstTiled(Control(plan.PlannedStages(), plan.Saturated(), 0, 0.0, (plan.rate, plan.cap), [], None, None, 0.0,
      false));
  }

  lemma MeasuredTiled(c: Control, end: real)
    requires Tiled(c) && c.end.None? && c.last <= end < c.Deadline()
    ensures Tiled(Measured(c, end))
  {
    var w := Measured(c, end).Current();
    assert c.Stage().Valid();
    TilesReplace(c.stages, c.windows, w);
    FirstHoldReplace(c.windows, w);
  }

  /** The current window as it is when its stage ends at `end`. */
  function ClosingWindow(c: Control, end: real, capped: bool): Window
    requires c.Shaped()
  {
    var next := NextIndex(c.stages, c.index, capped);
    Measured(c, end).Current().(complete := true, reason := EndReason(c.stages, c.Stage(), next, capped))
  }

  lemma ClosingFinishes(c: Control, end: real, capped: bool)
    requires Tiled(c) && c.end.None? && c.last <= end
    requires if capped then c.Stage().kind.Warmup? && end < c.Deadline() else end == c.Deadline()
    ensures Finished(c.stages, ClosingWindow(c, end, capped), NextIndex(c.stages, c.index, capped))
    ensures end <= Prefix(c.stages, NextIndex(c.stages, c.index, capped))
  {
    assert c.Stage().Valid();
    PrefixMonotone(c.stages, c.index + 1, NextIndex(c.stages, c.index, capped));
  }

  lemma ClosingTiles(c: Control, end: real, capped: bool)
    requires Tiled(c) && c.end.None?
    ensures var closed := c.windows[..|c.windows| - 1] + [ClosingWindow(c, end, capped)];
            Tiles(c.stages, closed) && FirstHold(closed) == FirstHold(c.windows)
  {
    TilesReplace(c.stages, c.windows, ClosingWindow(c, end, capped));
    FirstHoldReplace(c.windows, ClosingWindow(c, end, capped));
  }

  /** Ending a stage keeps the tiling, whether it ran out or a warmup met its cap. */
  lemma ClosedTiled(c: Control, end: real, capped: bool, limited: bool)
    requires Tiled(c) && c.end.None? && c.last <= end
    requires if capped then c.Stage().kind.Warmup? && end < c.Deadline() else end == c.Deadline()
    requires Closed(Measured(c, end), capped, limited).Shaped()
    ensures Tiled(Closed(Measured(c, end), capped, limited))
    ensures Closed(Measured(c, end), capped, limited).last == end
  {
    var m := Measured(c, end);
    var next, w := NextIndex(c.stages, c.index, capped), ClosingWindow(c, end, capped);
    var closed := c.windows[..|c.windows| - 1] + [w];
    assert m.windows[..|m.windows| - 1] + [w] == closed;
    ClosingFinishes(c, end, capped);
    ClosingTiles(c, end, capped);
    if next < |c.stages| {
      assert c.stages[next].Valid();
      var entered := Window(next, c.stages[next].kind, end, end, false, Unfinished, 0.0);
      TilesAppend(c.stages, closed, entered);
      FirstHoldAppend(closed, entered);
    }
  }

  lemma TurnedTiled(c: Control, at: real, inflight: int, limited: bool)
    requires Tiled(c) && c.end.None? && c.last <= at
    requires at >= c.Deadline() || Capped(c, at, inflight)
    ensures Tiled(Turned(c, at, inflight, limited))
    ensures Turned(c, at, inflight, limited).last <= at
  {
    TurnedShaped(c, at, inflight, limited);
    ClosedTiled(c, Min(at, c.Deadline()), Capped(c, at, inflight), limited);
  }

  /** Time moving forward through `advance` keeps the windows tiling. */
  lemma {:induction false} AdvancedTiled(c: Control, at: real, inflight: int, limited: bool)
    requires Tiled(c) && (c.end.None? ==> c.last <= at)
    ensures Tiled(Advanced(c, at, inflight, limited))
    ensures var a := Advanced(c, at, inflight, limited); a.end.None? ==> a.last == at < a.Deadline()
    ensures Advanced(c, at, inflight, limited).stages == c.stages
    decreases if c.end.None? then |c.stages| - c.index else 0
  {
    if c.end.None? {
      AdvancedTurns(c, at, inflight, limited);
      if at < c.Deadline() && !Capped(c, at, inflight) {
        MeasuredTiled(c, at);
      } else {
        TurnedTiled(c, at, inflight, limited);
        AdvancedTiled(Turned(c, at, inflight, limited), at, inflight, limited);
      }
    }
  }

  lemma AbortedTiled(c: Control, at: real)
    requires Tiled(c) && (c.end.None? ==> c.last <= at)
    ensures Tiled(AbortedAt(c, at)) && AbortedAt(c, at).end.Some?
  {
    if c.end.None? {
      var w := AbortedAt(c, at).Current();
      TilesReplace(c.stages, c.windows, w);
      FirstHoldReplace(c.windows, w);
      AbortedWindow(c, at);
    }
  }

  lemma AbortedWindow(c: Control, at: real)
    requires Tiled(c) && c.end.None? && c.last <= at
    ensures CutShort(c.stages, AbortedAt(c, at).Current())
    ensures AbortedAt(c, at).Current().end <= Prefix(c.stages, |c.stages|)
  {
    assert c.Stage().Valid();
    PrefixMonotone(c.stages, c.index + 1, |c.stages|);
  }

  // ----- Whole runs -----

  datatype Call = AdvanceTo(at: real, inflight: int, limited: bool) | AbortNow(at: real)

  function Applied(c: Control, call: Call): Control
    requires c.Shaped()
  {
    match call
    case AdvanceTo(at, inflight, limited) => Advanced(c, at, inflight, limited)
    case AbortNow(at) => AbortedAt(c, at)
  }

  /** The clock never runs backwards. */
  ghost predicate Nondecreasing(from: real, calls: seq<Call>) {
    && (forall i | 0 <= i < |calls| :: calls[i].at >= from)
    && (forall i, j | 0 <= i < j < |calls| :: calls[i].at <= calls[j].at)
  }

  /** The states of a run, from the constructor through each call. */
  ghost predicate IsRun(plan: LoadPlan, calls: seq<Call>, states: seq<Control>)
    requires plan.Valid()
  {
    && |states| == |calls| + 1 && states[0] == Initial(plan)
    && forall i | 0 <= i < |calls| :: states[i].Shaped() && states[i + 1] == Applied(states[i], calls[i])
  }

  /** Where a ramp in the current stage starts from: the stage before it in this run. */
  function CameFrom(c: Control, origin: (Rate, int)): (Rate, int)
    requires c.Shaped() && IndicesWithin(c.stages, c.windows)
  {
    if |c.windows| == 1 then origin
    else
      var stage := c.stages[c.windows[|c.windows| - 2].index];
      (stage.rate, stage.cap)
  }

  ghost predicate Remembers(c: Control, origin: (Rate, int)) {
    && c.Shaped() && IndicesWithin(c.stages, c.windows)
    && c.Current().index == c.index
    && (c.end.None? ==> c.previous == CameFrom(c, origin))
    && (c.end.Some? && c.Current().complete ==> c.previous == (c.Stage().rate, c.Stage().cap))
  }

  lemma {:induction false} AdvancedRemembers(c: Control, at: real, inflight: int, limited: bool, origin: (Rate, int))
    requires Remembers(c, origin)
    ensures Remembers(Advanced(c, at, inflight, limited), origin)
    decreases if c.end.None? then |c.stages| - c.index else 0
  {
    if c.end.Some? {
    } else {
      AdvancedTurns(c, at, inflight, limited);
      if !(at < c.Deadline() && !Capped(c, at, inflight)) {
        TurnedRemembers(c, at, inflight, limited, origin);
        AdvancedRemembers(Turned(c, at, inflight, limited), at, inflight, limited, origin);
      }
    }
  }

  /** Ending a stage changes the current window and adds at most one. */
  lemma TurnedWindows(c: Control, at: real, inflight: int, limited: bool)
    requires c.Shaped()
    ensures var capped := Capped(c, at, inflight);
            var closed := c.windows[..|c.windows| - 1] + [ClosingWindow(c, Min(at, c.Deadline()), capped)];
            var next, t := NextIndex(c.stages, c.index, capped), Turned(c, at, inflight, limited);
            if next == |c.stages| then t.windows == closed
            else t.windows == closed + [Window(next, c.stages[next].kind, closed[|closed| - 1].end,
                                               closed[|closed| - 1].end, false, Unfinished, 0.0)]
  {
    var m := Measured(c, Min(at, c.Deadline()));
    assert m.windows[..|m.windows| - 1] == c.windows[..|c.windows| - 1];
  }

  ghost predicate IndicesWithin(stages: seq<Stage>, windows: seq<Window>) {
    forall w <- windows :: w.index < |stages|
  }

  lemma TurnedRemembers(c: Control, at: real, inflight: int, limited: bool, origin: (Rate, int))
    requires Remembers(c, origin) && c.end.None?
    ensures Remembers(Turned(c, at, inflight, limited), origin)
  {
    TurnedShaped(c, at, inflight, limited);
    TurnedWindows(c, at, inflight, limited);
    assert c.Current() in c.windows && c.Stage() in c.stages;
    assert forall w <- c.windows[..|c.windows| - 1] :: w in c.windows;
  }

  /** What holds in every reachable state of a run of `plan`. */
  ghost predicate Sound(plan: LoadPlan, c: Control)
    requires plan.Valid()
  {
    && Tiled(c) && Remembers(c, (plan.rate, plan.cap))
    && c.stages == plan.PlannedStages() && c.saturated == plan.Saturated()
  }

  lemma AppliedSound(plan: LoadPlan, c: Control, call: Call)
    requires plan.Valid() && Sound(plan, c) && (c.end.None? ==> c.last <= call.at)
    ensures Sound(plan, Applied(c, call))
    ensures var a := Applied(c, call); a.end.None? ==> a.last == call.at
  {
    match call
    case AdvanceTo(at, inflight, limited) =>
      AdvancedTiled(c, at, inflight, limited);
      AdvancedRemembers(c, at, inflight, limited, (plan.rate, plan.cap));
      AdvancedKeeps(c, at, inflight, limited);
    case AbortNow(at) =>
      AbortedTiled(c, at);
      AbortedRemembers(c, at, (plan.rate, plan.cap));
  }

  /** Every reachable state tiles time, never exceeds the planned duration, and remembers the stage
      a ramp comes from. */
  lemma {:induction false} RunsTile(plan: LoadPlan, calls: seq<Call>, states: seq<Control>, n: nat)
    requires plan.Valid() && Nondecreasing(0.0, calls) && IsRun(plan, calls, states) && n < |states|
    ensures Sound(plan, states[n])
    ensures states[n].end.None? ==> states[n].last == if n == 0 then 0.0 else calls[n - 1].at
    ensures states[n].end.Some? ==> states[n].end.value <= plan.Duration()
  {
    PrefixIsDuration(plan.PlannedStages());
    if n == 0 {
      InitialTiled(plan);
    } else {
      RunsTile(plan, calls, states, n - 1);
      AppliedSound(plan, states[n - 1], calls[n - 1]);
    }
  }

  /** No call sees a warmup stage at its cap. */
  ghost predicate BelowCaps(stages: seq<Stage>, inflight: int) {
    forall s <- stages :: s.kind.Warmup? ==> inflight < s.cap
  }

  lemma BelowLaterCaps(stages: seq<Stage>, from: nat, later: nat, inflight: int)
    requires from <= later <= |stages| && BelowCaps(stages[from..], inflight)
    ensures BelowCaps(stages[later..], inflight)
  {
    forall s <- stages[later..] ensures s in stages[from..] {
      var k :| 0 <= k < |stages[later..]| && stages[later..][k] == s;
      assert stages[from..][later - from + k] == s;
    }
  }

  lemma {:induction false} BelowCapsNoneCapped(c: Control, at: real, inflight: int, limited: bool)
    requires c.Shaped() && BelowCaps(c.stages[c.index..], inflight) && NoneCapped(c.windows)
    ensures NoneCapped(Advanced(c, at, inflight, limited).windows)
    decreases if c.end.None? then |c.stages| - c.index else 0
  {
    if c.end.None? {
      AdvancedTurns(c, at, inflight, limited);
      assert c.stages[c.index..][0] == c.Stage();
      if !(at < c.Deadline()) {
        var t := Turned(c, at, inflight, limited);
        TurnedNoneCapped(c, at, inflight, limited);
        if t.end.None? {
          BelowLaterCaps(c.stages, c.index, t.index, inflight);
          BelowCapsNoneCapped(t, at, inflight, limited);
        }
      } else {
        NoneCappedButLast(c.windows);
        assert c.Current() in c.windows;
      }
    }
  }

  lemma TurnedNoneCapped(c: Control, at: real, inflight: int, limited: bool)
    requires c.Shaped() && NoneCapped(c.windows) && !Capped(c, at, inflight)
    ensures NoneCapped(Turned(c, at, inflight, limited).windows)
  {
    NoneCappedButLast(c.windows);
    TurnedWindows(c, at, inflight, limited);
  }

  lemma NoneCappedButLast(windows: seq<Window>)
    requires windows != [] && NoneCapped(windows)
    ensures NoneCapped(windows[..|windows| - 1])
  {
    assert forall w <- windows[..|windows| - 1] :: w in windows;
  }

  lemma AbortedRemembers(c: Control, at: real, origin: (Rate, int))
    requires Remembers(c, origin) && Tiled(c)
    ensures Remembers(AbortedAt(c, at), origin)
  {
    var t := AbortedAt(c, at);
    forall w <- t.windows ensures w.index < |t.stages| {
      var k :| 0 <= k < |t.windows| && t.windows[k] == w;
      if k < |c.windows| - 1 { assert t.windows[k] == c.windows[k]; }
    }
  }

  lemma {:induction false} AdvancedKeeps(c: Control, at: real, inflight: int, limited: bool)
    requires c.Shaped()
    ensures Advanced(c, at, inflight, limited).saturated == c.saturated
    decreases if c.end.None? then |c.stages| - c.index else 0
  {
    if c.end.Some? {
    } else {
      AdvancedTurns(c, at, inflight, limited);
      if !(at < c.Deadline() && !Capped(c, at, inflight)) {
        AdvancedKeeps(Turned(c, at, inflight, limited), at, inflight, limited);
      }
    }
  }

  lemma {:induction false} PrefixShift(stages: seq<Stage>, n: nat)
    requires 1 <= n <= |stages|
    ensures Prefix(stages, n) == stages[0].duration + Prefix(stages[1..], n - 1)
  {
    if n <= 1 {
    } else {
      PrefixShift(stages, n - 1);
    }
  }

  lemma {:induction false} PrefixIsDuration(stages: seq<Stage>)
    ensures Prefix(stages, |stages|) == TotalDuration(stages)
  {
    if stages == [] {
    } else {
      PrefixIsDuration(stages[1..]);
      PrefixShift(stages, |stages|);
    }
  }

  /** Stages run in order, none twice. */
  lemma {:induction false} IndicesIncrease(stages: seq<Stage>, windows: seq<Window>, i: nat, j: nat)
    requires Tiles(stages, windows) && i < j < |windows|
    ensures windows[i].index < windows[j].index
    decreases j
  {
    assert Adjoin(stages, windows[j - 1], windows[j]);
    if i == j - 1 {
    } else {
      IndicesIncrease(stages, windows, i, j - 1);
    }
  }

  // ----- Without a capped warmup the run is the plan -----

  ghost predicate NoneCapped(windows: seq<Window>) {
    forall w <- windows :: w.reason != InflightLimit
  }

  /** Each window is its planned stage: the n-th window is stage n, starting at its planned time. */
  lemma {:induction false} PlannedStarts(stages: seq<Stage>, windows: seq<Window>, n: nat)
    requires Tiles(stages, windows) && NoneCapped(windows) && n < |windows|
    ensures windows[n].index == n <= |stages| && windows[n].start == Prefix(stages, n)
    ensures n < |windows| - 1 ==> n < |stages| && windows[n].end == Prefix(stages, n + 1)
  {
    if n == 0 {
    } else {
      PlannedStarts(stages, windows, n - 1);
      assert Adjoin(stages, windows[n - 1], windows[n]);
    }
    if n < |windows| - 1 {
      assert Adjoin(stages, windows[n], windows[n + 1]);
    }
  }

  /** The state was brought forward to `at`: either still running then, or ended at the planned end. */
  ghost predicate Reached(c: Control, at: real) {
    match c.end
    case None => c.last == at
    case Some(e) => c.windows != [] && c.Current().complete && e <= at
  }

  /** Skip the stages that have ended by `t`. */
  lemma {:induction false} TargetSkips(stages: seq<Stage>, rate: Rate, cap: int, t: real, k: nat)
    requires k <= |stages| && (forall s <- stages :: s.Valid()) && Prefix(stages, k) <= t
    ensures TargetFrom(stages, rate, cap, t)
      == TargetFrom(stages[k..], if k == 0 then rate else stages[k - 1].rate,
                    if k == 0 then cap else stages[k - 1].cap, t - Prefix(stages, k))
    decreases k
  {
    if k == 0 {
      assert stages[0..] == stages;
    } else {
      assert stages[k - 1].Valid();
      TargetSkips(stages, rate, cap, t, k - 1);
      assert stages[k - 1..][0] == stages[k - 1] && stages[k - 1..][1..] == stages[k..];
    }
  }

  /** The controller's target is the plan's, during the plan and after it. */
  lemma TargetFollowsPlan(plan: LoadPlan, c: Control, at: real)
    requires plan.Valid() && c.stages == plan.PlannedStages() && c.saturated == plan.Saturated()
    requires Tiled(c) && Remembers(c, (plan.rate, plan.cap)) && NoneCapped(c.windows) && Reached(c, at)
    ensures TargetOf(c, at) == plan.Target(at)
  {
    var n := |c.windows| - 1;
    PlannedStarts(c.stages, c.windows, n);
    assert c.Stage().Valid() && c.Stage() in c.stages;
    if c.end.None? {
      if n > 0 { PlannedStarts(c.stages, c.windows, n - 1); }
      TargetSkips(c.stages, plan.rate, plan.cap, at, n);
      assert c.stages[n..][0] == c.stages[n];
      InsideStage(at - c.start, c.Stage().duration);
    } else {
      AfterEnd(plan, c, at);
    }
  }

  lemma InsideStage(t: real, duration: real)
    requires 0.0 <= t < duration
    ensures Min(1.0, Share(Max(0.0, t), duration)) == Share(Max(0.0, t), duration)
  {
    ShareBetween(t, duration);
  }

  lemma AfterEnd(plan: LoadPlan, c: Control, at: real)
    requires plan.Valid() && c.stages == plan.PlannedStages() && c.saturated == plan.Saturated()
    requires Tiled(c) && Remembers(c, (plan.rate, plan.cap)) && NoneCapped(c.windows) && Reached(c, at) && c.end.Some?
    ensures TargetOf(c, at) == plan.Target(at)
  {
    var n := |c.stages|;
    PlannedStarts(c.stages, c.windows, |c.windows| - 1);
    assert c.index == n - 1;
    assert c.Stage().Valid() && c.Stage() in c.stages;
    TargetSkips(c.stages, plan.rate, plan.cap, at, n);
    assert c.stages[n..] == [];
    BlendSame(c.Stage().cap as real, Min(1.0, Share(Max(0.0, at - c.start), c.Stage().duration)));
    if c.Stage().rate.Finite? {
      BlendSame(c.Stage().rate.value, Min(1.0, Share(Max(0.0, at - c.start), c.Stage().duration)));
    }
  }

  lemma BlendSame(a: real, f: real)
    ensures Blend(a, a, f) == a
  {
    assert (a - a) * f == 0.0;
  }

  ghost predicate SameBoundaries(a: seq<Window>, b: seq<Window>) {
    && |a| == |b|
    && forall i | 0 <= i < |a| :: a[i].index == b[i].index && a[i].start == b[i].start && a[i].end == b[i].end
  }

  /** Where a run without capped warmups stands at `at` does not depend on the calls that led there. */
  lemma BoundariesDetermined(plan: LoadPlan, a: Control, b: Control, at: real)
    requires plan.Valid() && a.stages == b.stages == plan.PlannedStages()
    requires Tiled(a) && Tiled(b) && NoneCapped(a.windows) && NoneCapped(b.windows)
    requires Reached(a, at) && Reached(b, at)
    ensures SameBoundaries(a.windows, b.windows) && a.end == b.end
  {
    NoFewer(a, b, at);
    NoFewer(b, a, at);
    forall i | 0 <= i < |a.windows|
      ensures a.windows[i].index == b.windows[i].index && a.windows[i].start == b.windows[i].start
        && a.windows[i].end == b.windows[i].end
    {
      PlannedStarts(a.stages, a.windows, i);
      PlannedStarts(b.stages, b.windows, i);
    }
    PlannedStarts(a.stages, a.windows, |a.windows| - 1);
    PlannedStarts(b.stages, b.windows, |b.windows| - 1);
  }

  lemma NoFewer(a: Control, b: Control, at: real)
    requires a.stages == b.stages && Tiled(a) && Tiled(b) && NoneCapped(a.windows) && NoneCapped(b.windows)
    requires Reached(a, at) && Reached(b, at)
    ensures |b.windows| <= |a.windows|
    ensures a.end.None? ==> b.end.None?
  {
    var i, k := |a.windows| - 1, |b.windows| - 1;
    PlannedStarts(a.stages, a.windows, i);
    PlannedStarts(b.stages, b.windows, k);
    if a.end.None? {
      if b.end.Some? {
        PrefixMonotone(a.stages, i + 1, |a.stages|);
      }
      if i < k {
        PrefixMonotone(a.stages, i + 1, k);
      }
    }
  }

  // ----- Whole runs that advance below the caps -----

  /** Advancing brings the state to the instant, if it was not past it. */
  lemma {:induction false} AdvancedReaches(c: Control, at: real, inflight: int, limited: bool)
    requires Tiled(c) && (if c.end.None? then c.last <= at else Reached(c, at))
    ensures Reached(Advanced(c, at, inflight, limited), at)
    decreases if c.end.None? then |c.stages| - c.index else 0
  {
    if c.end.Some? {
    } else {
      AdvancedTurns(c, at, inflight, limited);
      if !(at < c.Deadline() && !Capped(c, at, inflight)) {
        TurnedTiled(c, at, inflight, limited);
        TurnedReaches(c, at, inflight, limited);
        AdvancedReaches(Turned(c, at, inflight, limited), at, inflight, limited);
      }
    }
  }

  lemma TurnedReaches(c: Control, at: real, inflight: int, limited: bool)
    requires c.Shaped() && c.end.None?
    ensures Turned(c, at, inflight, limited).end.Some? ==> Reached(Turned(c, at, inflight, limited), at)
  {
    TurnedWindows(c, at, inflight, limited);
  }

  ghost predicate OnlyAdvances(calls: seq<Call>, n: nat)
    requires n <= |calls|
  {
    forall i | 0 <= i < n :: calls[i].AdvanceTo?
  }

  /** Any run of advances is brought forward to its last instant. */
  lemma {:induction false} RunReaches(plan: LoadPlan, calls: seq<Call>, states: seq<Control>, n: nat)
    requires plan.Valid() && Nondecreasing(0.0, calls) && IsRun(plan, calls, states) && n < |states|
      && OnlyAdvances(calls, n)
    ensures Sound(plan, states[n])
    ensures Reached(states[n], if n == 0 then 0.0 else calls[n - 1].at)
  {
    RunsTile(plan, calls, states, n);
    if n == 0 {
    } else {
      RunReaches(plan, calls, states, n - 1);
      RunsTile(plan, calls, states, n - 1);
      AdvancedReaches(states[n - 1], calls[n - 1].at, calls[n - 1].inflight, calls[n - 1].limited);
    }
  }

  // ----- When no warmup is seen at its cap -----

  /** Going forward to `at` meets a warmup stage at its cap. */
  ghost predicate SeenAtCap(c: Control, at: real, inflight: int, limited: bool)
    requires c.Shaped()
    decreases if c.end.None? then |c.stages| - c.index else 0
  {
    if c.end.Some? then false
    else if at < c.Deadline() then Capped(c, at, inflight)
    else
      TurnedShaped(c, at, inflight, limited);
      SeenAtCap(Turned(c, at, inflight, limited), at, inflight, limited)
  }

  /** A window is ended by the cap exactly when a warmup is seen at its cap. */
  lemma {:induction false} UncappedIffUnseen(c: Control, at: real, inflight: int, limited: bool)
    requires Tiled(c) && (c.end.None? ==> c.last <= at)
    ensures NoneCapped(Advanced(c, at, inflight, limited).windows)
       <==> NoneCapped(c.windows) && !SeenAtCap(c, at, inflight, limited)
    decreases if c.end.None? then |c.stages| - c.index else 0
  {
    if c.end.None? {
      AdvancedTurns(c, at, inflight, limited);
      if at < c.Deadline() && !Capped(c, at, inflight) {
        MeasuredUncapped(c, at);
      } else {
        TurnedTiled(c, at, inflight, limited);
        TurnedUncapped(c, at, inflight, limited);
        UncappedIffUnseen(Turned(c, at, inflight, limited), at, inflight, limited);
      }
    }
  }

  lemma ReplacedUncapped(windows: seq<Window>, w: Window)
    requires windows != [] && windows[|windows| - 1].reason != InflightLimit
    ensures NoneCapped(windows[..|windows| - 1] + [w]) <==> NoneCapped(windows) && w.reason != InflightLimit
  {
    var rest := windows[..|windows| - 1];
    assert windows == rest + [windows[|windows| - 1]];
    if NoneCapped(rest + [w]) {
      assert w in rest + [w] && forall v <- rest :: v in rest + [w];
    }
  }

  lemma MeasuredUncapped(c: Control, end: real)
    requires Tiled(c) && c.end.None?
    ensures NoneCapped(Measured(c, end).windows) <==> NoneCapped(c.windows)
  {
    ReplacedUncapped(c.windows, Measured(c, end).Current());
  }

  lemma TurnedUncapped(c: Control, at: real, inflight: int, limited: bool)
    requires Tiled(c) && c.end.None?
    ensures NoneCapped(Turned(c, at, inflight, limited).windows) <==> NoneCapped(c.windows) && !Capped(c, at, inflight)
  {
    var capped := Capped(c, at, inflight);
    var w := ClosingWindow(c, Min(at, c.Deadline()), capped);
    TurnedWindows(c, at, inflight, limited);
    ReplacedUncapped(c.windows, w);
    var closed := c.windows[..|c.windows| - 1] + [w];
    var t := Turned(c, at, inflight, limited);
    if |t.windows| > |closed| {
      assert t.windows == closed + [t.windows[|closed|]];
      assert NoneCapped(t.windows) <==> NoneCapped(closed);
    }
  }

  /** None of the first `n` calls sees a warmup stage at its cap. */
  ghost predicate NeverSeenAtCap(calls: seq<Call>, states: seq<Control>, n: nat)
    requires n <= |calls| && n < |states| && OnlyAdvances(calls, n)
  {
    forall i | 0 <= i < n ::
      states[i].Shaped() && !SeenAtCap(states[i], calls[i].at, calls[i].inflight, calls[i].limited)
  }

  /** So in a run no window was ended by the cap exactly when no call saw a warmup stage at its cap. */
  lemma {:induction false} RunUncappedIffUnseen(plan: LoadPlan, calls: seq<Call>, states: seq<Control>, n: nat)
    requires plan.Valid() && Nondecreasing(0.0, calls) && IsRun(plan, calls, states) && n < |states|
      && OnlyAdvances(calls, n)
    ensures NoneCapped(states[n].windows) <==> NeverSeenAtCap(calls, states, n)
  {
    if n == 0 {
      assert states[0].windows == [states[0].Current()];
    } else {
      RunUncappedIffUnseen(plan, calls, states, n - 1);
      UncappedAt(plan, calls, states, n - 1);
    }
  }

  lemma UncappedAt(plan: LoadPlan, calls: seq<Call>, states: seq<Control>, n: nat)
    requires plan.Valid() && Nondecreasing(0.0, calls) && IsRun(plan, calls, states) && n < |calls|
      && calls[n].AdvanceTo?
    ensures states[n].Shaped()
    ensures NoneCapped(states[n + 1].windows)
       <==> NoneCapped(states[n].windows) && !SeenAtCap(states[n], calls[n].at, calls[n].inflight, calls[n].limited)
  {
    RunsTile(plan, calls, states, n);
    UncappedIffUnseen(states[n], calls[n].at, calls[n].inflight, calls[n].limited);
  }

  /** What a caller can check before each call: the requests in flight are below the caps of the
      warmup stages still to come, the current one included. */
  ghost predicate BelowCapsAhead(plan: LoadPlan, calls: seq<Call>, states: seq<Control>, n: nat)
    requires plan.Valid() && n <= |calls| && n < |states| && OnlyAdvances(calls, n)
  {
    forall i | 0 <= i < n ::
      states[i].index <= |plan.PlannedStages()| && BelowCaps(plan.PlannedStages()[states[i].index..], calls[i].inflight)
  }

  lemma {:induction false} BelowCapsAheadUncapped(plan: LoadPlan, calls: seq<Call>, states: seq<Control>, n: nat)
    requires plan.Valid() && Nondecreasing(0.0, calls) && IsRun(plan, calls, states) && n < |states|
      && OnlyAdvances(calls, n)
    requires BelowCapsAhead(plan, calls, states, n)
    ensures NoneCapped(states[n].windows)
  {
    if n == 0 {
      assert states[0].windows == [states[0].Current()];
    } else {
      var call := calls[n - 1];
      BelowCapsAheadUncapped(plan, calls, states, n - 1);
      RunsTile(plan, calls, states, n - 1);
      BelowCapsNoneCapped(states[n - 1], call.at, call.inflight, call.limited);
    }
  }

  // ----- A run without a capped warmup is the plan -----

  /** After any run of advances without a capped warmup the controller's target is the plan's, during the
      plan and after its end. */
  lemma RunFollowsPlan(plan: LoadPlan, calls: seq<Call>, states: seq<Control>, n: nat)
    requires plan.Valid() && Nondecreasing(0.0, calls) && IsRun(plan, calls, states) && 0 < n < |states|
      && OnlyAdvances(calls, n)
    requires NoneCapped(states[n].windows)
    ensures states[n].Shaped() && TargetOf(states[n], calls[n - 1].at) == plan.Target(calls[n - 1].at)
  {
    RunReaches(plan, calls, states, n);
    TargetFollowsPlan(plan, states[n], calls[n - 1].at);
  }

  /** Any two such runs that end at one instant have the same boundaries: going there by steps is the
      same as going there at once. */
  lemma RunsAgree(plan: LoadPlan, calls1: seq<Call>, states1: seq<Control>, n1: nat, calls2: seq<Call>,
                  states2: seq<Control>, n2: nat)
    requires plan.Valid()
    requires Nondecreasing(0.0, calls1) && IsRun(plan, calls1, states1) && 0 < n1 < |states1|
      && OnlyAdvances(calls1, n1)
    requires Nondecreasing(0.0, calls2) && IsRun(plan, calls2, states2) && 0 < n2 < |states2|
      && OnlyAdvances(calls2, n2)
    requires calls1[n1 - 1].at == calls2[n2 - 1].at && NoneCapped(states1[n1].windows)
      && NoneCapped(states2[n2].windows)
    ensures SameBoundaries(states1[n1].windows, states2[n2].windows) && states1[n1].end == states2[n2].end
  {
    RunReaches(plan, calls1, states1, n1);
    RunReaches(plan, calls2, states2, n2);
    BoundariesDetermined(plan, states1[n1], states2[n2], calls1[n1 - 1].at);
  }

  /** The windows are the planned stages, one after the other, at the prefix sums of their durations. */
  ghost predicate AsPlanned(c: Control) {
    forall i | 0 <= i < |c.windows| :: PlannedAt(c, i)
  }

  ghost predicate PlannedAt(c: Control, i: nat)
    requires i < |c.windows|
  {
    var w := c.windows[i];
    w.index == i < |c.stages| && w.start == Prefix(c.stages, i) && (w.complete ==> w.end == Prefix(c.stages, i + 1))
  }

  lemma WindowIsPlanned(c: Control, i: nat)
    requires Tiled(c) && NoneCapped(c.windows) && i < |c.windows|
    ensures PlannedAt(c, i)
  {
    PlannedStarts(c.stages, c.windows, i);
    if i < |c.windows| - 1 {
      assert Adjoin(c.stages, c.windows[i], c.windows[i + 1]);
    }
  }

  /** A window that the cap ended is complete, yet shorter than its stage. */
  lemma CappedIsShort(c: Control, i: nat)
    requires Tiled(c) && i < |c.windows| && c.windows[i].reason == InflightLimit
    ensures var w := c.windows[i]; w.complete && w.index < |c.stages| && w.end - w.start < c.stages[w.index].duration
  {
    if i < |c.windows| - 1 {
      assert Adjoin(c.stages, c.windows[i], c.windows[i + 1]);
    }
  }

  /** Controller and plan have the same windows exactly when no warmup was ended by its cap. */
  lemma AsPlannedIffUncapped(c: Control)
    requires Tiled(c)
    ensures AsPlanned(c) <==> NoneCapped(c.windows)
  {
    if NoneCapped(c.windows) {
      forall i | 0 <= i < |c.windows| ensures PlannedAt(c, i) {
        WindowIsPlanned(c, i);
      }
    } else {
      var w :| w in c.windows && w.reason == InflightLimit;
      var i :| 0 <= i < |c.windows| && c.windows[i] == w;
      CappedIsShort(c, i);
      assert i < |c.stages| ==> Prefix(c.stages, i + 1) == Prefix(c.stages, i) + c.stages[i].duration;
      assert !PlannedAt(c, i);
    }
  }

  lemma EndIsPlanned(plan: LoadPlan, c: Control, e: real)
    requires plan.Valid() && c.stages == plan.PlannedStages() && Tiled(c) && NoneCapped(c.windows)
    requires c.end == Some(e) && c.Current().complete
    ensures |c.windows| == |c.stages| && e == plan.Duration()
  {
    WindowIsPlanned(c, |c.windows| - 1);
    PrefixIsDuration(c.stages);
  }

  /** And those boundaries are the prefix sums of the planned durations, up to the planned end. */
  lemma RunIsPlanned(plan: LoadPlan, calls: seq<Call>, states: seq<Control>, n: nat)
    requires plan.Valid() && Nondecreasing(0.0, calls) && IsRun(plan, calls, states) && n < |states|
      && OnlyAdvances(calls, n)
    ensures AsPlanned(states[n]) <==> NoneCapped(states[n].windows)
    ensures AsPlanned(states[n]) && states[n].end.Some?
        ==> |states[n].windows| == |plan.PlannedStages()| && states[n].end.value == plan.Duration()
  {
    RunReaches(plan, calls, states, n);
    AsPlannedIffUncapped(states[n]);
    if AsPlanned(states[n]) && states[n].end.Some? {
      EndIsPlanned(plan, states[n], states[n].end.value);
    }
  }

  // ----- The cap a call meets -----

  /** The stage in which `at` falls, from stage `k` starting at `start` on, is a warmup at its cap. */
  predicate MeetsCap(stages: seq<Stage>, k: nat, start: real, at: real, inflight: int)
    requires k <= |stages|
    decreases |stages| - k
  {
    if k == |stages| then false
    else if at < start + stages[k].duration then stages[k].kind.Warmup? && inflight >= stages[k].cap
    else MeetsCap(stages, k + 1, start + stages[k].duration, at, inflight)
  }

  /** Ending a stage in time leads to the stage after it. */
  lemma TurnedInTime(c: Control, at: real, inflight: int, limited: bool)
    requires c.Shaped() && c.end.None? && at >= c.Deadline()
    ensures var t := Turned(c, at, inflight, limited);
      if c.index + 1 == |c.stages| then t.end.Some?
      else t.end.None? && t.index == c.index + 1 && t.start == c.Deadline() && t.stages == c.stages
  {
  }

  lemma SeenTurns(c: Control, at: real, inflight: int, limited: bool)
    requires c.Shaped() && c.end.None? && at >= c.Deadline()
    ensures Turned(c, at, inflight, limited).Shaped()
    ensures SeenAtCap(c, at, inflight, limited)
       <==> SeenAtCap(Turned(c, at, inflight, limited), at, inflight, limited)
  {
    TurnedShaped(c, at, inflight, limited);
  }

  lemma MeetsNext(stages: seq<Stage>, k: nat, start: real, at: real, inflight: int)
    requires k < |stages| && at >= start + stages[k].duration
    ensures MeetsCap(stages, k, start, at, inflight)
       <==> k + 1 < |stages| && MeetsCap(stages, k + 1, start + stages[k].duration, at, inflight)
  {
  }

  /** Of the stages on the way only the one that the call falls in can be seen at its cap. */
  lemma {:induction false} SeenIffMeets(c: Control, at: real, inflight: int, limited: bool)
    requires Tiled(c) && c.end.None? && c.last <= at
    ensures SeenAtCap(c, at, inflight, limited) <==> MeetsCap(c.stages, c.index, c.start, at, inflight)
    decreases |c.stages| - c.index
  {
    if at < c.Deadline() {
    } else {
      var t := Turned(c, at, inflight, limited);
      SeenTurns(c, at, inflight, limited);
      MeetsNext(c.stages, c.index, c.start, at, inflight);
      TurnedInTime(c, at, inflight, limited);
      TurnedTiled(c, at, inflight, limited);
      if t.end.None? {
        SeenIffMeets(t, at, inflight, limited);
      }
    }
  }

  /** Stages that are over by `at` do not matter. */
  lemma {:induction false} MeetsLater(stages: seq<Stage>, k: nat, at: real, inflight: int)
    requires k <= |stages| && (forall s <- stages :: s.Valid()) && Prefix(stages, k) <= at
    ensures MeetsCap(stages, 0, 0.0, at, inflight) <==> MeetsCap(stages, k, Prefix(stages, k), at, inflight)
  {
    if k == 0 {
    } else {
      PrefixMonotone(stages, k - 1, k);
      MeetsLater(stages, k - 1, at, inflight);
    }
  }

  /** As long as nothing was capped, what a call meets can be told from the plan. */
  lemma SeenIffPlanned(c: Control, at: real, inflight: int, limited: bool)
    requires Tiled(c) && NoneCapped(c.windows) && c.end.None? && c.last <= at
    ensures SeenAtCap(c, at, inflight, limited) <==> MeetsCap(c.stages, 0, 0.0, at, inflight)
  {
    SeenIffMeets(c, at, inflight, limited);
    PlannedStarts(c.stages, c.windows, |c.windows| - 1);
    MeetsLater(c.stages, c.index, at, inflight);
  }

  /** After its end a plan has no cap to meet. */
  lemma NothingMet(plan: LoadPlan, c: Control, at: real, inflight: int)
    requires plan.Valid() && Sound(plan, c) && NoneCapped(c.windows) && c.end.Some?
    requires c.Current().complete && c.end.value <= at
    ensures !MeetsCap(c.stages, 0, 0.0, at, inflight)
  {
    EndIsPlanned(plan, c, c.end.value);
    PrefixIsDuration(c.stages);
    MeetsLater(c.stages, |c.stages|, at, inflight);
  }

  /** No call comes at a planned time at which that many requests in flight would meet a warmup's cap. */
  ghost predicate NeverMeetsCap(plan: LoadPlan, calls: seq<Call>, n: nat)
    requires plan.Valid() && n <= |calls| && OnlyAdvances(calls, n)
  {
    forall i | 0 <= i < n :: !MeetsCap(plan.PlannedStages(), 0, 0.0, calls[i].at, calls[i].inflight)
  }

  /** So whether a run keeps to its plan can be told from the plan and the calls alone. */
  lemma {:induction false} RunUncappedIffUnmet(plan: LoadPlan, calls: seq<Call>, states: seq<Control>, n: nat)
    requires plan.Valid() && Nondecreasing(0.0, calls) && IsRun(plan, calls, states) && n < |states|
      && OnlyAdvances(calls, n)
    ensures NoneCapped(states[n].windows) <==> NeverMeetsCap(plan, calls, n)
  {
    if n == 0 {
      assert states[0].windows == [states[0].Current()];
    } else {
      RunUncappedIffUnmet(plan, calls, states, n - 1);
      UncappedAt(plan, calls, states, n - 1);
      if NoneCapped(states[n - 1].windows) { UnseenIffUnmet(plan, calls, states, n - 1); }
    }
  }

  lemma UnseenIffUnmet(plan: LoadPlan, calls: seq<Call>, states: seq<Control>, n: nat)
    requires plan.Valid() && Nondecreasing(0.0, calls) && IsRun(plan, calls, states) && n < |calls|
      && OnlyAdvances(calls, n + 1) && NoneCapped(states[n].windows)
    ensures states[n].Shaped()
    ensures SeenAtCap(states[n], calls[n].at, calls[n].inflight, calls[n].limited)
       <==> MeetsCap(plan.PlannedStages(), 0, 0.0, calls[n].at, calls[n].inflight)
  {
    RunReaches(plan, calls, states, n);
    if states[n].end.None? {
      SeenIffPlanned(states[n], calls[n].at, calls[n].inflight, calls[n].limited);
    } else {
      NothingMet(plan, states[n], calls[n].at, calls[n].inflight);
    }
  }
}
