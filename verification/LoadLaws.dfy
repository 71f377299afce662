/** What a load plan asks for at each instant, and what its controller measures, in plain arithmetic. */
module LoadLaws {
  import opened Wrappers
  import opened LoadPlans
  import opened LoadControllers
  import opened ControllerWindows
  import RealFacts

  // ----- Which plans there are -----

  predicate StageAccepted(s: Stage) { s.duration > 0.0 && (s.rate.Finite? ==> s.rate.value >= 0.0) && s.cap >= 1 }

  /** A plan has positive lengths, nonnegative rates and caps of at least one; without stages of its own it sends
      something; its warmup step is not negative, an error threshold is above zero and at most one and is looked at
      after one request at least; and its stages are infinite in rate exactly if it is itself. */
  lemma PlansAccepted(plan: LoadPlan)
    ensures plan.Valid() <==>
      && plan.holdS > 0.0 && (plan.rate.Finite? ==> plan.rate.value >= 0.0) && plan.cap >= 1
      && (plan.stages == [] && plan.rate.Finite? ==> plan.rate.value > 0.0) && plan.warmupStepS >= 0.0
      && (plan.abortOnErrorRate.Some? ==> 0.0 < plan.abortOnErrorRate.value <= 1.0) && plan.breakerMinN >= 1
      && forall s <- plan.stages :: StageAccepted(s) && (s.rate.Inf? <==> plan.rate.Inf?)
  {
    assert forall s: Stage :: s.Valid() <==> StageAccepted(s);
  }

  // ----- The planned stages -----

  /** Rates that begin at `first` and double from stage to stage until the next would reach `goal`. */
  ghost predicate Doubles(warmup: seq<Stage>, first: real, goal: real, step: real, cap: int) {
    && (forall k | 0 <= k < |warmup| ::
          && warmup[k].kind.Warmup? && warmup[k].duration == step && warmup[k].cap == cap
          && warmup[k].rate.Finite? && warmup[k].rate.value < goal)
    && (forall k | 0 <= k < |warmup| - 1 :: warmup[k + 1].rate.value == warmup[k].rate.value + warmup[k].rate.value)
    && (warmup == [] <==> first >= goal)
    && (warmup != [] ==> warmup[0].rate.value == first)
    && (warmup != [] ==> warmup[|warmup| - 1].rate.value + warmup[|warmup| - 1].rate.value >= goal)
  }

  lemma {:induction false} DoublingDoubles(rate: real, goal: real, step: real, cap: int)
    requires rate >= 1.0
    ensures Doubles(Doubling(rate, goal, step, cap), rate, goal, step, cap)
    decreases if rate < goal then (goal - rate).Floor + 1 else 0
  {
    if rate >= goal {
    } else if rate * 2.0 >= goal {
      assert Doubling(Min(rate * 2.0, goal), goal, step, cap) == [];
      assert Doubling(rate, goal, step, cap) == [Stage(step, Finite(rate), cap, Warmup)];
    } else {
      DoublingDoubles(rate * 2.0, goal, step, cap);
      var rest := Doubling(rate * 2.0, goal, step, cap);
      var all := Doubling(rate, goal, step, cap);
      assert all == [Stage(step, Finite(rate), cap, Warmup)] + rest;
      forall k | 0 <= k < |all| - 1 ensures all[k + 1].rate.value == all[k].rate.value + all[k].rate.value {
        if k > 0 { assert all[k] == rest[k - 1] && all[k + 1] == rest[k]; }
      }
    }
  }

  /** The stages are those given; else one hold, before which a finite rate above one is approached by doubling
      from one if there is a warmup at all. */
  lemma PlannedStagesAre(plan: LoadPlan)
    requires plan.Valid()
    ensures plan.stages != [] ==> plan.PlannedStages() == plan.stages
    ensures plan.stages == [] ==>
      var planned := plan.PlannedStages();
      var n := |planned| - 1;
      && n >= 0 && planned[n] == Stage(plan.holdS, plan.rate, plan.cap, Hold)
      && (plan.rate.Inf? || plan.warmupStepS == 0.0 ==> n == 0)
      && (plan.rate.Finite? && plan.warmupStepS != 0.0 ==>
            Doubles(planned[..n], 1.0, plan.rate.value, plan.warmupStepS, plan.cap))
  {
    if plan.stages == [] && plan.rate.Finite? && plan.warmupStepS != 0.0 {
      var planned, hold := plan.PlannedStages(), [Stage(plan.holdS, plan.rate, plan.cap, Hold)];
      if plan.rate.value <= 1.0 {
        assert planned == hold;
      } else {
        DoublingDoubles(1.0, plan.rate.value, plan.warmupStepS, plan.cap);
        assert planned == Doubling(1.0, plan.rate.value, plan.warmupStepS, plan.cap) + hold;
        assert planned[..|planned| - 1] == Doubling(1.0, plan.rate.value, plan.warmupStepS, plan.cap);
      }
    }
  }

  /** The peak is the cap of the plan or of one of its stages, and none of them is larger. */
  lemma {:induction false} PeakIsReached(stages: seq<Stage>, cap: int)
    ensures PeakCap(stages, cap) >= cap && forall s <- stages :: PeakCap(stages, cap) >= s.cap
    ensures PeakCap(stages, cap) == cap || exists s <- stages :: PeakCap(stages, cap) == s.cap
  {
    if stages == [] {
    } else {
      PeakIsReached(stages[1..], MaxInt(cap, stages[0].cap));
    }
  }

  lemma {:induction false} DurationsAdd(a: seq<Stage>, b: seq<Stage>)
    ensures TotalDuration(a + b) == TotalDuration(a) + TotalDuration(b)
  {
    if a == [] {
      assert a + b == b;
    } else {
      assert (a + b)[1..] == a[1..] + b;
      DurationsAdd(a[1..], b);
    }
  }

  /** The stages' durations, one after the other. */
  lemma DurationsAre(before: seq<Stage>, s: Stage)
    ensures TotalDuration([]) == 0.0
    ensures TotalDuration(before + [s]) == TotalDuration(before) + s.duration
  {
    DurationsAdd(before, [s]);
    assert [s][1..] == [];
  }

  // ----- The target -----

  /** `cap` is the part `x` of the way through `duration` from `a` to `b`, rounded down but never below one. */
  ghost predicate CapBetween(cap: int, a: int, b: int, x: real, duration: real) {
    var level := Weighted(a as real, b as real, x, duration);
    cap >= 1 && level < Scaled(cap + 1, duration) && (cap > 1 ==> Scaled(cap, duration) <= level)
  }

  function Scaled(n: int, duration: real): real { n as real * duration }

  /** `duration` times the value `x` of the way through it from `a` to `b`. */
  function Weighted(a: real, b: real, x: real, duration: real): real { a * (duration - x) + b * x }

  /** `rate` is the part `x` of the way through `duration` from `a` to `b`; infinite rates are not interpolated. */
  ghost predicate RateBetween(rate: Rate, a: Rate, b: Rate, x: real, duration: real) {
    if a.Inf? || b.Inf? then rate.Inf?
    else rate.Finite? && rate.value * duration == Weighted(a.value, b.value, x, duration)
  }

  lemma BlendIsWeighted(a: real, b: real, x: real, duration: real)
    requires duration > 0.0
    ensures Blend(a, b, Share(x, duration)) * duration == Weighted(a, b, x, duration)
  {
    var f := Share(x, duration);
    RealFacts.DivideBack(x, duration);
    assert f * duration == x;
    assert (b - a) * f * duration == (b - a) * x;
    RealFacts.Distribute(a, duration, x);
    assert (a + (b - a) * f) * duration == a * duration + (b - a) * f * duration;
  }

  lemma LessTimes(x: real, y: real, d: real)
    requires x < y && d > 0.0
    ensures x * d < y * d
  {
    RealFacts.ProductPositive(y - x, d);
    RealFacts.Distribute(d, y, x);
  }

  lemma LessThanScaled(level: real, n: int, d: real)
    requires level < n as real && d > 0.0
    ensures level * d < Scaled(n, d)
  {
    LessTimes(level, n as real, d);
  }

  lemma RoundedDown(level: real, cap: int, d: real, whole: real)
    requires d > 0.0 && level * d == whole && cap == MaxInt(1, level.Floor)
    ensures cap >= 1 && whole < Scaled(cap + 1, d) && (cap > 1 ==> Scaled(cap, d) <= whole)
  {
    LessThanScaled(level, cap + 1, d);
    if cap > 1 { RealFacts.ScaleOrder(cap as real, level, d); }
  }

  lemma InterpolatesBetween(stage: Stage, rate: Rate, cap: int, x: real)
    requires stage.Valid() && 0.0 <= x <= stage.duration
    ensures var target := Interpolate(stage, rate, cap, Share(x, stage.duration));
      && RateBetween(target.0, rate, stage.rate, x, stage.duration)
      && CapBetween(target.1, cap, stage.cap, x, stage.duration)
  {
    var d := stage.duration;
    if rate.Finite? && stage.rate.Finite? { BlendIsWeighted(rate.value, stage.rate.value, x, d); }
    BlendIsWeighted(cap as real, stage.cap as real, x, d);
    var level := Blend(cap as real, stage.cap as real, Share(x, d));
    RoundedDown(level, MaxInt(1, level.Floor), d, Weighted(cap as real, stage.cap as real, x, d));
  }

  /** In a stage that is no ramp the target is its rate and cap; on a ramp it lies between those before it and its
      own in proportion to the time spent in it. */
  lemma {:induction false} TargetInStage(before: seq<Stage>, s: Stage, after: seq<Stage>, rate: Rate, cap: int, t: real)
    requires forall q <- before + [s] + after :: q.Valid()
    requires 0.0 <= t - TotalDuration(before) < s.duration
    ensures var target := TargetFrom(before + [s] + after, rate, cap, t);
      var x := t - TotalDuration(before);
      var from := if before == [] then (rate, cap) else (before[|before| - 1].rate, before[|before| - 1].cap);
      if !s.kind.Ramp? then target == (s.rate, s.cap)
      else RateBetween(target.0, from.0, s.rate, x, s.duration) && CapBetween(target.1, from.1, s.cap, x, s.duration)
    decreases |before|
  {
    var stages := before + [s] + after;
    if before == [] {
      assert stages == [s] + after && s in stages;
      if s.kind.Ramp? { InterpolatesBetween(s, rate, cap, t); }
    } else {
      var rest := before[1..];
      assert stages[0] == before[0] && stages[1..] == rest + [s] + after;
      Nonnegative(rest, s, after, stages);
      TargetInStage(rest, s, after, before[0].rate, before[0].cap, t - before[0].duration);
    }
  }

  lemma {:induction false} Nonnegative(some: seq<Stage>, s: Stage, after: seq<Stage>, all: seq<Stage>)
    requires (forall q <- all :: q.Valid()) && forall q <- some :: q in all
    ensures TotalDuration(some) >= 0.0
  {
    if some == [] {
    } else {
      assert some[0] in all && some[0].Valid();
      Nonnegative(some[1..], s, after, all);
    }
  }

  /** After the end the target stays that of the last stage. */
  lemma {:induction false} TargetPastEnd(stages: seq<Stage>, rate: Rate, cap: int, t: real)
    requires (forall q <- stages :: q.Valid()) && t >= TotalDuration(stages)
    ensures TargetFrom(stages, rate, cap, t)
         == if stages == [] then (rate, cap) else (stages[|stages| - 1].rate, stages[|stages| - 1].cap)
  {
    if stages == [] {
    } else {
      Nonnegative(stages[1..], stages[0], [], stages);
      TargetPastEnd(stages[1..], stages[0].rate, stages[0].cap, t - stages[0].duration);
    }
  }

  /** The controller's target is told from the stage it is in and the one it came from in the same way, also when a
      stage before it was cut short. */
  lemma ControllerTarget(c: Control, at: real)
    requires c.Shaped() && c.start <= at
    ensures var s, target, x := c.Stage(), TargetOf(c, at), Min(at - c.start, c.Stage().duration);
      && (!s.kind.Ramp? ==> target == (s.rate, s.cap))
      && (s.kind.Ramp? ==>
            && RateBetween(target.0, c.previous.0, s.rate, x, s.duration)
            && CapBetween(target.1, c.previous.1, s.cap, x, s.duration))
  {
    var s := c.Stage();
    assert s in c.stages && s.Valid();
    if s.kind.Ramp? {
      var x := Min(at - c.start, s.duration);
      RealFacts.DivideOrder(at - c.start, s.duration, s.duration);
      assert Share(s.duration, s.duration) == 1.0;
      assert Min(1.0, Share(at - c.start, s.duration)) == Share(x, s.duration);
      InterpolatesBetween(s, c.previous.0, c.previous.1, x);
    }
  }

  // ----- Stopping early -----

  /** Aborting ends the current window, incomplete, then or with its stage if that is earlier; it leaves all else as it
      is, and a load that has ended altogether. */
  lemma AbortEnds(c: Control, at: real)
    requires c.Shaped()
    ensures var a := AbortedAt(c, at);
      && (c.end.Some? ==> a == c)
      && (c.end.None? ==>
            && a.end == Some(if at <= c.start + c.Stage().duration then at else c.start + c.Stage().duration)
            && |a.windows| == |c.windows| && a.windows[..|c.windows| - 1] == c.windows[..|c.windows| - 1]
            && a.Current() == c.Current().(end := a.end.value, reason := Reason.Aborted)
            && a.(end := None, windows := []) == c.(windows := []))
  {
  }

  // ----- Limited time -----

  /** The window current before an advance is charged from the last reading on if the load was limited then; each
      window the advance opens is charged in full if the load is limited now; and no other is touched. */
  ghost predicate Charged(c: Control, a: Control, limited: bool)
    requires c.windows != []
  {
    var n := |c.windows| - 1;
    && n < |a.windows| && a.windows[..n] == c.windows[..n]
    && a.windows[n].limitedS
       == c.windows[n].limitedS + (if c.limited then a.windows[n].end - c.last else 0.0)
    && forall j | n < j < |a.windows| ::
         a.windows[j].limitedS == if limited then a.windows[j].end - a.windows[j].start else 0.0
  }

  /** The same, and the window that was current still begins where it did. */
  ghost predicate ChargedOn(c: Control, a: Control, limited: bool)
    requires c.windows != []
  {
    Charged(c, a, limited) && a.windows[|c.windows| - 1].start == c.Current().start
  }

  /** A window has just been opened, for a load limited or not. */
  ghost predicate JustOpened(c: Control, t: Control, limited: bool)
    requires c.windows != []
  {
    && |t.windows| == |c.windows| + 1 && t.limited == limited
    && t.Current().limitedS == 0.0 && t.Current().start == t.last
  }

  lemma TurnCharges(c: Control, at: real, inflight: int, limited: bool, t: Control)
    requires Tiled(c) && c.end.None? && c.last <= at && t == Turned(c, at, inflight, limited)
    ensures ChargedOn(c, t, limited) && (t.end.None? ==> JustOpened(c, t, limited))
  {
    TurnedShaped(c, at, inflight, limited);
  }

  lemma StayCharges(c: Control, at: real, limited: bool, a: Control)
    requires Tiled(c) && c.end.None? && c.last <= at && a == Measured(c, at).(limited := limited)
    ensures ChargedOn(c, a, limited) && a.limited == limited && a.last == at
  {
  }

  lemma ChargedThen(c: Control, t: Control, a: Control, limited: bool)
    requires c.windows != [] && ChargedOn(c, t, limited) && JustOpened(c, t, limited) && ChargedOn(t, a, limited)
    ensures ChargedOn(c, a, limited)
  {
    var n := |c.windows| - 1;
    assert a.windows[..n] == a.windows[..n + 1][..n] == t.windows[..n + 1][..n] == t.windows[..n];
    assert a.windows[n] == a.windows[..n + 1][n] == t.windows[..n + 1][n] == t.windows[n];
  }

  lemma {:induction false} AdvanceCharges(c: Control, at: real, inflight: int, limited: bool)
    requires Tiled(c) && c.end.None? && c.last <= at
    ensures var a := Advanced(c, at, inflight, limited);
      ChargedOn(c, a, limited) && (a.end.None? ==> a.limited == limited && a.last == at)
    decreases |c.stages| - c.index
  {
    AdvancedTurns(c, at, inflight, limited);
    if at < c.Deadline() && !Capped(c, at, inflight) {
      StayCharges(c, at, limited, Advanced(c, at, inflight, limited));
    } else {
      var t := Turned(c, at, inflight, limited);
      TurnCharges(c, at, inflight, limited, t);
      TurnedTiled(c, at, inflight, limited);
      if t.end.None? {
        AdvanceCharges(t, at, inflight, limited);
        ChargedThen(c, t, Advanced(t, at, inflight, limited), limited);
      } else {
        EndedStays(t, at, inflight, limited);
      }
    }
  }

  lemma EndedStays(c: Control, at: real, inflight: int, limited: bool)
    requires c.Shaped() && c.end.Some?
    ensures Advanced(c, at, inflight, limited) == c
  {
  }
}
