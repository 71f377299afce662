/** Bounded load plans: stages of an arrival rate and a cap on requests in flight. */
module LoadPlans {
  import opened Wrappers
  import RealFacts

  /** Requests per second; an infinite rate means "replenish as soon as there is room". */
  datatype Rate = Finite(value: real) | Inf

  datatype Kind = Hold | Ramp | Warmup

  datatype Stage = Stage(duration: real, rate: Rate, cap: int, kind: Kind) {
    predicate Valid() {
      duration > 0.0 && (rate.Finite? ==> rate.value >= 0.0) && cap >= 1
    }
  }

  datatype LoadPlan = LoadPlan(
    rate: Rate, cap: int, holdS: real, warmupStepS: real, stages: seq<Stage>,
    constantArrivals: bool, abortOnErrorRate: Option<real>, breakerMinN: int)
  {
    predicate Valid() {
      && Stage(holdS, rate, cap, Hold).Valid()
      && (stages == [] ==> rate != Finite(0.0))
      && warmupStepS >= 0.0
      && (abortOnErrorRate.Some? ==> 0.0 < abortOnErrorRate.value <= 1.0)
      && breakerMinN >= 1
      && forall s <- stages :: s.Valid() && (s.rate.Inf? <==> Saturated())
    }

    predicate Saturated() { rate.Inf? }

    /** The explicit stages, or a doubling warmup followed by one hold. */
    function PlannedStages(): (planned: seq<Stage>)
      requires Valid()
      ensures planned != [] && forall s <- planned :: s.Valid() && (s.rate.Inf? <==> Saturated())
    {
      if stages != [] then stages
      else if Saturated() || warmupStepS == 0.0 then [Stage(holdS, rate, cap, Hold)]
      else Doubling(Min(1.0, rate.value), rate.value, warmupStepS, cap) + [Stage(holdS, rate, cap, Hold)]
    }

    function PeakInflight(): int
      requires Valid()
    {
      PeakCap(PlannedStages(), cap)
    }

    function Duration(): real
      requires Valid()
    {
      TotalDuration(PlannedStages())
    }

    /** The rate and cap planned for `elapsed` seconds into the load. */
    function Target(elapsed: real): (Rate, int)
      requires Valid()
    {
      TargetFrom(PlannedStages(), rate, cap, elapsed)
    }
  }

  function Min(a: real, b: real): real { if a <= b then a else b }
  function Max(a: real, b: real): real { if a >= b then a else b }
  function MaxInt(a: int, b: int): int { if a >= b then a else b }

  /** Warmup stages whose rate doubles from `rate` while it is below `goal`. */
  function Doubling(rate: real, goal: real, step: real, cap: int): (s: seq<Stage>)
    requires rate >= 0.0 && (rate >= 1.0 || rate >= goal)
    ensures step > 0.0 && cap >= 1 ==> forall t <- s :: t.Valid() && t.rate.Finite?
    decreases if rate < goal then (goal - rate).Floor + 1 else 0
  {
    if rate >= goal then []
    else [Stage(step, Finite(rate), cap, Warmup)] + Doubling(Min(rate * 2.0, goal), goal, step, cap)
  }

  function TotalDuration(stages: seq<Stage>): (d: real) {
    if stages == [] then 0.0 else stages[0].duration + TotalDuration(stages[1..])
  }

  function PeakCap(stages: seq<Stage>, cap: int): (peak: int)
    ensures peak >= cap && forall s <- stages :: peak >= s.cap
  {
    if stages == [] then cap else PeakCap(stages[1..], MaxInt(cap, stages[0].cap))
  }

  /** The value a fraction `f` of the way from `a` to `b`. */
  function Blend(a: real, b: real, f: real): real { a + (b - a) * f }

  function Share(t: real, duration: real): real
    requires duration > 0.0
  {
    t / duration
  }

  /** Rate and cap a fraction of the way through a ramp from (`rate`, `cap`). */
  function Interpolate(stage: Stage, rate: Rate, cap: int, fraction: real): (Rate, int) {
    var r := if rate.Inf? || stage.rate.Inf? then Inf else Finite(Blend(rate.value, stage.rate.value, fraction));
    (r, MaxInt(1, Blend(cap as real, stage.cap as real, fraction).Floor))
  }

  /** The target `t` seconds after `stages` begin, coming from (`rate`, `cap`). */
  function TargetFrom(stages: seq<Stage>, rate: Rate, cap: int, t: real): (Rate, int)
    requires forall s <- stages :: s.Valid()
  {
    if stages == [] then (rate, cap)
    else if t < stages[0].duration then
      assert stages[0].Valid();
      if stages[0].kind.Ramp? then Interpolate(stages[0], rate, cap, Share(Max(0.0, t), stages[0].duration))
      else (stages[0].rate, stages[0].cap)
    else TargetFrom(stages[1..], stages[0].rate, stages[0].cap, t - stages[0].duration)
  }

  // ----- The same, as the loops that compute them -----

  method ComputePlannedStages(plan: LoadPlan) returns (stages: seq<Stage>)
    requires plan.Valid()
    ensures stages == plan.PlannedStages()
  {
    if plan.stages != [] {
      return plan.stages;
    }
    stages := [];
    if !plan.Saturated() && plan.warmupStepS != 0.0 {
      var rate := Min(1.0, plan.rate.value);
      while rate < plan.rate.value
        invariant rate >= 0.0 && (rate >= 1.0 || rate >= plan.rate.value)
        invariant Doubling(Min(1.0, plan.rate.value), plan.rate.value, plan.warmupStepS, plan.cap)
               == stages + Doubling(rate, plan.rate.value, plan.warmupStepS, plan.cap)
        decreases if rate < plan.rate.value then (plan.rate.value - rate).Floor + 1 else 0
      {
        stages := stages + [Stage(plan.warmupStepS, Finite(rate), plan.cap, Warmup)];
        rate := Min(rate * 2.0, plan.rate.value);
      }
    }
    stages := stages + [Stage(plan.holdS, plan.rate, plan.cap, Hold)];
  }

  method ComputeTarget(plan: LoadPlan, elapsed: real) returns (rate: Rate, cap: int)
    requires plan.Valid()
    ensures (rate, cap) == plan.Target(elapsed)
  {
    var stages := ComputePlannedStages(plan);
    rate, cap := plan.rate, plan.cap;
    var clock := 0.0;
    for i := 0 to |stages|
      invariant plan.Target(elapsed) == TargetFrom(stages[i..], rate, cap, elapsed - clock)
      invariant rate.Inf? <==> plan.Saturated()
    {
      var stage := stages[i];
      assert stages[i..][0] == stage && stages[i..][1..] == stages[i + 1..];
      if elapsed < clock + stage.duration {
        if !stage.kind.Ramp? {
          return stage.rate, stage.cap;
        }
        assert stages[i] in stages && stage.Valid();
        var fraction := Share(Max(0.0, elapsed - clock), stage.duration);
        var r := if plan.Saturated() then Inf else Finite(Blend(rate.value, stage.rate.value, fraction));
        return r, MaxInt(1, Blend(cap as real, stage.cap as real, fraction).Floor);
      }
      clock := clock + stage.duration;
      rate, cap := stage.rate, stage.cap;
    }
  }

  // ----- Properties of plans -----

  function Doubled(rate: real, k: nat): real
    decreases k
  {
    if k == 0 then rate else Doubled(rate * 2.0, k - 1)
  }

  /** The warmup of a default plan: the k-th stage runs at the rate doubled k times, below the goal,
      and one more doubling than there are stages would reach the goal. */
  lemma {:induction false} DoublingRates(rate: real, goal: real, step: real, cap: int, k: nat)
    requires rate >= 1.0 && k <= |Doubling(rate, goal, step, cap)|
    ensures k < |Doubling(rate, goal, step, cap)| ==>
              Doubling(rate, goal, step, cap)[k] == Stage(step, Finite(Doubled(rate, k)), cap, Warmup)
                && Doubled(rate, k) < goal
    ensures k == |Doubling(rate, goal, step, cap)| ==> Doubled(rate, k) >= goal
    decreases k
  {
    if k == 0 {
    } else {
      var rest := Doubling(Min(rate * 2.0, goal), goal, step, cap);
      assert Doubling(rate, goal, step, cap) == [Stage(step, Finite(rate), cap, Warmup)] + rest;
      if rate * 2.0 <= goal {
        DoublingRates(rate * 2.0, goal, step, cap, k - 1);
      } else {
        assert rest == [];
      }
    }
  }

  /** The cap planned at any time lies between one and the peak. */
  lemma {:induction false} TargetWithinPeak(stages: seq<Stage>, rate: Rate, cap: int, t: real)
    requires cap >= 1 && forall s <- stages :: s.Valid()
    ensures 1 <= TargetFrom(stages, rate, cap, t).1 <= PeakCap(stages, cap)
  {
    if stages == [] {
    } else {
      assert stages[0].Valid();
      if t < stages[0].duration {
        if stages[0].kind.Ramp? {
          ShareBetween(Max(0.0, t), stages[0].duration);
          InterpolateBetween(stages[0], rate, cap, Share(Max(0.0, t), stages[0].duration));
        }
        PeakMonotone(stages[1..], MaxInt(cap, stages[0].cap), MaxInt(cap, stages[0].cap));
      } else {
        TargetWithinPeak(stages[1..], stages[0].rate, stages[0].cap, t - stages[0].duration);
        PeakMonotone(stages[1..], stages[0].cap, MaxInt(cap, stages[0].cap));
      }
    }
  }

  lemma {:induction false} PeakMonotone(stages: seq<Stage>, low: int, high: int)
    requires low <= high
    ensures PeakCap(stages, low) <= PeakCap(stages, high)
  {
    if stages == [] {
    } else {
      PeakMonotone(stages[1..], MaxInt(low, stages[0].cap), MaxInt(high, stages[0].cap));
    }
  }

  lemma InterpolateBetween(stage: Stage, rate: Rate, cap: int, fraction: real)
    requires stage.Valid() && cap >= 1 && 0.0 <= fraction <= 1.0
    ensures 1 <= Interpolate(stage, rate, cap, fraction).1 <= MaxInt(cap, stage.cap)
  {
    BlendBetween(cap as real, stage.cap as real, fraction);
  }

  lemma ShareBetween(t: real, duration: real)
    requires 0.0 <= t <= duration && duration > 0.0
    ensures 0.0 <= Share(t, duration) <= 1.0
  {
    RealFacts.DivideOrder(0.0, t, duration);
    RealFacts.DivideOrder(t, duration, duration);
  }

  lemma BlendBetween(a: real, b: real, f: real)
    requires 0.0 <= f <= 1.0
    ensures Min(a, b) <= Blend(a, b, f) <= Max(a, b)
  {
    if b >= a {
      RealFacts.ProductNonnegative(b - a, f);
      RealFacts.ProductNonnegative(b - a, 1.0 - f);
    } else {
      RealFacts.ProductNonnegative(a - b, f);
      RealFacts.ProductNonnegative(a - b, 1.0 - f);
    }
    assert (b - a) * (1.0 - f) == (b - a) - (b - a) * f;
  }
}
