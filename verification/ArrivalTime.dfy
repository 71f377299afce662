/** `arrival_time`: when the integrated arrival rate of a finite plan reaches a given volume. */
module ArrivalTimes {
  import opened Wrappers
  import opened LoadPlans
  import RealFacts

  /** Slopes closer to zero than this are treated as zero. */
  const FLAT: real := 0.000000000001

  datatype Arrival = At(time: real) | Never | ZeroDivision

  /** `math.sqrt`, of which only its defining law is used. */
  ghost predicate IsSquareRoot(sqrt: real -> real) {
    forall x: real :: x >= 0.0 ==> sqrt(x) >= 0.0 && sqrt(x) * sqrt(x) == x
  }

  ghost predicate FiniteStages(stages: seq<Stage>, previous: real) {
    previous >= 0.0 && forall s <- stages :: s.Valid() && s.rate.Finite?
  }

  // ----- One stage as a line segment of the rate -----

  /** A stage's rate runs linearly from `start` to `end`; only a ramp starts where the last one ended. */
  datatype Leg = Leg(start: real, end: real, duration: real) {
    ghost predicate Valid() { start >= 0.0 && end >= 0.0 && duration > 0.0 }

    function Slope(): real
      requires duration > 0.0
    {
      (end - start) / duration
    }

    function Discriminant(volume: real): real
      requires duration > 0.0
    {
      start * start + 2.0 * Slope() * volume
    }

    function Mass(): real { (start + end) * duration / 2.0 }

    function RateAt(t: real): real
      requires duration > 0.0
    {
      Blend(start, end, Share(t, duration))
    }

    /** The area under the rate from the beginning of the leg to `t`. */
    function Area(t: real): real
      requires duration > 0.0
    {
      start * t + Slope() * (t * t) / 2.0
    }
  }

  function TwiceOver(volume: real, divisor: real): real
    requires divisor != 0.0
  {
    2.0 * volume / divisor
  }

  function LegOf(stage: Stage, previous: real): Leg
    requires stage.rate.Finite?
  {
    Leg(if stage.kind.Ramp? then previous else stage.rate.value, stage.rate.value, stage.duration)
  }

  /** Where in a leg a residual volume is reached, as the code computes it. */
  function WithinLeg(leg: Leg, volume: real, clock: real, sqrt: real -> real): Arrival
    requires leg.duration > 0.0
  {
    var slope := leg.Slope();
    if -FLAT < slope < FLAT then
      if leg.start == 0.0 then ZeroDivision else At(clock + volume / leg.start)
    else
      var root := sqrt(Max(0.0, leg.Discriminant(volume)));
      if volume == 0.0 then At(clock)
      else if leg.start + root == 0.0 then ZeroDivision
      else At(clock + TwiceOver(volume, leg.start + root))
  }

  function ArrivalFrom(stages: seq<Stage>, previous: real, volume: real, clock: real, sqrt: real -> real): Arrival
    requires forall s <- stages :: s.Valid() && s.rate.Finite?
  {
    if stages == [] then Never
    else
      assert stages[0].Valid() && stages[0].rate.Finite?;
      var leg := LegOf(stages[0], previous);
      if volume < leg.Mass() then WithinLeg(leg, volume, clock, sqrt)
      else ArrivalFrom(stages[1..], stages[0].rate.value, volume - leg.Mass(), clock + stages[0].duration, sqrt)
  }

  method ArrivalTime(plan: LoadPlan, volume: real, sqrt: real -> real) returns (arrival: Arrival)
    requires plan.Valid() && !plan.Saturated()
    ensures arrival == ArrivalFrom(plan.PlannedStages(), plan.rate.value, volume, 0.0, sqrt)
  {
    var stages := ComputePlannedStages(plan);
    var clock, previous, residual := 0.0, plan.rate.value, volume;
    for i := 0 to |stages|
      invariant ArrivalFrom(stages, plan.rate.value, volume, 0.0, sqrt)
        == ArrivalFrom(stages[i..], previous, residual, clock, sqrt)
    {
      var stage := stages[i];
      assert stages[i..][0] == stage && stages[i..][1..] == stages[i + 1..];
      assert stage in stages;
      var leg := LegOf(stage, previous);
      var mass := leg.Mass();
      if residual < mass {
        return WithinLeg(leg, residual, clock, sqrt);
      }
      residual := residual - mass;
      clock := clock + stage.duration;
      previous := stage.rate.value;
    }
    arrival := Never;
  }

  // ----- One leg -----

  /** The slope times the time gives the change of rate. */
  lemma SlopeRise(leg: Leg)
    requires leg.duration > 0.0
    ensures leg.Slope() * leg.duration == leg.end - leg.start
  {
    RealFacts.DivideBack(leg.end - leg.start, leg.duration);
  }

  lemma LegRate(leg: Leg, t: real)
    requires leg.duration > 0.0
    ensures leg.RateAt(t) == leg.start + leg.Slope() * t
  {
    var d, rise := leg.duration, leg.end - leg.start;
    RealFacts.DivideBack(t, d);
    RealFacts.DivideBack(rise, d);
    assert rise * (t / d) == (rise / d * d) * (t / d) == rise / d * (t / d * d);
  }

  /** The area under a straight line from `a` to `b` over a width. */
  function Trapezoid(a: real, b: real, width: real): real { (a + b) / 2.0 * width }

  /** Between two times in a leg the area grows by the trapezoid under the rate. */
  lemma LegTrapezoid(leg: Leg, t: real, u: real)
    requires leg.duration > 0.0
    ensures leg.Area(u) - leg.Area(t) == Trapezoid(leg.RateAt(t), leg.RateAt(u), u - t)
  {
    LegRate(leg, t);
    LegRate(leg, u);
    var a, k := leg.start, leg.Slope();
    assert k * (u * u) - k * (t * t) == (k * t + k * u) * (u - t);
    assert (a + k * t + (a + k * u)) / 2.0 * (u - t) == a * (u - t) + (k * t + k * u) * (u - t) / 2.0;
  }

  lemma LegEnds(leg: Leg)
    requires leg.duration > 0.0
    ensures leg.Area(0.0) == 0.0 && leg.Area(leg.duration) == leg.Mass()
  {
    SlopeRise(leg);
    var d := leg.duration;
    assert leg.Slope() * (d * d) == leg.Slope() * d * d == (leg.end - leg.start) * d;
  }

  lemma LegRateNonnegative(leg: Leg, t: real)
    requires leg.Valid() && 0.0 <= t <= leg.duration
    ensures leg.RateAt(t) >= 0.0
  {
    RealFacts.DivideOrder(0.0, t, leg.duration);
    RealFacts.DivideOrder(t, leg.duration, leg.duration);
    BlendBetween(leg.start, leg.end, Share(t, leg.duration));
  }

  lemma LegMonotone(leg: Leg, t: real, u: real)
    requires leg.Valid() && 0.0 <= t <= u <= leg.duration
    ensures leg.Area(t) <= leg.Area(u)
  {
    LegTrapezoid(leg, t, u);
    LegRateNonnegative(leg, t);
    LegRateNonnegative(leg, u);
    RealFacts.ProductNonnegative((leg.RateAt(t) + leg.RateAt(u)) / 2.0, u - t);
  }

  // ----- Inverting one leg -----

  /** The guard under which the inversion of a leg is exact: its slope is not a nonzero one that the
      code treats as flat, or nothing is left to invert and the division it makes is defined. */
  predicate Exact(leg: Leg, volume: real)
    requires leg.duration > 0.0
  {
    !(-FLAT < leg.Slope() < FLAT) || leg.Slope() == 0.0 || (volume == 0.0 && leg.start > 0.0)
  }

  /** The guard in plain numbers: the rates at both ends are the same, or differ by at least a million-millionth per
      second, or the volume is zero and the leg does not start from rest. */
  lemma ExactMeans(leg: Leg, volume: real)
    requires leg.duration > 0.0
    ensures Exact(leg, volume) <==>
      || leg.start == leg.end
      || leg.end - leg.start >= 0.000000000001 * leg.duration || leg.start - leg.end >= 0.000000000001 * leg.duration
      || (volume == 0.0 && leg.start > 0.0)
  {
    var rise := leg.end - leg.start;
    RealFacts.DivideBack(rise, leg.duration);
    RealFacts.DivideOrder(0.000000000001 * leg.duration, rise, leg.duration);
    RealFacts.DivideOrder(rise, -0.000000000001 * leg.duration, leg.duration);
    assert (0.000000000001 * leg.duration) / leg.duration == 0.000000000001;
    assert (-0.000000000001 * leg.duration) / leg.duration == -0.000000000001;
  }

  /** Below the mass of a leg the discriminant lies strictly between the squares of its end rates,
      so clipping it at zero changes nothing. */
  lemma Discriminant(leg: Leg, volume: real)
    requires leg.Valid() && 0.0 <= volume < leg.Mass()
    ensures var disc := leg.Discriminant(volume);
            && disc >= 0.0
            && (leg.Slope() > 0.0 ==> disc < leg.end * leg.end)
            && (leg.Slope() < 0.0 ==> disc > leg.end * leg.end)
            && (leg.Slope() != 0.0 && volume > 0.0 ==> disc > 0.0)
  {
    SlopeRise(leg);
    var k, d, a, b := leg.Slope(), leg.duration, leg.start, leg.end;
    RealFacts.SquareNonnegative(a);
    RealFacts.SquareNonnegative(b);
    calc {
      2.0 * k * leg.Mass();
      k * (a + b) * d;
      k * d * (a + b);
      (b - a) * (a + b);
      b * b - a * a;
    }
    var rest := leg.Mass() - volume;
    assert 2.0 * k * leg.Mass() == 2.0 * k * volume + 2.0 * k * rest;
    if k > 0.0 {
      RealFacts.ProductPositive(k, rest);
      RealFacts.ProductNonnegative(k, volume);
      if volume > 0.0 { RealFacts.ProductPositive(k, volume); }
    } else if k < 0.0 {
      RealFacts.ProductPositive(-k, rest);
    }
  }

  lemma SquareRootOrder(x: real, y: real)
    requires x >= 0.0 && y >= 0.0
    ensures x * x < y * y <==> x < y
  {
    assert y * y - x * x == (y - x) * (y + x);
    if x < y { RealFacts.ProductPositive(y - x, y + x); }
    if x >= y { RealFacts.ProductNonnegative(x - y, y + x); assert (x - y) * (y + x) == x * x - y * y; }
  }

  ghost predicate IsRoot(leg: Leg, volume: real, root: real)
    requires leg.duration > 0.0
  {
    root >= 0.0 && root * root == leg.Discriminant(volume)
  }

  /** At the time the code computes for a sloped leg, the rate has become the root. */
  lemma SlopedRate(leg: Leg, volume: real, root: real)
    requires leg.Valid() && 0.0 < volume < leg.Mass() && leg.Slope() != 0.0 && IsRoot(leg, volume, root)
    ensures root > 0.0 && leg.start + root > 0.0
    ensures var t := TwiceOver(volume, leg.start + root);
            t >= 0.0 && t * (leg.start + root) == 2.0 * volume && leg.Slope() * t == root - leg.start
  {
    Discriminant(leg, volume);
    var k, a, sum := leg.Slope(), leg.start, leg.start + root;
    var t := TwiceOver(volume, sum);
    RealFacts.DivideBack(2.0 * volume, sum);
    RealFacts.DivideOrder(0.0, 2.0 * volume, sum);
    assert (k * t) * sum == k * (t * sum) == 2.0 * k * volume;
    assert (root - a) * sum == root * root - a * a;
    RealFacts.Cancel(k * t, root - a, sum);
  }

  /** That time lies inside the leg. */
  lemma SlopedInside(leg: Leg, volume: real, root: real)
    requires leg.Valid() && 0.0 < volume < leg.Mass() && leg.Slope() != 0.0 && IsRoot(leg, volume, root)
    ensures leg.start + root > 0.0 && 0.0 <= TwiceOver(volume, leg.start + root) < leg.duration
  {
    SlopedRate(leg, volume, root);
    RootBeforeEnd(leg, volume, root);
    SlopeRise(leg);
    Earlier(leg.Slope(), TwiceOver(volume, leg.start + root), leg.duration);
  }

  lemma RootBeforeEnd(leg: Leg, volume: real, root: real)
    requires leg.Valid() && 0.0 <= volume < leg.Mass() && IsRoot(leg, volume, root)
    ensures leg.Slope() > 0.0 ==> root < leg.end
    ensures leg.Slope() < 0.0 ==> root > leg.end
  {
    Discriminant(leg, volume);
    SquareRootOrder(root, leg.end);
    SquareRootOrder(leg.end, root);
  }

  /** What a line reaches first lies earlier, whether it rises or falls. */
  lemma Earlier(k: real, t: real, d: real)
    requires (k > 0.0 && k * t < k * d) || (k < 0.0 && k * t > k * d)
    ensures t < d
  {
    RealFacts.CancelOrder(t, d, k);
    RealFacts.CancelOrder(t, d, -k);
    assert -k * t == -(k * t) && -k * d == -(k * d);
  }

  /** And there the area under the rate is the volume. */
  lemma SlopedArea(leg: Leg, volume: real, root: real)
    requires leg.Valid() && 0.0 < volume < leg.Mass() && leg.Slope() != 0.0 && IsRoot(leg, volume, root)
    ensures leg.start + root > 0.0 && leg.Area(TwiceOver(volume, leg.start + root)) == volume
  {
    SlopedRate(leg, volume, root);
    var k, a, t := leg.Slope(), leg.start, TwiceOver(volume, leg.start + root);
    assert k * (t * t) == k * t * t == (root - a) * t;
    assert a * t + (root - a) * t / 2.0 == t * (a + root) / 2.0;
  }

  /** Inside its guard the inversion is exact. */
  lemma LegInverse(leg: Leg, volume: real, clock: real, sqrt: real -> real) returns (t: real)
    requires leg.Valid() && IsSquareRoot(sqrt) && 0.0 <= volume < leg.Mass() && Exact(leg, volume)
    ensures WithinLeg(leg, volume, clock, sqrt) == At(clock + t)
    ensures 0.0 <= t < leg.duration && leg.Area(t) == volume
  {
    LegEnds(leg);
    if volume == 0.0 {
      t := 0.0;
      FlatStart(leg);
      if leg.start > 0.0 { RealFacts.ZeroQuotient(volume, leg.start); }
    } else if leg.Slope() == 0.0 {
      t := volume / leg.start;
      FlatInverse(leg, volume);
    } else {
      Discriminant(leg, volume);
      var root := sqrt(Max(0.0, leg.Discriminant(volume)));
      SlopedInside(leg, volume, root);
      SlopedArea(leg, volume, root);
      t := TwiceOver(volume, leg.start + root);
    }
  }

  /** A flat leg with any mass has a positive rate. */
  lemma FlatStart(leg: Leg)
    requires leg.Valid() && leg.Mass() > 0.0
    ensures leg.Slope() == 0.0 ==> leg.start == leg.end && leg.start > 0.0
  {
    SlopeRise(leg);
  }

  lemma FlatInverse(leg: Leg, volume: real)
    requires leg.Valid() && 0.0 <= volume < leg.Mass() && leg.Slope() == 0.0
    ensures leg.start > 0.0 && 0.0 <= volume / leg.start < leg.duration && leg.Area(volume / leg.start) == volume
  {
    FlatStart(leg);
    var t := volume / leg.start;
    RealFacts.DivideBack(volume, leg.start);
    RealFacts.DivideOrder(0.0, volume, leg.start);
    if t >= leg.duration { RealFacts.ScaleOrder(leg.duration, t, leg.start); }
  }

  /** Outside its guard it is not: the code divides by zero, or the area at its answer is not the volume. */
  lemma LegInexact(leg: Leg, volume: real, clock: real, sqrt: real -> real)
    requires leg.Valid() && 0.0 <= volume < leg.Mass() && !Exact(leg, volume)
    ensures match WithinLeg(leg, volume, clock, sqrt)
            case At(time) => time > clock && (time - clock < leg.duration ==> leg.Area(time - clock) != volume)
            case _ => WithinLeg(leg, volume, clock, sqrt).ZeroDivision?
  {
    if leg.start > 0.0 {
      var t := volume / leg.start;
      RealFacts.DivideBack(volume, leg.start);
      RealFacts.DivideOrder(volume, 0.0, leg.start);
      RealFacts.ProductPositive(t, t);
      if leg.Slope() > 0.0 {
        RealFacts.ProductPositive(leg.Slope(), t * t);
      } else {
        RealFacts.ProductPositive(-leg.Slope(), t * t);
      }
      assert clock + t - clock == t;
    }
  }

  // ----- The whole plan -----

  /** The volume that has arrived `t` seconds after `stages` begin. */
  function Cumulative(stages: seq<Stage>, previous: real, t: real): real
    requires FiniteStages(stages, previous)
  {
    if stages == [] then 0.0
    else
      var leg := LegOf(stages[0], previous);
      if t < leg.duration then leg.Area(Max(0.0, t))
      else leg.Mass() + Cumulative(stages[1..], leg.end, t - leg.duration)
  }

  function Volume(stages: seq<Stage>, previous: real): real
    requires FiniteStages(stages, previous)
  {
    if stages == [] then 0.0
    else
      var leg := LegOf(stages[0], previous);
      leg.Mass() + Volume(stages[1..], leg.end)
  }

  /** The guard of the leg in which `volume` is reached. */
  predicate ExactAt(stages: seq<Stage>, previous: real, volume: real)
    requires FiniteStages(stages, previous)
  {
    stages != [] &&
    var leg := LegOf(stages[0], previous);
    if volume < leg.Mass() then Exact(leg, volume) else ExactAt(stages[1..], leg.end, volume - leg.Mass())
  }

  /** `arrival` is a time within the stages, and just `volume` has arrived by then. */
  predicate Inverts(stages: seq<Stage>, previous: real, volume: real, clock: real, arrival: Arrival)
    requires FiniteStages(stages, previous)
  {
    && arrival.At?
    && 0.0 <= arrival.time - clock < TotalDuration(stages)
    && Cumulative(stages, previous, arrival.time - clock) == volume
  }

  lemma LegIsValid(stages: seq<Stage>, previous: real)
    requires FiniteStages(stages, previous) && stages != []
    ensures LegOf(stages[0], previous).Valid() && LegOf(stages[0], previous).duration == stages[0].duration
    ensures LegOf(stages[0], previous).Mass() >= 0.0
    ensures FiniteStages(stages[1..], LegOf(stages[0], previous).end)
  {
    var leg := LegOf(stages[0], previous);
    RealFacts.ProductNonnegative(leg.start + leg.end, leg.duration);
  }

  lemma {:induction false} DurationNonnegative(stages: seq<Stage>, previous: real)
    requires FiniteStages(stages, previous)
    ensures TotalDuration(stages) >= 0.0
  {
    if stages == [] {
    } else {
      LegIsValid(stages, previous);
      DurationNonnegative(stages[1..], LegOf(stages[0], previous).end);
    }
  }

  /** The volume never falls, starts at zero and ends at the total. */
  lemma {:induction false} CumulativeMonotone(stages: seq<Stage>, previous: real, t: real, u: real)
    requires FiniteStages(stages, previous) && 0.0 <= t <= u
    ensures 0.0 <= Cumulative(stages, previous, t) <= Cumulative(stages, previous, u) <= Volume(stages, previous)
    ensures Cumulative(stages, previous, 0.0) == 0.0
  {
    if stages == [] {
    } else {
      LegIsValid(stages, previous);
      var leg := LegOf(stages[0], previous);
      LegEnds(leg);
      if u < leg.duration {
        LegMonotone(leg, 0.0, t);
        LegMonotone(leg, t, u);
        LegMonotone(leg, u, leg.duration);
        CumulativeMonotone(stages[1..], leg.end, 0.0, 0.0);
      } else if t < leg.duration {
        LegMonotone(leg, 0.0, t);
        LegMonotone(leg, t, leg.duration);
        CumulativeMonotone(stages[1..], leg.end, u - leg.duration, u - leg.duration);
      } else {
        CumulativeMonotone(stages[1..], leg.end, t - leg.duration, u - leg.duration);
      }
    }
  }

  /** `t` and `u` lie in one stage, `u` possibly at its very end. */
  predicate SameStage(stages: seq<Stage>, t: real, u: real) {
    stages != [] &&
    if t < stages[0].duration then u <= stages[0].duration
    else SameStage(stages[1..], t - stages[0].duration, u - stages[0].duration)
  }

  /** The rate as `t` is approached from within the stage it ends or lies in. */
  function RateBefore(stages: seq<Stage>, previous: real, t: real): real
    requires FiniteStages(stages, previous)
  {
    if stages == [] then previous
    else
      var leg := LegOf(stages[0], previous);
      if t <= leg.duration then leg.RateAt(t) else RateBefore(stages[1..], leg.end, t - leg.duration)
  }

  lemma LegRateIsTarget(stages: seq<Stage>, previous: real, cap: int, t: real)
    requires FiniteStages(stages, previous) && stages != [] && 0.0 <= t < stages[0].duration
    ensures TargetFrom(stages, Finite(previous), cap, t).0 == Finite(LegOf(stages[0], previous).RateAt(t))
  {
    LegIsValid(stages, previous);
    var leg := LegOf(stages[0], previous);
    if !stages[0].kind.Ramp? {
      assert (leg.end - leg.start) * Share(t, leg.duration) == 0.0;
    }
  }

  /** The volume is the integral of the planned rate: over any stretch of one stage it grows by the
      trapezoid under `Target`'s rate, which is linear there. */
  lemma {:induction false} CumulativeIsIntegral(stages: seq<Stage>, previous: real, cap: int, t: real, u: real)
    requires FiniteStages(stages, previous) && 0.0 <= t < u && SameStage(stages, t, u)
    ensures TargetFrom(stages, Finite(previous), cap, t).0.Finite?
    ensures Cumulative(stages, previous, u) - Cumulative(stages, previous, t)
         == Trapezoid(TargetFrom(stages, Finite(previous), cap, t).0.value, RateBefore(stages, previous, u), u - t)
  {
    LegIsValid(stages, previous);
    var leg := LegOf(stages[0], previous);
    if t < leg.duration {
      LegTrapezoid(leg, t, u);
      LegEnds(leg);
      CumulativeMonotone(stages[1..], leg.end, 0.0, 0.0);
      LegRateIsTarget(stages, previous, cap, t);
    } else {
      CumulativeIsIntegral(stages[1..], leg.end, stages[0].cap, t - leg.duration, u - leg.duration);
      assert u - leg.duration - (t - leg.duration) == u - t;
    }
  }

  /** Away from the end of a stage the rate approached is the planned one. */
  lemma {:induction false} RateBeforeIsTarget(stages: seq<Stage>, previous: real, cap: int, t: real, u: real)
    requires FiniteStages(stages, previous) && 0.0 <= t < u && SameStage(stages, t, u) && !EndsAt(stages, u)
    ensures TargetFrom(stages, Finite(previous), cap, u).0 == Finite(RateBefore(stages, previous, u))
  {
    LegIsValid(stages, previous);
    var leg := LegOf(stages[0], previous);
    if u < leg.duration {
      LegRateIsTarget(stages, previous, cap, u);
    } else {
      RateBeforeIsTarget(stages[1..], leg.end, stages[0].cap, t - leg.duration, u - leg.duration);
    }
  }

  predicate EndsAt(stages: seq<Stage>, t: real) {
    stages != [] && (t == stages[0].duration || EndsAt(stages[1..], t - stages[0].duration))
  }

  // ----- Inversion -----

  lemma {:induction false} ArrivalNotBefore(stages: seq<Stage>, previous: real, volume: real, clock: real,
                                            sqrt: real -> real)
    requires FiniteStages(stages, previous) && IsSquareRoot(sqrt) && volume >= 0.0
    ensures var arrival := ArrivalFrom(stages, previous, volume, clock, sqrt); arrival.At? ==> arrival.time >= clock
  {
    if stages == [] {
    } else {
      LegIsValid(stages, previous);
      var leg := LegOf(stages[0], previous);
      if volume >= leg.Mass() {
        ArrivalNotBefore(stages[1..], leg.end, volume - leg.Mass(), clock + leg.duration, sqrt);
      } else if Exact(leg, volume) {
        var t := LegInverse(leg, volume, clock, sqrt);
      } else {
        LegInexact(leg, volume, clock, sqrt);
      }
    }
  }

  /** `arrival_time` inverts the integrated rate exactly when the leg the volume falls in is not a
      nearly flat one; a volume beyond the plan is never reached. */
  lemma {:induction false} ArrivalInverts(stages: seq<Stage>, previous: real, volume: real, clock: real,
                                          sqrt: real -> real)
    requires FiniteStages(stages, previous) && IsSquareRoot(sqrt) && volume >= 0.0
    ensures volume < Volume(stages, previous) ==>
              (Inverts(stages, previous, volume, clock, ArrivalFrom(stages, previous, volume, clock, sqrt))
               <==> ExactAt(stages, previous, volume))
    ensures ArrivalFrom(stages, previous, volume, clock, sqrt).Never? <==> volume >= Volume(stages, previous)
  {
    if stages == [] {
    } else {
      LegIsValid(stages, previous);
      var leg, rest := LegOf(stages[0], previous), stages[1..];
      DurationNonnegative(rest, leg.end);
      CumulativeMonotone(rest, leg.end, 0.0, 0.0);
      if volume >= leg.Mass() {
        ArrivalInverts(rest, leg.end, volume - leg.Mass(), clock + leg.duration, sqrt);
        ArrivalNotBefore(rest, leg.end, volume - leg.Mass(), clock + leg.duration, sqrt);
      } else if Exact(leg, volume) {
        var t := LegInverse(leg, volume, clock, sqrt);
      } else {
        LegInexact(leg, volume, clock, sqrt);
        match ArrivalFrom(stages, previous, volume, clock, sqrt)
        case At(time) =>
          if time - clock >= leg.duration {
            CumulativeMonotone(rest, leg.end, time - clock - leg.duration, time - clock - leg.duration);
          }
        case _ =>
      }
    }
  }

  /** No leg has a slope that is nonzero and treated as flat. */
  predicate NoneNearlyFlat(stages: seq<Stage>, previous: real)
    requires FiniteStages(stages, previous)
  {
    stages == [] ||
    var leg := LegOf(stages[0], previous);
    (leg.Slope() == 0.0 || !(-FLAT < leg.Slope() < FLAT)) && NoneNearlyFlat(stages[1..], leg.end)
  }

  lemma {:induction false} ExactEverywhere(stages: seq<Stage>, previous: real, volume: real)
    requires FiniteStages(stages, previous) && NoneNearlyFlat(stages, previous)
      && 0.0 <= volume < Volume(stages, previous)
    ensures ExactAt(stages, previous, volume)
  {
    if stages == [] {
    } else {
      LegIsValid(stages, previous);
      var leg := LegOf(stages[0], previous);
      if volume >= leg.Mass() {
        ExactEverywhere(stages[1..], leg.end, volume - leg.Mass());
      }
    }
  }

  /** For a plan without nearly flat ramps every volume below the total has its arrival time: it lies
      within the planned duration, and just that volume has arrived by then. */
  lemma PlanInverts(plan: LoadPlan, volume: real, sqrt: real -> real)
    requires plan.Valid() && !plan.Saturated() && IsSquareRoot(sqrt)
    requires NoneNearlyFlat(plan.PlannedStages(), plan.rate.value)
    requires 0.0 <= volume < Volume(plan.PlannedStages(), plan.rate.value)
    ensures Inverts(plan.PlannedStages(), plan.rate.value, volume, 0.0,
                    ArrivalFrom(plan.PlannedStages(), plan.rate.value, volume, 0.0, sqrt))
  {
    ExactEverywhere(plan.PlannedStages(), plan.rate.value, volume);
    ArrivalInverts(plan.PlannedStages(), plan.rate.value, volume, 0.0, sqrt);
  }

  /** Arrivals are never reordered: a larger volume strictly later. */
  lemma ArrivalsIncrease(plan: LoadPlan, volume: real, larger: real, sqrt: real -> real)
    requires plan.Valid() && !plan.Saturated() && IsSquareRoot(sqrt)
    requires NoneNearlyFlat(plan.PlannedStages(), plan.rate.value)
    requires 0.0 <= volume < larger < Volume(plan.PlannedStages(), plan.rate.value)
    ensures var first := ArrivalFrom(plan.PlannedStages(), plan.rate.value, volume, 0.0, sqrt);
            var second := ArrivalFrom(plan.PlannedStages(), plan.rate.value, larger, 0.0, sqrt);
            first.At? && second.At? && first.time < second.time
  {
    PlanInverts(plan, volume, sqrt);
    PlanInverts(plan, larger, sqrt);
    var first := ArrivalFrom(plan.PlannedStages(), plan.rate.value, volume, 0.0, sqrt).time;
    var second := ArrivalFrom(plan.PlannedStages(), plan.rate.value, larger, 0.0, sqrt).time;
    if second <= first {
      CumulativeMonotone(plan.PlannedStages(), plan.rate.value, second, first);
    }
  }

  /** A ramp from rest to a very low rate divides by zero even for the first arrival. */
  lemma NearlyFlatRampDivides(sqrt: real -> real)
    ensures var plan := LoadPlan(Finite(0.0), 1, 1.0, 0.0, [Stage(1.0, Finite(FLAT / 2.0), 1, Ramp)], true, None, 1);
            && plan.Valid() && 0.0 < Volume(plan.PlannedStages(), 0.0)
            && ArrivalFrom(plan.PlannedStages(), 0.0, 0.0, 0.0, sqrt) == ZeroDivision
  {
    var stage := Stage(1.0, Finite(FLAT / 2.0), 1, Ramp);
    assert LegOf(stage, 0.0).Slope() == FLAT / 2.0;
    assert [stage][1..] == [];
  }
}
