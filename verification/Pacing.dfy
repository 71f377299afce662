/** When the next request may be sent: arrivals keep their distance through every change of rate,
    every full period and every stall. */
module Pacing {
  import opened Wrappers
  import opened LoadPlans
  import RealFacts

  /** The instant from which a send is due; a rate of zero never makes one due. */
  datatype Due = At(time: real) | Never

  datatype Pace = Pace(due: Due, lastDispatch: Option<real>, lastRate: Option<Rate>, wasFull: bool)

  /** An admitted request: when the loop turned, and the rate, cap and requests in flight it saw. */
  datatype Admission = Admission(at: real, rate: Rate, cap: int, inflight: int)

  const UNPACED := Pace(At(0.0), None, None, false)

  predicate IsDue(due: Due, t: real) { due.At? && due.time <= t }

  predicate NotBefore(due: Due, t: real) { due.At? ==> t <= due.time }

  function Postponed(due: Due, t: real): Due {
    if due.At? then At(Max(due.time, t)) else Never
  }

  function Interval(rate: real): real
    requires rate != 0.0
  {
    1.0 / rate
  }

  /** One interval after `t`. */
  function After(t: real, rate: Rate): Due
  {
    match rate
    case Inf => At(t)
    case Finite(r) => if r == 0.0 then Never else At(t + Interval(r))
  }

  /** Account for a rate that differs from the last one seen. */
  function Retimed(p: Pace, elapsed: real, rate: Rate): Pace
  {
    if p.lastRate == Some(rate) then p
    else
      p.(due := if p.lastDispatch.None? then At(elapsed) else Postponed(After(p.lastDispatch.value, rate), elapsed),
         lastRate := Some(rate))
  }

  /** Account for the slots: time spent full is not made up for. */
  function Refreshed(p: Pace, elapsed: real, full: bool): Pace {
    p.(due := if p.wasFull && !full then Postponed(p.due, elapsed) else p.due, wasFull := full)
  }

  predicate MaySend(p: Pace, elapsed: real, rate: Rate, full: bool) {
    !full && rate != Finite(0.0) && IsDue(p.due, elapsed)
  }

  function Sent(p: Pace, elapsed: real, next: Due): Pace {
    p.(lastDispatch := Some(elapsed), due := next)
  }

  // ----- Distance between arrivals -----

  ghost predicate Spaced(a: Admission, b: Admission, constant: bool) {
    && a.at <= b.at
    && (constant && b.rate.Finite? ==> b.rate.value > 0.0 && b.at - a.at >= Interval(b.rate.value))
  }

  ghost predicate AllSpaced(log: seq<Admission>, constant: bool) {
    forall i | 0 <= i < |log| - 1 :: Spaced(log[i], log[i + 1], constant)
  }

  ghost predicate Paced(p: Pace, log: seq<Admission>, constant: bool, clock: real) {
    && AllSpaced(log, constant) && 0.0 <= clock && NotBefore(p.due, 0.0)
    && p.lastDispatch == (if log == [] then None else Some(log[|log| - 1].at))
    && (p.lastRate.Some? && p.lastRate.value.Finite? ==> p.lastRate.value.value >= 0.0)
    && (log != [] ==>
          && p.lastDispatch.value <= clock && p.lastRate.Some? && NotBefore(p.due, p.lastDispatch.value)
          && (constant ==> NoSooner(p.due, After(p.lastDispatch.value, p.lastRate.value))))
  }

  /** `due` is no earlier than `bound`. */
  predicate NoSooner(due: Due, bound: Due) {
    due.At? ==> bound.At? && bound.time <= due.time
  }

  lemma IntervalPositive(rate: real)
    requires rate > 0.0
    ensures Interval(rate) > 0.0 && Interval(rate) * rate == 1.0
  {
  }

  lemma RetimedPaced(p: Pace, log: seq<Admission>, constant: bool, clock: real, elapsed: real, rate: Rate)
    requires Paced(p, log, constant, clock) && clock <= elapsed && (rate.Finite? ==> rate.value >= 0.0)
    ensures Paced(Retimed(p, elapsed, rate), log, constant, elapsed)
  {
  }

  lemma RefreshedPaced(p: Pace, log: seq<Admission>, constant: bool, clock: real, elapsed: real, full: bool)
    requires Paced(p, log, constant, clock) && clock <= elapsed
    ensures Paced(Refreshed(p, elapsed, full), log, constant, elapsed)
  {
  }

  lemma SentPaced(p: Pace, log: seq<Admission>, constant: bool, elapsed: real, e: Admission, next: Due)
    requires Paced(p, log, constant, elapsed) && e.at == elapsed && p.lastRate == Some(e.rate)
    requires e.rate != Finite(0.0) && IsDue(p.due, elapsed)
    requires NotBefore(next, elapsed) && (constant ==> next == After(elapsed, e.rate))
    ensures Paced(Sent(p, elapsed, next), log + [e], constant, elapsed)
  {
    forall i | 0 <= i < |log + [e]| - 1 ensures Spaced((log + [e])[i], (log + [e])[i + 1], constant) {
      if i < |log| - 1 {
        assert Spaced(log[i], log[i + 1], constant);
      }
    }
  }

  lemma PacedLater(p: Pace, log: seq<Admission>, constant: bool, clock: real, later: real)
    requires Paced(p, log, constant, clock) && clock <= later
    ensures Paced(p, log, constant, later)
  {
  }

  // ----- No burst in any interval -----

  predicate InInterval(e: Admission, from: real, to: real) { from <= e.at <= to }

  function CountIn(log: seq<Admission>, from: real, to: real): nat {
    if log == [] then 0
    else CountIn(log[..|log| - 1], from, to) + if InInterval(log[|log| - 1], from, to) then 1 else 0
  }

  /** The instant of the last admission in the interval. */
  function LastIn(log: seq<Admission>, from: real, to: real): real {
    if log == [] then from
    else if InInterval(log[|log| - 1], from, to) then log[|log| - 1].at else LastIn(log[..|log| - 1], from, to)
  }

  ghost predicate RatesWithin(log: seq<Admission>, from: real, to: real, limit: real) {
    forall e <- log :: InInterval(e, from, to) ==> e.rate.Finite? && e.rate.value <= limit
  }

  lemma {:induction false} NoneBefore(log: seq<Admission>, from: real, to: real)
    requires AllSpaced(log, true) && (log != [] ==> log[|log| - 1].at < from)
    ensures CountIn(log, from, to) == 0
  {
    if log == [] {
    } else {
      var rest := log[..|log| - 1];
      SpacedPrefix(log);
      assert rest != [] ==> Spaced(rest[|rest| - 1], log[|log| - 1], true);
      NoneBefore(rest, from, to);
    }
  }

  lemma SpacedPrefix(log: seq<Admission>)
    requires AllSpaced(log, true) && log != []
    ensures AllSpaced(log[..|log| - 1], true)
  {
    var rest := log[..|log| - 1];
    forall i | 0 <= i < |rest| - 1 ensures Spaced(rest[i], rest[i + 1], true) {
      assert Spaced(log[i], log[i + 1], true);
    }
  }

  /** How many intervals of the fastest rate fit between two instants. */
  function Room(from: real, to: real, limit: real): real { (to - from) * limit }

  lemma RoomAdds(a: real, b: real, c: real, limit: real)
    requires limit > 0.0
    ensures Room(a, b, limit) + Room(b, c, limit) == Room(a, c, limit)
    ensures a <= b ==> Room(a, b, limit) >= 0.0
  {
    RealFacts.Distribute(limit, b - a, c - b);
    if a <= b { RealFacts.ProductNonnegative(b - a, limit); }
  }

  lemma SlowerWaitsLonger(a: Admission, b: Admission, limit: real)
    requires Spaced(a, b, true) && b.rate.Finite? && b.rate.value <= limit
    ensures Room(a.at, b.at, limit) >= 1.0
  {
    var rate, gap := b.rate.value, b.at - a.at;
    IntervalPositive(rate);
    RealFacts.ScaleOrder(rate, limit, Interval(rate));
    RealFacts.ScaleOrder(Interval(rate), gap, limit);
  }

  /** After the first of them, the admissions in an interval take up its time one interval each. */
  lemma {:induction false} AdmissionsTakeTime(log: seq<Admission>, from: real, to: real, limit: real)
    requires AllSpaced(log, true) && RatesWithin(log, from, to, limit) && limit > 0.0 && from <= to
    ensures from <= LastIn(log, from, to) <= to
    ensures CountIn(log, from, to) as real <= 1.0 + Room(from, LastIn(log, from, to), limit)
    ensures log != [] && InInterval(log[|log| - 1], from, to) ==> LastIn(log, from, to) == log[|log| - 1].at
  {
    RoomAdds(from, from, from, limit);
    if log == [] {
    } else {
      var rest, last := log[..|log| - 1], log[|log| - 1];
      SpacedPrefix(log);
      assert forall e <- rest :: e in log;
      AdmissionsTakeTime(rest, from, to, limit);
      if InInterval(last, from, to) {
        if rest == [] || rest[|rest| - 1].at < from {
          NoneBefore(rest, from, to);
          RoomAdds(from, last.at, last.at, limit);
        } else {
          var before := rest[|rest| - 1];
          assert Spaced(before, last, true) && last in log;
          SlowerWaitsLonger(before, last, limit);
          RoomAdds(from, before.at, last.at, limit);
        }
      }
    }
  }

  /** No burst: an interval of length L under a maximum rate R admits at most 1 + R * L requests. */
  lemma NoBurst(log: seq<Admission>, from: real, to: real, limit: real)
    requires AllSpaced(log, true) && RatesWithin(log, from, to, limit) && limit > 0.0 && from <= to
    ensures CountIn(log, from, to) as real <= 1.0 + (to - from) * limit
  {
    AdmissionsTakeTime(log, from, to, limit);
    RoomAdds(from, LastIn(log, from, to), to, limit);
    RoomAdds(LastIn(log, from, to), to, to, limit);
  }
}
