/** The windows a run is reduced over, one by one. */
module WindowLaws {
  import opened Wrappers
  import opened LoadPlans
  import LoadControllers
  import opened Reduction
  import Schedulers
  import opened WindowAssembly

  // ----- With a drive -----

  predicate HeldWindow(w: RunWindow) { w.kind == Staged(Hold) }

  /** The time the load was limited in hold windows, whatever the windows are grouped into. */
  lemma {:induction false} HoldLimitedAdds(some: seq<RunWindow>, others: seq<RunWindow>)
    ensures HoldLimited([]) == 0.0 && HoldLimited(some + others) == HoldLimited(some) + HoldLimited(others)
    ensures forall w :: HoldLimited([w]) == if HeldWindow(w) then w.limitedS else 0.0
    decreases |others|
  {
    assert forall w: RunWindow :: [w][..0] == [];
    if others == [] {
      assert some + others == some;
    } else {
      var n := |others| - 1;
      var all := some + others;
      assert all[..|all| - 1] == some + others[..n] && all[|all| - 1] == others[n];
      HoldLimitedAdds(some, others[..n]);
    }
  }

  /** First comes the measurement: from the first hold to the end of the load, complete if the load met its deadline
      and some hold its length, limited for as long as its holds were. */
  lemma DrivenMeasurement(a: Inputs)
    requires a.plan.Valid() && a.drive.Some?
    ensures var w, d, end := AssembledWindows(a)[0], a.drive.value,
                             if a.measured.Some? then a.measured.value else a.plan.Duration();
      && w.kind.Measurement? && w.start == d.measuredFrom && w.level.None?
      && w.end == (if end >= d.measuredFrom then end else d.measuredFrom)
      && (w.complete <==> d.deadline && exists v <- d.windows :: HeldWindow(v) && v.complete)
      && w.limitedS == HoldLimited(d.windows)
  {
  }

  /** Then what was driven, its last window kept open until the cooldown was over if that is known; else, if its
      beginning and end are, the cooldown by itself; and last the observation, which is complete if the load met its
      deadline and nothing was cut. */
  lemma DrivenRest(a: Inputs)
    requires a.plan.Valid() && a.drive.Some?
    ensures var ws, d := AssembledWindows(a)[1..], a.drive.value;
      var n := |d.windows|;
      var kept := a.cooldownEnd.Some? && n > 0;
      var cooled := !kept && a.cooldownStart.Some? && a.cooldownEnd.Some?;
      var m := n + if cooled then 1 else 0;
      && |ws| == m + (if a.observed.Some? then 1 else 0)
      && (forall i | 0 <= i < n ::
            ws[i] == if kept && i == n - 1 then d.windows[i].(end := a.cooldownEnd.value) else d.windows[i])
      && (cooled ==>
            ws[n] == RunWindow(Drain, a.cooldownStart.value, a.cooldownEnd.value, true, None, 0.0))
      && (a.observed.Some? ==> ObservedIs(ws[m], a.observed.value, d.deadline && !d.interrupted))
  {
    assert DrainWindows(a) == [];
  }

  /** From the earliest sample, or from zero if that is earlier. */
  predicate ObservedIs(w: RunWindow, observed: (real, real), complete: bool) {
    && w.kind.Observation? && w.start == (if observed.0 < 0.0 then observed.0 else 0.0) && w.end == observed.1
    && w.complete == complete && w.level.None? && w.limitedS == 0.0
  }

  // ----- Without one -----

  /** The measurement is then from zero on, complete if it lasted as long as planned; and the observation always is. */
  lemma UndrivenMeasurement(a: Inputs)
    requires a.plan.Valid() && a.drive.None?
    ensures var w, end := AssembledWindows(a)[0], if a.measured.Some? then a.measured.value else a.plan.Duration();
      && w.kind.Measurement? && w.start == 0.0 && w.end == (if end >= 0.0 then end else 0.0)
      && (w.complete <==> end >= a.plan.Duration()) && w.level.None? && w.limitedS == 0.0
    ensures a.observed.Some? ==>
      ObservedIs(AssembledWindows(a)[|AssembledWindows(a)| - 1], a.observed.value, true)
  {
  }

  /** Between them come the stages, a cooldown of its own if its beginning and end are known, and the drain. */
  lemma UndrivenOrder(a: Inputs)
    requires a.plan.Valid() && a.drive.None?
    ensures var end := if a.measured.Some? then a.measured.value else a.plan.Duration();
      var stages := ClippedStages(a.plan.PlannedStages(), 0.0, end);
      var cooldown := if a.cooldownStart.Some? && a.cooldownEnd.Some?
        then [RunWindow(Drain, a.cooldownStart.value, a.cooldownEnd.value, true, None, 0.0)] else [];
      AssembledWindows(a)
      == [AssembledWindows(a)[0]] + stages + cooldown + DrainWindows(a)
         + if a.observed.None? then [] else [AssembledWindows(a)[|AssembledWindows(a)| - 1]]
  {
  }

  /** Each stage that begins before the end of the measurement has a window, up to that end, at its planned level:
      its rate, or its cap if the rate is infinite. */
  lemma {:induction false} StageIsClipped(before: seq<Stage>, s: Stage, after: seq<Stage>, clock: real, limit: real)
    requires forall q <- before + [s] + after :: q.Valid()
    requires clock + TotalDuration(before) < limit
    ensures var windows := ClippedStages(before + [s] + after, clock, limit);
      var start := clock + TotalDuration(before);
      && |before| < |windows|
      && windows[|before|].kind == Staged(s.kind) && windows[|before|].start == start
      && windows[|before|].end == (if start + s.duration <= limit then start + s.duration else limit)
      && (windows[|before|].complete <==> start + s.duration <= limit)
      && windows[|before|].level == Some(if s.rate.Inf? then s.cap as real else s.rate.value)
      && windows[|before|].limitedS == 0.0
    decreases |before|
  {
    var stages := before + [s] + after;
    if before == [] {
      assert stages[0] == s && s in stages && s.Valid();
    } else {
      assert stages[0] == before[0] && stages[1..] == before[1..] + [s] + after;
      assert stages[0] in stages && stages[0].Valid();
      forall q <- before[1..] ensures q.Valid() { assert q in stages; }
      RestNonnegative(before[1..]);
      StageIsClipped(before[1..], s, after, clock + before[0].duration, limit);
    }
  }

  /** A stage that would begin at or after the end of the measurement has none. */
  lemma {:induction false} ClippedAreStarted(stages: seq<Stage>, clock: real, limit: real)
    requires forall q <- stages :: q.Valid()
    ensures forall w <- ClippedStages(stages, clock, limit) :: w.start < limit && w.end <= limit
  {
    if stages == [] {
    } else {
      assert stages[0].Valid();
      ClippedAreStarted(stages[1..], clock + stages[0].duration, limit);
    }
  }

  /** If something finished after the measurement a drain lasts until just after the latest of it. */
  lemma UndrivenDrain(a: Inputs)
    requires a.plan.Valid() && a.drive.None?
    ensures var end := if a.measured.Some? then a.measured.value else a.plan.Duration();
      && (DrainWindows(a) != [] <==> exists i | 0 <= i < |a.finishes| :: Late(a, i))
      && (DrainWindows(a) != [] ==>
            && |DrainWindows(a)| == 1 && DrainWindows(a)[0].kind.Drain? && DrainWindows(a)[0].start == end
            && DrainWindows(a)[0].complete && DrainWindows(a)[0].level.None? && DrainWindows(a)[0].limitedS == 0.0
            && exists i | 0 <= i < |a.finishes| ::
                 Late(a, i) && DrainWindows(a)[0].end == a.finishes[i].value + 0.000000000001)
  {
    var end := a.MeasuredEnd();
    DrainIsLatest(a.finishes, end);
    LatestIsOne(a.finishes, end);
    if DrainEnd(a.finishes, end) > end {
      var i :| 0 <= i < |a.finishes| && a.finishes[i].Some? && a.finishes[i].value != 0.0
               && a.finishes[i].value == DrainEnd(a.finishes, end);
      assert Late(a, i);
    }
  }

  lemma {:induction false} LatestIsOne(finishes: seq<Option<real>>, end: real)
    ensures DrainEnd(finishes, end) == end
         || exists i | 0 <= i < |finishes| ::
              finishes[i].Some? && finishes[i].value != 0.0 && finishes[i].value == DrainEnd(finishes, end)
  {
    if finishes == [] {
    } else {
      var n := |finishes| - 1;
      LatestIsOne(finishes[..n], end);
      assert forall i | 0 <= i < n :: finishes[..n][i] == finishes[i];
    }
  }

  // ----- What the scheduler hands over -----

  /** Its stage windows as the controller kept them, at their planned level, and its cooldown. */
  lemma HandedOver(s: Schedulers.State)
    requires s.measuredFrom.Some? && s.cooldown.Some? && s.control.Shaped()
    ensures var d, n := FactsOf(s), |s.control.windows|;
      && Some(d.measuredFrom) == s.measuredFrom && |d.windows| == n + 1
      && (d.deadline <==> s.stop.reason.Deadline?) && (d.interrupted <==> s.stop.interrupted > 0)
      && (forall i | 0 <= i < n :: StageWindowIs(d.windows[i], s.control.windows[i], s.control.stages))
      && d.windows[n].kind.Drain? && d.windows[n].start == s.cooldown.value.start
      && d.windows[n].end == s.cooldown.value.end && d.windows[n].complete == s.cooldown.value.complete
      && d.windows[n].level.None? && d.windows[n].limitedS == 0.0
  {
  }

  predicate StageWindowIs(v: RunWindow, w: LoadControllers.Window, stages: seq<Stage>) {
    && v.kind == Staged(w.kind) && v.start == w.start && v.end == w.end && v.complete == w.complete
    && v.limitedS == w.limitedS
    && (w.index < |stages| ==>
          v.level == Some(if stages[w.index].rate.Inf? then stages[w.index].cap as real
                          else stages[w.index].rate.value))
  }

  /** A run that has left is assembled from what it hands over, its own plan and measurement. */
  lemma DrivenInputsAre(s: Schedulers.State, until: real)
    requires s.measuredFrom.Some? && s.cooldown.Some?
    ensures var a := DrivenInputs(s, until);
      && a.plan == s.plan && a.drive == Some(FactsOf(s)) && a.measured == s.measured
      && a.cooldownEnd == Some(until) && a.observed.None?
  {
  }

  /** What the caveats depend on is told from the same windows. */
  lemma LimitedSpansAre(plan: LoadPlan, windows: seq<RunWindow>)
    ensures var facts := LoadFactsOf(plan, windows);
      && (facts.saturated <==> plan.rate.Inf?) && |facts.windows| == |windows|
      && forall i | 0 <= i < |windows| ::
           && facts.windows[i].start == windows[i].start && facts.windows[i].end == windows[i].end
           && facts.windows[i].limitedS == windows[i].limitedS
  {
  }
}
