/** What every run of the reconciler keeps, and what all its complete worksheets have in common,
    whatever the order, the failures, the crashes and the restarts. */
module ReconcileRuns {
  import opened Wrappers
  import opened Worksheets
  import opened Checkpoints
  import opened Reconciler
  import opened ReconcileSteps

  ghost predicate Kept(base: Sheet, p: Producers, s: State) {
    Canonical(base, p, s.sheet) && Tracked(s) && Recoverable(base, p, s.saved)
  }

  ghost predicate Sound(exp: Experiment, p: Producers, s: State) {
    Base(Built(exp)) && Built(exp).hash == exp.hash && Kept(Built(exp), p, s)
  }

  lemma InitiallySound(exp: Experiment, p: Producers)
    ensures Sound(exp, p, Initially(exp))
  {
    BuiltIsPending(exp);
    BaseCanonical(Built(exp), p);
  }

  // ----- Every step -----

  lemma ProvideKept(base: Sheet, p: Producers, s: State, key: string, error: Option<string>)
    requires Canonical(base, p, s.sheet) && Tracked(s) && s.phase.Provisioning? && key in s.phase.running
      && key in s.sheet.provisions
    ensures Canonical(base, p, Provide(p, s, key, error).sheet) && Tracked(Provide(p, s, key, error))
  {
    assert RightProvision(p, key, s.sheet.provisions[key]);
    ProvisionReplaced(base, p, s.sheet, key, Provide(p, s, key, error).sheet.provisions[key]);
    ProvideTracked(p, s, key, error);
  }

  lemma StartsRowKept(base: Sheet, p: Producers, s: State, k: RowKey)
    requires Canonical(base, p, s.sheet) && Tracked(s)
    requires s.phase.Filling? && k in s.phase.chains && s.phase.chains[k].Fresh? && k in s.sheet.rows
    ensures Tracked(WithChain(s, k, Started(s.sheet, k)))
  {
    assert RowInPlace(base, p, s.sheet, k);
    StartsRowTracked(s, k);
  }

  lemma SolveKept(base: Sheet, p: Producers, s: State, k: RowKey, error: Option<string>)
    requires Canonical(base, p, s.sheet) && Tracked(s) && CanSolve(s, k)
    ensures Canonical(base, p, Solve(p, s, k, error).sheet) && Tracked(Solve(p, s, k, error))
  {
    var key := s.sheet.rows[k].seed.armKey;
    assert RightProvision(p, key, s.sheet.provisions[key]) && Placed(s, k, Solving);
    SolveCanonical(base, p, s.sheet, k, error);
    SolveMoves(p, s, k, error);
    match error
    case None => SolveSucceedsTracked(p, s, k);
    case Some(e) => SolveFailsTracked(p, s, k, e);
  }

  lemma ScoreKept(base: Sheet, p: Producers, s: State, k: RowKey, name: string, error: Option<string>)
    requires Canonical(base, p, s.sheet) && Tracked(s) && s.phase.Filling? && k in s.phase.chains && k in s.sheet.rows
    requires s.phase.chains[k].Scoring? && name in s.phase.chains[k].todo
    ensures Canonical(base, p, Score(p, s, k, name, error).sheet) && Tracked(Score(p, s, k, name, error))
  {
    assert Placed(s, k, s.phase.chains[k]);
    ScoreCanonical(base, p, s.sheet, k, name, error);
    ScoreTracked(p, s, k, name, error);
  }

  lemma BeginsTracked(s: State)
    ensures Tracked(s.(phase := Provisioning(PendingProvisions(s.sheet)), calls := 0, failed := {}))
  {
  }

  lemma StartsRowsTracked(s: State)
    requires Tracked(s) && s.phase.Provisioning? && s.phase.running == {}
    ensures Tracked(s.(phase := Filling(map k <- s.sheet.rows :: Fresh)))
  {
    var t := s.(phase := Filling(map k <- s.sheet.rows :: Fresh));
    assert AllPlaced(t, t.phase.chains);
    assert FailedRowsExist(t);
  }

  lemma SettledRowIsOk(s: State, k: RowKey, c: Chain)
    requires Formed(s.sheet) && k in s.sheet.rows && Placed(s, k, c) && Settled(c) && s.failed == {}
    requires forall key <- s.sheet.provisions :: s.sheet.provisions[key].state.Ok?
    ensures s.sheet.rows[k].solve.state.Ok? && forall name <- s.sheet.metricNames :: Scored(s.sheet.rows[k], name)
  {
    assert Solvable(s.sheet, k);
  }

  lemma FailedIsNotOk(s: State, g: Gap)
    requires Tracked(s) && s.phase.Filling? && g in s.failed
    requires forall k <- s.phase.chains :: Settled(s.phase.chains[k])
    ensures !AllOk(s.sheet)
  {
    if !g.OfProvision? {
      assert Placed(s, g.k, s.phase.chains[g.k]);
    }
  }

  /** When every chain has settled, the worksheet is complete exactly if nothing failed. */
  lemma FinishTracked(s: State)
    requires Formed(s.sheet) && Tracked(s) && s.phase.Filling?
    requires forall k <- s.phase.chains :: Settled(s.phase.chains[k])
    ensures Complete(s.sheet) <==> s.failed == {}
  {
    CompleteIffAllOk(s.sheet);
    if s.failed == {} {
      forall k <- s.sheet.rows
        ensures s.sheet.rows[k].solve.state.Ok? && forall name <- s.sheet.metricNames :: Scored(s.sheet.rows[k], name)
      {
        SettledRowIsOk(s, k, s.phase.chains[k]);
      }
      assert AllOk(s.sheet);
    } else {
      var g :| g in s.failed;
      FailedIsNotOk(s, g);
    }
  }

  /** The steps that fill cells. */
  lemma FillKept(exp: Experiment, base: Sheet, p: Producers, s: State, step: Step)
    requires Base(base) && Canonical(base, p, s.sheet) && Tracked(s) && Enabled(exp, s, step)
    requires step.Provides? || step.Solves? || step.Scores?
    ensures var t := Next(exp, p, s, step); Canonical(base, p, t.sheet) && Tracked(t) && t.saved == s.saved
  {
    if step.Provides? {
      ProvideKept(base, p, s, step.key, step.error);
    } else if step.Solves? {
      SolveKept(base, p, s, step.k, step.error);
    } else {
      ScoreKept(base, p, s, step.k, step.name, step.error);
    }
  }

  /** The steps that only move chains on. */
  lemma MoveKept(exp: Experiment, base: Sheet, p: Producers, s: State, step: Step)
    requires Base(base) && Canonical(base, p, s.sheet) && Tracked(s) && Enabled(exp, s, step)
    requires step.Begins? || step.StartsRows? || step.StartsRow? || step.Finishes?
    ensures var t := Next(exp, p, s, step); t.sheet == s.sheet && Tracked(t) && t.saved == s.saved
  {
    if step.Begins? {
      BeginsTracked(s);
    } else if step.StartsRows? {
      StartsRowsTracked(s);
    } else if step.StartsRow? {
      StartsRowKept(base, p, s, step.k);
    } else {
      CanonicalFormed(base, p, s.sheet);
      FinishTracked(s);
    }
  }

  lemma SaveRecoverable(base: Sheet, p: Producers, sheet: Sheet, lines: seq<Record>)
    requires Canonical(base, p, sheet) && Read(lines) == Some(sheet)
    ensures Recoverable(base, p, Some(lines))
  {
  }

  lemma SavesRecoverable(base: Sheet, p: Producers, sheet: Sheet, lines: seq<Record>)
    requires Formed(base) && Canonical(base, p, sheet) && Checkpoints.Saves(sheet, lines)
    ensures Recoverable(base, p, Some(lines))
  {
    CanonicalFormed(base, p, sheet);
    SavedReads(sheet, lines);
    SaveRecoverable(base, p, sheet, lines);
  }

  /** Where the rows stand does not depend on what has been saved. */
  lemma TrackedSaved(s: State, saved: Option<seq<Record>>)
    requires Tracked(s)
    ensures Tracked(s.(saved := saved))
  {
    var t := s.(saved := saved);
    if s.phase.Filling? {
      forall k <- s.phase.chains ensures k in t.sheet.rows && Placed(t, k, s.phase.chains[k]) {
        assert Placed(s, k, s.phase.chains[k]);
      }
      assert AllPlaced(t, t.phase.chains) && FailedRowsExist(t) && ProvisionsPlaced(t, {});
    }
  }

  lemma SavesSound(exp: Experiment, p: Producers, s: State, lines: seq<Record>)
    requires Sound(exp, p, s) && Checkpoints.Saves(s.sheet, lines)
    ensures Sound(exp, p, s.(saved := Some(lines)))
  {
    SavesRecoverable(Built(exp), p, s.sheet, lines);
    TrackedSaved(s, Some(lines));
  }

  lemma RestartedRight(exp: Experiment, base: Sheet, p: Producers, s: State)
    requires base == Built(exp) && Canonical(base, p, base) && Recoverable(base, p, s.saved)
    ensures Canonical(base, p, Restarted(exp, s).sheet) && Restarted(exp, s).phase.Off?
      && Restarted(exp, s).saved == s.saved
  {
  }

  lemma RestartSound(exp: Experiment, p: Producers, s: State, step: Step)
    requires Sound(exp, p, s) && (step.Crashes? || step.Discards?)
    ensures Sound(exp, p, Next(exp, p, s, step))
  {
    BaseCanonical(Built(exp), p);
    RestartedRight(exp, Built(exp), p, s);
  }

  lemma NextSound(exp: Experiment, p: Producers, s: State, step: Step)
    requires Sound(exp, p, s) && Enabled(exp, s, step)
    ensures Sound(exp, p, Next(exp, p, s, step))
  {
    if step.Saves? {
      SavesSound(exp, p, s, step.lines);
    } else if step.Crashes? || step.Discards? {
      RestartSound(exp, p, s, step);
    } else if step.Provides? || step.Solves? || step.Scores? {
      FillKept(exp, Built(exp), p, s, step);
    } else {
      MoveKept(exp, Built(exp), p, s, step);
    }
  }

  // ----- Whole runs -----

  ghost predicate IsRun(exp: Experiment, p: Producers, steps: seq<Step>, states: seq<State>) {
    && |states| == |steps| + 1 && states[0] == Initially(exp)
    && forall i | 0 <= i < |steps| ::
       Enabled(exp, states[i], steps[i]) && states[i + 1] == Next(exp, p, states[i], steps[i])
  }

  lemma {:induction false} RunsSound(exp: Experiment, p: Producers, steps: seq<Step>, states: seq<State>, n: nat)
    requires IsRun(exp, p, steps, states) && n < |states|
    ensures Sound(exp, p, states[n])
  {
    if n == 0 {
      InitiallySound(exp, p);
    } else {
      RunsSound(exp, p, steps, states, n - 1);
      NextSound(exp, p, states[n - 1], steps[n - 1]);
    }
  }

  /** A run so far, and where it stands. */
  ghost predicate IsRunAt(exp: Experiment, p: Producers, steps: seq<Step>, states: seq<State>, s: State) {
    IsRun(exp, p, steps, states) && states[|states| - 1] == s
  }

  lemma OneMore(exp: Experiment, p: Producers, steps: seq<Step>, states: seq<State>, s: State, step: Step)
    requires IsRunAt(exp, p, steps, states, s) && Enabled(exp, s, step)
    ensures IsRunAt(exp, p, steps + [step], states + [Next(exp, p, s, step)], Next(exp, p, s, step))
  {
    var t := Next(exp, p, s, step);
    var longer, after := steps + [step], states + [t];
    forall i | 0 <= i < |longer|
      ensures Enabled(exp, after[i], longer[i]) && after[i + 1] == Next(exp, p, after[i], longer[i])
    {
      if i < |steps| {
        assert after[i] == states[i] && after[i + 1] == states[i + 1] && longer[i] == steps[i];
      }
    }
  }

  lemma NextNotRefused(exp: Experiment, p: Producers, s: State, step: Step)
    requires Sound(exp, p, s) && Enabled(exp, s, step) && !s.phase.Refused?
    ensures !Next(exp, p, s, step).phase.Refused?
  {
    if step.Crashes? {
      BaseCanonical(Built(exp), p);
      RestartedRight(exp, Built(exp), p, s);
    }
  }

  /** Whatever is saved when, and wherever it crashes, a new process can read what it finds. */
  lemma {:induction false} NeverRefused(exp: Experiment, p: Producers, steps: seq<Step>, states: seq<State>, n: nat)
    requires IsRun(exp, p, steps, states) && n < |states|
    ensures !states[n].phase.Refused?
  {
    if n == 0 {
    } else {
      NeverRefused(exp, p, steps, states, n - 1);
      RunsSound(exp, p, steps, states, n - 1);
      NextNotRefused(exp, p, states[n - 1], steps[n - 1]);
    }
  }

  /** Without arms or cases there are no cells in any reachable worksheet. */
  lemma NoRowsNoCells(exp: Experiment, p: Producers, steps: seq<Step>, states: seq<State>, n: nat)
    requires (exp.arms == [] || exp.cases == []) && IsRun(exp, p, steps, states) && n < |states|
    ensures states[n].sheet.rows == map[] && states[n].sheet.provisions == map[]
  {
    RunsSound(exp, p, steps, states, n);
    BuiltIsPending(exp);
    assert Built(exp).rows.Keys == {} && Built(exp).provisions.Keys == {};
  }

  /** Any two complete worksheets reached from one experiment are identical, whatever the runs that
      led there did in between. */
  lemma Confluent(exp: Experiment, p: Producers, steps1: seq<Step>, states1: seq<State>, n1: nat, steps2: seq<Step>,
                  states2: seq<State>, n2: nat)
    requires IsRun(exp, p, steps1, states1) && n1 < |states1| && Complete(states1[n1].sheet)
    requires IsRun(exp, p, steps2, states2) && n2 < |states2| && Complete(states2[n2].sheet)
    ensures states1[n1].sheet == states2[n2].sheet == Filled(Built(exp), p)
  {
    RunsSound(exp, p, steps1, states1, n1);
    RunsSound(exp, p, steps2, states2, n2);
    CompleteIsFilled(Built(exp), p, states1[n1].sheet);
    CompleteIsFilled(Built(exp), p, states2[n2].sheet);
  }

  /** In every reachable worksheet a score is there only if its answer is, an answer only if its
      provision is, and the worksheet is complete exactly when every cell is there. */
  lemma DependencyOrder(exp: Experiment, p: Producers, steps: seq<Step>, states: seq<State>, n: nat)
    requires IsRun(exp, p, steps, states) && n < |states|
    ensures var sheet := states[n].sheet;
      && (forall k <- sheet.rows, name <- sheet.rows[k].scores ::
         sheet.rows[k].scores[name].state.Ok? ==> sheet.rows[k].solve.state.Ok?)
      && (forall k <- sheet.rows :: sheet.rows[k].solve.state.Ok? ==> Solvable(sheet, k))
      && (Complete(sheet) <==> AllOk(sheet))
  {
    RunsSound(exp, p, steps, states, n);
    var base, sheet := Built(exp), states[n].sheet;
    CanonicalFormed(base, p, sheet);
    CompleteIffAllOk(sheet);
    forall k <- sheet.rows
      ensures sheet.rows[k].solve.state.Ok? ==> Solvable(sheet, k)
      ensures forall name <- sheet.rows[k].scores ::
        sheet.rows[k].scores[name].state.Ok? ==> sheet.rows[k].solve.state.Ok?
    {
      assert RowInPlace(base, p, sheet, k);
      forall name <- sheet.rows[k].scores | sheet.rows[k].scores[name].state.Ok? ensures sheet.rows[k].solve.state.Ok? {
        assert RightScore(p, sheet.rows[k], name, sheet.rows[k].scores[name]);
      }
    }
  }

  // ----- Progress -----

  predicate Succeeds(step: Step) {
    match step
    case Provides(_, error) => error.None?
    case Solves(_, error) => error.None?
    case Scores(_, _, error) => error.None?
    case Crashes => false
    case Discards => false
    case _ => true
  }

  ghost predicate KnowsMetrics(exp: Experiment, p: Producers) {
    forall name <- exp.metricNames :: name in p.metrics
  }

  lemma ScoreSucceeds(p: Producers, s: State, k: RowKey, name: string)
    requires s.phase.Filling? && k in s.phase.chains && s.phase.chains[k].Scoring? && k in s.sheet.rows
      && name in p.metrics
    ensures Score(p, s, k, name, None).failed <= s.failed
  {
  }

  lemma SuccessFailsNothing(exp: Experiment, p: Producers, s: State, step: Step)
    requires Tracked(s) && Enabled(exp, s, step) && Succeeds(step) && s.failed == {}
    requires forall name <- s.sheet.metricNames :: name in p.metrics
    ensures Next(exp, p, s, step).failed == {}
  {
    if step.Scores? {
      assert Placed(s, step.k, s.phase.chains[step.k]);
      ScoreSucceeds(p, s, step.k, step.name);
    }
  }

  lemma NothingFailsAt(exp: Experiment, p: Producers, steps: seq<Step>, states: seq<State>, n: nat)
    requires KnowsMetrics(exp, p) && IsRun(exp, p, steps, states) && n < |steps| && Succeeds(steps[n])
    ensures steps[n].Begins? || states[n].failed == {} ==> states[n + 1].failed == {}
  {
    RunsSound(exp, p, steps, states, n);
    BuiltIsPending(exp);
    if !steps[n].Begins? && states[n].failed == {} {
      SuccessFailsNothing(exp, p, states[n], steps[n]);
    }
  }

  lemma {:induction false} EmptyStays(states: seq<State>, i: nat, j: nat)
    requires i < j < |states| && states[i + 1].failed == {}
    requires forall n | i <= n < j && states[n].failed == {} :: states[n + 1].failed == {}
    ensures states[j].failed == {}
    decreases j
  {
    if j == i + 1 {
    } else {
      EmptyStays(states, i, j - 1);
    }
  }

  lemma NothingFailed(exp: Experiment, p: Producers, steps: seq<Step>, states: seq<State>, i: nat, j: nat)
    requires KnowsMetrics(exp, p) && IsRun(exp, p, steps, states) && i < j < |states|
    requires steps[i].Begins? && forall n | i <= n < j :: Succeeds(steps[n])
    ensures states[j].failed == {}
  {
    NothingFailsAt(exp, p, steps, states, i);
    forall n | i <= n < j && states[n].failed == {} ensures states[n + 1].failed == {} {
      NothingFailsAt(exp, p, steps, states, n);
    }
    EmptyStays(states, i, j);
  }

  /** A run in which every call succeeds ends with a complete worksheet. */
  lemma SuccessfulRunCompletes(exp: Experiment, p: Producers, steps: seq<Step>, states: seq<State>, i: nat, j: nat)
    requires KnowsMetrics(exp, p) && IsRun(exp, p, steps, states) && i < j < |states|
    requires steps[i].Begins? && (forall n | i <= n < j :: Succeeds(steps[n])) && states[j].phase.Over?
    ensures Complete(states[j].sheet)
  {
    NothingFailed(exp, p, steps, states, i, j);
    RunsSound(exp, p, steps, states, j);
  }

  /** A finished run has left the worksheet complete exactly if no cell's last try in it failed. */
  lemma CompleteIffNothingFailed(exp: Experiment, p: Producers, steps: seq<Step>, states: seq<State>, n: nat)
    requires IsRun(exp, p, steps, states) && n < |states| && states[n].phase.Over?
    ensures Complete(states[n].sheet) <==> states[n].failed == {}
  {
    RunsSound(exp, p, steps, states, n);
  }

  /** With an unknown metric no worksheet with rows is ever complete. */
  lemma UnknownMetricNeverCompletes(exp: Experiment, p: Producers, steps: seq<Step>, states: seq<State>, n: nat)
    requires IsRun(exp, p, steps, states) && n < |states|
    requires states[n].sheet.rows != map[] && !KnowsMetrics(exp, p)
    ensures !Complete(states[n].sheet)
  {
    RunsSound(exp, p, steps, states, n);
    var base, sheet := Built(exp), states[n].sheet;
    BuiltIsPending(exp);
    CanonicalFormed(base, p, sheet);
    CompleteIffAllOk(sheet);
    var k :| k in sheet.rows;
    var name :| name in exp.metricNames && name !in p.metrics;
    assert RowInPlace(base, p, sheet, k);
    assert name in sheet.rows[k].scores ==> RightScore(p, sheet.rows[k], name, sheet.rows[k].scores[name]);
    assert !Scored(sheet.rows[k], name);
  }

  // ----- Running a complete worksheet -----

  /** Nothing is running and nothing is left to try. */
  ghost predicate Quiet(s: State) {
    && s.calls == 0
    && match s.phase
       case Provisioning(running) => running == {}
       case Filling(chains) =>
         forall k <- chains :: !chains[k].Solving? && (chains[k].Scoring? ==> chains[k].todo == multiset{})
       case _ => true
  }

  lemma {:induction false} NothingUnscored(names: seq<string>, row: Row)
    requires forall name <- names :: Scored(row, name)
    ensures Unscored(names, row) == multiset{}
  {
    if names == [] {
    } else {
      NothingUnscored(names[1..], row);
    }
  }

  lemma QuietStart(sheet: Sheet, k: RowKey)
    requires AllOk(sheet) && Formed(sheet) && k in sheet.rows
    ensures Started(sheet, k).Scoring? && Started(sheet, k).todo == multiset{}
  {
    NothingUnscored(sheet.metricNames, sheet.rows[k]);
  }

  lemma QuietStep(exp: Experiment, p: Producers, s: State, step: Step)
    requires Formed(s.sheet) && AllOk(s.sheet) && Enabled(exp, s, step) && !step.Crashes? && !step.Discards?
    requires Quiet(s) || step.Begins?
    ensures var t := Next(exp, p, s, step); Quiet(t) && t.sheet == s.sheet
  {
    if step.StartsRow? {
      QuietStart(s.sheet, step.k);
    } else if step.Begins? {
      assert PendingProvisions(s.sheet) == {};
    }
  }

  lemma QuietAt(exp: Experiment, p: Producers, steps: seq<Step>, states: seq<State>, n: nat)
    requires IsRun(exp, p, steps, states) && n < |steps| && !steps[n].Crashes? && !steps[n].Discards?
    requires Complete(states[n].sheet) && (Quiet(states[n]) || steps[n].Begins?)
    ensures Quiet(states[n + 1]) && states[n + 1].sheet == states[n].sheet
  {
    RunsSound(exp, p, steps, states, n);
    CanonicalFormed(Built(exp), p, states[n].sheet);
    CompleteIffAllOk(states[n].sheet);
    QuietStep(exp, p, states[n], steps[n]);
  }

  /** Running a complete worksheet calls no producer and changes nothing. */
  lemma {:induction false} CompleteStaysQuiet(exp: Experiment, p: Producers, steps: seq<Step>, states: seq<State>,
                                              i: nat, j: nat)
    requires IsRun(exp, p, steps, states) && i < j < |states|
    requires Complete(states[i].sheet) && steps[i].Begins?
    requires forall n | i <= n < j :: !steps[n].Crashes? && !steps[n].Discards?
    ensures Quiet(states[j]) && states[j].sheet == states[i].sheet
    decreases j
  {
    if i == j - 1 {
    } else {
      CompleteStaysQuiet(exp, p, steps, states, i, j - 1);
    }
    QuietAt(exp, p, steps, states, j - 1);
  }
}
