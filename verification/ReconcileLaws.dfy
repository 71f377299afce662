/** What the cells of a worksheet hold, told from the experiment and from what its producers return. */
module ReconcileLaws {
  import opened Wrappers
  import opened Worksheets
  import opened Checkpoints
  import opened Reconciler
  import opened ReconcileSteps
  import opened ReconcileRuns

  // ----- Filled cells -----

  /** The provision is what `provide` returns for its key. */
  ghost predicate ProvisionHolds(p: Producers, key: string, v: Provision) {
    v.state.Ok? ==> v.subject == Some(p.provide(key)) && v.error.None?
  }

  /** The answer is what `solve` returns for the row's seed and the provision of its key. */
  ghost predicate AnswerHolds(p: Producers, row: Row) {
    if row.solve.state.Ok? then
      var (answer, meta) := p.solve(row.seed, p.provide(row.seed.armKey));
      row.solve.answer == answer && row.meta == meta && row.solve.error.None?
    else row.solve.answer == Answer(None, [], [], map[]) && row.meta == map[]
  }

  /** What a metric is shown: what the row was built with, and its answer. */
  ghost predicate Shows(sample: Sample, row: Row) {
    && sample.caseId == row.seed.caseId && sample.armId == row.seed.armId && sample.corpus == row.seed.corpus
    && sample.query == row.seed.query && sample.expectedBehavior == row.seed.expectedBehavior
    && sample.groundTruth == row.seed.groundTruth && sample.dimensions == row.seed.dimensions
    && sample.evidenceSources == row.seed.evidenceSources && sample.candidateSources == row.seed.candidateSources
    && sample.answer == row.solve.answer
  }

  /** A score is the metric's score of such a sample if the metric applies to it, and its abstention otherwise. */
  ghost predicate ScoreHolds(p: Producers, row: Row, name: string, c: ScoreCell) {
    c.state.Ok? ==>
      && row.solve.state.Ok? && name in p.metrics && c.error.None?
      && forall sample | Shows(sample, row) ::
           c.result == Some(if p.metrics[name].applies(sample) then p.metrics[name].score(sample)
                            else p.metrics[name].na)
  }

  ghost predicate CellsHold(p: Producers, sheet: Sheet) {
    && (forall key <- sheet.provisions :: ProvisionHolds(p, key, sheet.provisions[key]))
    && (forall k <- sheet.rows :: AnswerHolds(p, sheet.rows[k]))
    && (forall k <- sheet.rows, name <- sheet.rows[k].scores ::
          ScoreHolds(p, sheet.rows[k], name, sheet.rows[k].scores[name]))
  }

  lemma ShownSample(sample: Sample, row: Row)
    requires Shows(sample, row)
    ensures sample == ToSample(row.seed, row.solve.answer)
  {
  }

  lemma ScoreIsRight(p: Producers, row: Row, name: string, c: ScoreCell)
    requires RightSolve(p, row) && RightScore(p, row, name, c)
    ensures ScoreHolds(p, row, name, c)
  {
    forall sample | Shows(sample, row) ensures sample == ToSample(row.seed, row.solve.answer) {
      ShownSample(sample, row);
    }
  }

  lemma CanonicalHolds(base: Sheet, p: Producers, sheet: Sheet)
    requires Canonical(base, p, sheet)
    ensures CellsHold(p, sheet)
  {
    forall key <- sheet.provisions ensures ProvisionHolds(p, key, sheet.provisions[key]) {
      assert RightProvision(p, key, sheet.provisions[key]);
    }
    forall k <- sheet.rows ensures AnswerHolds(p, sheet.rows[k]) {
      assert RowInPlace(base, p, sheet, k);
    }
    forall k <- sheet.rows, name <- sheet.rows[k].scores
      ensures ScoreHolds(p, sheet.rows[k], name, sheet.rows[k].scores[name])
    {
      assert RowInPlace(base, p, sheet, k);
      ScoreIsRight(p, sheet.rows[k], name, sheet.rows[k].scores[name]);
    }
  }

  /** In every reachable worksheet each filled cell holds what its producer returns for the row, whatever failed,
      crashed or was restarted on the way; and in a complete one each cell is filled. */
  lemma RunsFillRight(exp: Experiment, p: Producers, steps: seq<Step>, states: seq<State>, n: nat)
    requires IsRun(exp, p, steps, states) && n < |states|
    ensures CellsHold(p, states[n].sheet)
    ensures Complete(states[n].sheet) ==>
      && (forall key <- states[n].sheet.provisions :: states[n].sheet.provisions[key].state.Ok?)
      && (forall k <- states[n].sheet.rows :: states[n].sheet.rows[k].solve.state.Ok?)
      && (forall k <- states[n].sheet.rows, name <- states[n].sheet.metricNames ::
            name in states[n].sheet.rows[k].scores && states[n].sheet.rows[k].scores[name].state.Ok?)
  {
    RunsSound(exp, p, steps, states, n);
    CanonicalHolds(Built(exp), p, states[n].sheet);
    if Complete(states[n].sheet) {
      BuiltIsPending(exp);
      CanonicalFormed(Built(exp), p, states[n].sheet);
      CompleteMeans(states[n].sheet);
    }
  }

  // ----- What a row is built with -----

  /** The row of an arm and a case, with all its cells pending. */
  ghost predicate BuiltFor(exp: Experiment, arm: nat, i: nat, row: Row)
    requires arm < |exp.arms| && i < |exp.cases|
  {
    var (corpus, c) := exp.cases[i];
    && row.seed.armId == exp.arms[arm] && row.seed.armKey == exp.keyFor(arm, corpus) && row.seed.corpus == corpus
    && row.seed.caseId == c.id && row.seed.runId == exp.runId && row.seed.query == c.query
    && row.seed.expectedBehavior == c.expectedBehavior && row.seed.groundTruth == c.groundTruth
    && row.seed.dimensions == c.dimensions && row.seed.evidenceSources == c.evidenceSources
    && row.seed.candidateSources == c.candidateSources
    && row.solve == SolveCell(Pending, Answer(None, [], [], map[]), None) && row.meta == map[]
    && (forall name :: name in row.scores <==> name in exp.metricNames)
    && (forall name <- row.scores :: row.scores[name] == ScoreCell(Pending, None, None))
  }

  /** None of these cases of the arm has the key. */
  ghost predicate NoneKeyed(exp: Experiment, arm: nat, low: nat, high: nat, k: RowKey)
    requires arm < |exp.arms| && high <= |exp.cases|
  {
    forall i | low <= i < high :: RowKey(exp.arms[arm], exp.cases[i].0, exp.cases[i].1.id) != k
  }

  lemma {:induction false} CasesKeep(exp: Experiment, sheet: Sheet, arm: nat, low: nat, high: nat, k: RowKey)
    requires arm < |exp.arms| && low <= high <= |exp.cases| && NoneKeyed(exp, arm, low, high, k)
    requires k in WithCases(exp, sheet, arm, low).rows
    ensures k in WithCases(exp, sheet, arm, high).rows
    ensures WithCases(exp, sheet, arm, high).rows[k] == WithCases(exp, sheet, arm, low).rows[k]
    decreases high
  {
    if low == high {
    } else {
      CasesKeep(exp, sheet, arm, low, high - 1, k);
    }
  }

  lemma {:induction false} ArmsKeep(exp: Experiment, low: nat, high: nat, k: RowKey)
    requires low <= high <= |exp.arms| && k in WithArms(exp, low).rows
    requires forall arm | low <= arm < high :: NoneKeyed(exp, arm, 0, |exp.cases|, k)
    ensures k in WithArms(exp, high).rows && WithArms(exp, high).rows[k] == WithArms(exp, low).rows[k]
    decreases high
  {
    if low == high {
    } else {
      ArmsKeep(exp, low, high - 1, k);
      CasesKeep(exp, WithArms(exp, high - 1), high - 1, 0, |exp.cases|, k);
    }
  }

  lemma RowAdded(exp: Experiment, before: Sheet, arm: nat, i: nat)
    requires arm < |exp.arms| && i < |exp.cases|
    ensures var k, after := RowKey(exp.arms[arm], exp.cases[i].0, exp.cases[i].1.id),
      WithCases(exp, before, arm, i + 1);
      k in after.rows && BuiltFor(exp, arm, i, after.rows[k])
  {
    assert WithCases(exp, before, arm, i + 1) == WithCase(exp, WithCases(exp, before, arm, i), arm, exp.cases[i]);
  }

  /** Each arm has a row for each case, built from both and pending; of those with one key the last stands. */
  lemma BuiltRowIs(exp: Experiment, arm: nat, i: nat)
    requires arm < |exp.arms| && i < |exp.cases|
    requires var k := RowKey(exp.arms[arm], exp.cases[i].0, exp.cases[i].1.id);
      && NoneKeyed(exp, arm, i + 1, |exp.cases|, k)
      && forall later | arm < later < |exp.arms| :: NoneKeyed(exp, later, 0, |exp.cases|, k)
    ensures var k := RowKey(exp.arms[arm], exp.cases[i].0, exp.cases[i].1.id);
      k in Built(exp).rows && BuiltFor(exp, arm, i, Built(exp).rows[k])
  {
    var k := RowKey(exp.arms[arm], exp.cases[i].0, exp.cases[i].1.id);
    var before := WithArms(exp, arm);
    RowAdded(exp, before, arm, i);
    CasesKeep(exp, before, arm, i + 1, |exp.cases|, k);
    ArmsKeep(exp, arm + 1, |exp.arms|, k);
  }

  /** Beside its rows a worksheet is built from the experiment's own fields, with every provision pending. */
  lemma BuiltSheetIs(exp: Experiment)
    ensures var sheet := Built(exp);
      && sheet.experiment == exp.name && sheet.hash == exp.hash && sheet.runId == exp.runId
      && sheet.createdAt == exp.createdAt && sheet.artifacts == [] && sheet.metricNames == exp.metricNames
      && forall key <- sheet.provisions :: sheet.provisions[key] == Provision(Pending, None, None)
  {
    BuiltIsPending(exp);
    ArmsFields(exp, |exp.arms|);
  }

  lemma {:induction false} CasesFields(exp: Experiment, sheet: Sheet, arm: nat, n: nat)
    requires arm < |exp.arms| && n <= |exp.cases|
    ensures WithCases(exp, sheet, arm, n).(rows := sheet.rows, provisions := sheet.provisions) == sheet
    decreases n
  {
    if n == 0 {
    } else {
      CasesFields(exp, sheet, arm, n - 1);
    }
  }

  lemma {:induction false} ArmsFields(exp: Experiment, n: nat)
    requires n <= |exp.arms|
    ensures WithArms(exp, n).(rows := map[], provisions := map[])
         == Sheet(exp.name, exp.hash, exp.runId, exp.createdAt, [], exp.metricNames, map[], map[])
    decreases n
  {
    if n == 0 {
    } else {
      ArmsFields(exp, n - 1);
      CasesFields(exp, WithArms(exp, n - 1), n - 1, |exp.cases|);
    }
  }

  // ----- What can happen next -----

  /** A run begins when none is under way and the worksheet is of this experiment; a call under way may come back
      well or badly at any time, in any order; and the process may crash at any time. */
  lemma WhatCanHappen(exp: Experiment, s: State, step: Step)
    ensures step.Begins? ==> (Enabled(exp, s, step) <==> (s.phase.Off? || s.phase.Over?) && s.sheet.hash == exp.hash)
    ensures step.Provides? ==>
      (Enabled(exp, s, step) <==>
         s.phase.Provisioning? && step.key in s.phase.running && step.key in s.sheet.provisions)
    ensures step.StartsRows? ==> (Enabled(exp, s, step) <==> s.phase.Provisioning? && s.phase.running == {})
    ensures step.StartsRow? ==>
      (Enabled(exp, s, step) <==>
         s.phase.Filling? && step.k in s.phase.chains && step.k in s.sheet.rows && s.phase.chains[step.k].Fresh?)
    ensures step.Scores? ==>
      (Enabled(exp, s, step) <==>
         && s.phase.Filling? && step.k in s.phase.chains && step.k in s.sheet.rows
         && s.phase.chains[step.k].Scoring? && step.name in s.phase.chains[step.k].todo)
    ensures step.Finishes? ==>
      (Enabled(exp, s, step) <==>
         s.phase.Filling? && forall k <- s.phase.chains ::
           s.phase.chains[k].Done? || (s.phase.chains[k].Scoring? && s.phase.chains[k].todo == multiset{}))
    ensures step.Crashes? || step.Discards? ==> Enabled(exp, s, step)
  {
  }

  /** In a run a row that is being answered may always be, well or badly: its provision is there. */
  lemma AnswersCanCome(exp: Experiment, p: Producers, steps: seq<Step>, states: seq<State>, n: nat, k: RowKey,
                       error: Option<string>)
    requires IsRun(exp, p, steps, states) && n < |states| && states[n].phase.Filling?
    requires k in states[n].phase.chains && states[n].phase.chains[k].Solving?
    ensures Enabled(exp, states[n], Solves(k, error))
  {
    RunsSound(exp, p, steps, states, n);
    var s := states[n];
    assert k in s.sheet.rows && Placed(s, k, s.phase.chains[k]);
    var key := s.sheet.rows[k].seed.armKey;
    assert RightProvision(p, key, s.sheet.provisions[key]);
  }

  // ----- What a crash loses -----

  lemma SavedStays(exp: Experiment, p: Producers, s: State, step: Step)
    requires Enabled(exp, s, step) && !step.Saves? && Sound(exp, p, s)
    ensures Next(exp, p, s, step).saved == s.saved
  {
    if step.Crashes? {
      BaseCanonical(Built(exp), p);
      RestartedRight(exp, Built(exp), p, s);
    }
  }

  lemma {:induction false} SavedSince(exp: Experiment, p: Producers, steps: seq<Step>, states: seq<State>, i: nat,
                                      j: nat)
    requires IsRun(exp, p, steps, states) && i <= j < |states| && forall n | i <= n < j :: !steps[n].Saves?
    ensures states[j].saved == states[i].saved
    decreases j
  {
    if i == j {
    } else {
      SavedSince(exp, p, steps, states, i, j - 1);
      RunsSound(exp, p, steps, states, j - 1);
      SavedStays(exp, p, states[j - 1], steps[j - 1]);
    }
  }

  lemma RestartReads(exp: Experiment, p: Producers, s: State, saved: Sheet, lines: seq<Record>)
    requires Sound(exp, p, s) && s.saved == Some(lines)
    requires Canonical(Built(exp), p, saved) && Checkpoints.Saves(saved, lines)
    ensures Restarted(exp, s).sheet == saved && Restarted(exp, s).phase.Off?
  {
    BuiltIsPending(exp);
    CanonicalFormed(Built(exp), p, saved);
    SavedReads(saved, lines);
  }

  lemma JustSaved(exp: Experiment, p: Producers, steps: seq<Step>, states: seq<State>, i: nat)
    requires IsRun(exp, p, steps, states) && i < |steps| && steps[i].Saves?
    ensures states[i + 1].saved == Some(steps[i].lines) && Checkpoints.Saves(states[i].sheet, steps[i].lines)
    ensures Canonical(Built(exp), p, states[i].sheet)
  {
    RunsSound(exp, p, steps, states, i);
  }

  lemma CrashRestarts(exp: Experiment, p: Producers, steps: seq<Step>, states: seq<State>, j: nat)
    requires IsRun(exp, p, steps, states) && j < |steps| && steps[j].Crashes?
    ensures states[j + 1] == Restarted(exp, states[j]) && Sound(exp, p, states[j])
  {
    RunsSound(exp, p, steps, states, j);
  }

  /** A process that starts after a crash has exactly the worksheet last saved, and before the first save one
      built anew; nothing is running in it. */
  lemma CrashGoesBack(exp: Experiment, p: Producers, steps: seq<Step>, states: seq<State>, i: nat, j: nat)
    requires IsRun(exp, p, steps, states) && i <= j < |steps| && steps[j].Crashes?
    requires i > 0 ==> steps[i - 1].Saves?
    requires forall n | i <= n < j :: !steps[n].Saves?
    ensures states[j + 1].sheet == (if i == 0 then Built(exp) else states[i - 1].sheet) && states[j + 1].phase.Off?
  {
    SavedSince(exp, p, steps, states, i, j);
    CrashRestarts(exp, p, steps, states, j);
    if i > 0 {
      JustSaved(exp, p, steps, states, i - 1);
      RestartReads(exp, p, states[j], states[i - 1].sheet, steps[i - 1].lines);
    }
  }

  /** Discarding the worksheet starts with one built anew and leaves the checkpoint alone. */
  lemma DiscardStartsAnew(exp: Experiment, p: Producers, s: State)
    ensures Next(exp, p, s, Discards).sheet == Built(exp) && Next(exp, p, s, Discards).phase.Off?
    ensures Next(exp, p, s, Discards).saved == s.saved
  {
  }
}
