/** When a filled cell can change: only where an experiment lists a metric twice. */
module ReconcileCells {
  import opened Wrappers
  import opened Worksheets
  import opened Reconciler
  import opened ReconcileSteps
  import opened ReconcileRuns

  // ----- Filled cells stay -----

  ghost predicate RowStays(a: Row, b: Row) {
    && (a.solve.state.Ok? ==> b.solve == a.solve && b.meta == a.meta)
    && forall name | Scored(a, name) :: name in b.scores && b.scores[name] == a.scores[name]
  }

  /** Every filled cell of the one worksheet is the same in the other. */
  ghost predicate CellsStay(a: Sheet, b: Sheet) {
    && (forall key <- a.provisions ::
       a.provisions[key].state.Ok? ==> key in b.provisions && b.provisions[key] == a.provisions[key])
    && (forall k <- a.rows :: k in b.rows && RowStays(a.rows[k], b.rows[k]))
  }

  lemma RowChangeStays(sheet: Sheet, k: RowKey, row: Row)
    requires k in sheet.rows && RowStays(sheet.rows[k], row)
    ensures CellsStay(sheet, sheet.(rows := sheet.rows[k := row]))
  {
  }

  lemma SolveStays(p: Producers, s: State, k: RowKey, error: Option<string>)
    requires Tracked(s) && CanSolve(s, k)
    ensures CellsStay(s.sheet, Solve(p, s, k, error).sheet)
  {
    assert Placed(s, k, s.phase.chains[k]);
    RowChangeStays(s.sheet, k, Solve(p, s, k, error).sheet.rows[k]);
  }

  // ----- With distinct names no score is tried twice -----

  /** Every list to score holds a name at most once, and none that is scored. */
  ghost predicate Single(s: State) {
    s.phase.Filling? ==>
      forall k <- s.phase.chains :: k in s.sheet.rows ==> SingleChain(s.sheet.rows[k], s.phase.chains[k])
  }

  ghost predicate SingleChain(row: Row, c: Chain) {
    c.Scoring? ==> forall name :: c.todo[name] <= 1 && (name in c.todo ==> !Scored(row, name))
  }

  lemma UnscoredSingle(names: seq<string>, row: Row, sample: Sample)
    requires Distinct(names)
    ensures SingleChain(row, Scoring(sample, Unscored(names, row)))
  {
    forall name ensures Unscored(names, row)[name] <= 1 && (name in Unscored(names, row) ==> !Scored(row, name)) {
      UnscoredOnce(names, row, name);
    }
  }

  lemma SolveSingle(p: Producers, s: State, k: RowKey, error: Option<string>)
    requires Distinct(s.sheet.metricNames) && Single(s) && CanSolve(s, k)
    ensures Single(Solve(p, s, k, error))
  {
    var t := Solve(p, s, k, error);
    var row := t.sheet.rows[k];
    UnscoredSingle(s.sheet.metricNames, row, ToSample(row.seed, row.solve.answer));
    forall j <- t.phase.chains | j in t.sheet.rows ensures SingleChain(t.sheet.rows[j], t.phase.chains[j]) {
      if j != k { assert SingleChain(s.sheet.rows[j], s.phase.chains[j]); }
    }
  }

  lemma ScoreSingle(p: Producers, s: State, k: RowKey, name: string, error: Option<string>)
    requires Single(s) && s.phase.Filling? && k in s.phase.chains && k in s.sheet.rows
    requires s.phase.chains[k].Scoring? && name in s.phase.chains[k].todo
    ensures Single(Score(p, s, k, name, error))
  {
    var t := Score(p, s, k, name, error);
    forall j <- t.phase.chains | j in t.sheet.rows ensures SingleChain(t.sheet.rows[j], t.phase.chains[j]) {
      assert SingleChain(s.sheet.rows[j], s.phase.chains[j]);
    }
  }

  lemma StartsRowSingle(s: State, k: RowKey)
    requires Distinct(s.sheet.metricNames) && Single(s) && s.phase.Filling? && k in s.sheet.rows
    ensures Single(WithChain(s, k, Started(s.sheet, k)))
  {
    var row, t := s.sheet.rows[k], WithChain(s, k, Started(s.sheet, k));
    UnscoredSingle(s.sheet.metricNames, row, ToSample(row.seed, row.solve.answer));
    forall j <- t.phase.chains | j in t.sheet.rows ensures SingleChain(t.sheet.rows[j], t.phase.chains[j]) {
      if j != k { assert SingleChain(s.sheet.rows[j], s.phase.chains[j]); }
    }
  }

  lemma NextSingle(exp: Experiment, p: Producers, s: State, step: Step)
    requires Distinct(s.sheet.metricNames) && Single(s) && Enabled(exp, s, step)
    ensures Single(Next(exp, p, s, step))
  {
    if step.Solves? {
      SolveSingle(p, s, step.k, step.error);
    } else if step.Scores? {
      ScoreSingle(p, s, step.k, step.name, step.error);
    } else if step.StartsRow? {
      StartsRowSingle(s, step.k);
    }
  }

  lemma NamesStay(exp: Experiment, p: Producers, steps: seq<Step>, states: seq<State>, n: nat)
    requires IsRun(exp, p, steps, states) && n < |states|
    ensures Sound(exp, p, states[n]) && states[n].sheet.metricNames == exp.metricNames
  {
    RunsSound(exp, p, steps, states, n);
    BuiltIsPending(exp);
  }

  lemma SingleAt(exp: Experiment, p: Producers, steps: seq<Step>, states: seq<State>, n: nat)
    requires Distinct(exp.metricNames) && IsRun(exp, p, steps, states) && n < |steps| && Single(states[n])
    ensures Single(states[n + 1])
  {
    NamesStay(exp, p, steps, states, n);
    NextSingle(exp, p, states[n], steps[n]);
  }

  lemma {:induction false} AllSingle(states: seq<State>, n: nat)
    requires n < |states| && Single(states[0])
    requires forall i | 0 <= i < n && Single(states[i]) :: Single(states[i + 1])
    ensures Single(states[n])
  {
    if n == 0 {
    } else {
      AllSingle(states, n - 1);
    }
  }

  lemma RunsSingle(exp: Experiment, p: Producers, steps: seq<Step>, states: seq<State>, n: nat)
    requires Distinct(exp.metricNames) && IsRun(exp, p, steps, states) && n < |states|
    ensures Single(states[n]) && Sound(exp, p, states[n]) && states[n].sheet.metricNames == exp.metricNames
  {
    NamesStay(exp, p, steps, states, n);
    forall i | 0 <= i < n && Single(states[i]) ensures Single(states[i + 1]) {
      SingleAt(exp, p, steps, states, i);
    }
    AllSingle(states, n);
  }

  lemma ScoreStays(p: Producers, s: State, k: RowKey, name: string, error: Option<string>)
    requires Single(s) && s.phase.Filling? && k in s.phase.chains && k in s.sheet.rows
    requires s.phase.chains[k].Scoring? && name in s.phase.chains[k].todo
    ensures CellsStay(s.sheet, Score(p, s, k, name, error).sheet)
  {
    assert SingleChain(s.sheet.rows[k], s.phase.chains[k]);
    RowChangeStays(s.sheet, k, Score(p, s, k, name, error).sheet.rows[k]);
  }

  lemma StepStays(exp: Experiment, p: Producers, s: State, step: Step)
    requires Tracked(s) && Single(s) && Enabled(exp, s, step) && !step.Crashes? && !step.Discards?
    ensures CellsStay(s.sheet, Next(exp, p, s, step).sheet)
  {
    if step.Solves? {
      SolveStays(p, s, step.k, step.error);
    } else if step.Scores? {
      ScoreStays(p, s, step.k, step.name, step.error);
    }
  }

  lemma StaysTransitive(a: Sheet, b: Sheet, c: Sheet)
    requires CellsStay(a, b) && CellsStay(b, c)
    ensures CellsStay(a, c)
  {
    forall k <- a.rows ensures k in c.rows && RowStays(a.rows[k], c.rows[k]) {
      assert RowStays(a.rows[k], b.rows[k]) && RowStays(b.rows[k], c.rows[k]);
      forall name | Scored(a.rows[k], name)
        ensures name in c.rows[k].scores && c.rows[k].scores[name] == a.rows[k].scores[name]
      {
        assert Scored(b.rows[k], name);
      }
    }
  }

  lemma StaysAt(exp: Experiment, p: Producers, steps: seq<Step>, states: seq<State>, n: nat)
    requires Distinct(exp.metricNames) && IsRun(exp, p, steps, states) && n < |steps|
    requires !steps[n].Crashes? && !steps[n].Discards?
    ensures CellsStay(states[n].sheet, states[n + 1].sheet)
  {
    RunsSingle(exp, p, steps, states, n);
    StepStays(exp, p, states[n], steps[n]);
  }

  lemma {:induction false} SheetsStay(states: seq<State>, i: nat, j: nat)
    requires i <= j < |states| && forall n | i <= n < j :: CellsStay(states[n].sheet, states[n + 1].sheet)
    ensures CellsStay(states[i].sheet, states[j].sheet)
    decreases j
  {
    if i == j {
    } else {
      SheetsStay(states, i, j - 1);
      StaysTransitive(states[i].sheet, states[j - 1].sheet, states[j].sheet);
    }
  }

  /** With distinct names a filled cell never changes until a restart. */
  lemma FilledCellsStay(exp: Experiment, p: Producers, steps: seq<Step>, states: seq<State>, i: nat, j: nat)
    requires Distinct(exp.metricNames) && IsRun(exp, p, steps, states) && i <= j < |states| && NoRestart(steps, i, j)
    ensures CellsStay(states[i].sheet, states[j].sheet)
  {
    forall n | i <= n < j ensures CellsStay(states[n].sheet, states[n + 1].sheet) {
      StaysAt(exp, p, steps, states, n);
    }
    SheetsStay(states, i, j);
  }

  ghost predicate NoRestart(steps: seq<Step>, i: nat, j: nat)
    requires i <= j <= |steps|
  {
    forall n | i <= n < j :: !steps[n].Crashes? && !steps[n].Discards?
  }

  // ----- With a repeated name some run changes a filled cell -----

  lemma {:induction false} ListedIsUnscored(names: seq<string>, row: Row, name: string)
    requires name in names && !Scored(row, name)
    ensures Unscored(names, row)[name] >= 1
  {
    if name == names[0] {
    } else {
      ListedIsUnscored(names[1..], row, name);
    }
  }

  /** A row's list of names to score holds none twice, whatever its cells, exactly when the experiment
      lists none twice. */
  lemma ListedOnceIffDistinct(names: seq<string>)
    ensures Distinct(names) <==> forall row: Row, name :: Unscored(names, row)[name] <= 1
  {
    if Distinct(names) {
      forall row: Row, name ensures Unscored(names, row)[name] <= 1 {
        UnscoredOnce(names, row, name);
      }
    } else {
      var seed := Seed("", "", "", "", "", "", "", None, map[], [], []);
      var name := RepeatedListedTwice(names, Row(seed, NEW_SOLVE, map[], map[]));
    }
  }

  lemma {:induction false} RepeatedListedTwice(names: seq<string>, row: Row) returns (name: string)
    requires !Distinct(names) && forall n :: !Scored(row, n)
    ensures Unscored(names, row)[name] >= 2
  {
    if names[0] in names[1..] {
      name := names[0];
      ListedIsUnscored(names[1..], row, name);
    } else {
      var i, j :| 0 <= i < j < |names| && names[i] == names[j];
      assert i > 0 by { assert j > 0 ==> names[j] == names[1..][j - 1]; }
      assert names[1..][i - 1] == names[1..][j - 1];
      name := RepeatedListedTwice(names[1..], row);
    }
  }

  /** A name on the list twice is scored twice, and a failure then overwrites the score already there. */
  lemma RepeatedNameOverwrites(exp: Experiment, p: Producers, s: State, k: RowKey, name: string, error: string)
    requires s.phase.Filling? && k in s.phase.chains && k in s.sheet.rows && s.phase.chains[k].Scoring?
    requires s.phase.chains[k].todo[name] >= 2 && name in p.metrics && p.metrics[name].applies(s.phase.chains[k].sample)
    ensures var first, second := Scores(k, name, None), Scores(k, name, Some(error));
      && Enabled(exp, s, first)
      && var t := Next(exp, p, s, first);
         Enabled(exp, t, second) && !CellsStay(t.sheet, Next(exp, p, t, second).sheet)
  {
    var t := Score(p, s, k, name, None);
    var u := Score(p, t, k, name, Some(error));
    assert Scored(t.sheet.rows[k], name) && !Scored(u.sheet.rows[k], name);
    assert !RowStays(t.sheet.rows[k], u.sheet.rows[k]);
  }

  /** Producers that always answer alike, with metrics that always apply. */
  function Uniform(names: seq<string>): Producers {
    var result := MetricResult("", "score", None, "", None, None);
    Producers(_ => "", (_, _) => (NO_ANSWER, map[]), map name | name in names :: Metric(_ => true, _ => result, result))
  }

  /** A run without a restart so far, and where it stands. */
  ghost predicate IsRunTo(exp: Experiment, p: Producers, steps: seq<Step>, states: seq<State>, s: State) {
    IsRunAt(exp, p, steps, states, s) && NoRestart(steps, 0, |steps|)
  }

  lemma Extended(exp: Experiment, p: Producers, steps: seq<Step>, states: seq<State>, s: State, step: Step)
    requires IsRunTo(exp, p, steps, states, s) && Enabled(exp, s, step) && !step.Crashes? && !step.Discards?
    ensures IsRunTo(exp, p, steps + [step], states + [Next(exp, p, s, step)], Next(exp, p, s, step))
  {
    OneMore(exp, p, steps, states, s, step);
  }

  /** Provisioning, and nothing has failed or been answered. */
  ghost predicate OnlyProvisioning(exp: Experiment, s: State) {
    s.phase.Provisioning? && s.failed == {} && s.sheet.rows == Built(exp).rows
  }

  lemma {:induction false} ProvideAll(exp: Experiment, p: Producers, steps: seq<Step>, states: seq<State>, s: State)
    returns (longer: seq<Step>, after: seq<State>, t: State)
    requires IsRunTo(exp, p, steps, states, s) && OnlyProvisioning(exp, s)
    ensures IsRunTo(exp, p, longer, after, t) && OnlyProvisioning(exp, t) && t.phase.running == {}
    decreases |s.phase.running|
  {
    if s.phase.running == {} {
      longer, after, t := steps, states, s;
    } else {
      var key :| key in s.phase.running;
      RunsSound(exp, p, steps, states, |states| - 1);
      var next := Next(exp, p, s, Provides(key, None));
      Extended(exp, p, steps, states, s, Provides(key, None));
      assert next.phase.running == s.phase.running - {key};
      longer, after, t := ProvideAll(exp, p, steps + [Provides(key, None)], states + [next], next);
    }
  }

  lemma AllProvided(exp: Experiment, p: Producers, s: State, k: RowKey)
    requires Sound(exp, p, s) && OnlyProvisioning(exp, s) && s.phase.running == {} && k in s.sheet.rows
    ensures Solvable(s.sheet, k) && s.sheet.provisions[s.sheet.rows[k].seed.armKey].subject.Some?
    ensures s.sheet.rows[k] == Row(s.sheet.rows[k].seed, NEW_SOLVE, EmptyScores(exp.metricNames), map[])
      && s.sheet.metricNames == exp.metricNames
  {
    BuiltIsPending(exp);
    CanonicalFormed(Built(exp), p, s.sheet);
    var key := s.sheet.rows[k].seed.armKey;
    assert RightProvision(p, key, s.sheet.provisions[key]);
  }

  /** From there the row's answer is one call away, and then its whole list is to be scored. */
  lemma RowIsAnswered(exp: Experiment, p: Producers, s: State, k: RowKey)
    requires Sound(exp, p, s) && OnlyProvisioning(exp, s) && s.phase.running == {} && k in s.sheet.rows
    ensures Enabled(exp, s, StartsRows)
    ensures var t := Next(exp, p, s, StartsRows);
      && Enabled(exp, t, StartsRow(k))
      && var u := Next(exp, p, t, StartsRow(k));
         && Enabled(exp, u, Solves(k, None))
         && var v := Next(exp, p, u, Solves(k, None));
            && v.phase.Filling? && k in v.phase.chains && k in v.sheet.rows && v.phase.chains[k].Scoring?
            && v.phase.chains[k].todo == Unscored(exp.metricNames, v.sheet.rows[k])
            && forall name :: !Scored(v.sheet.rows[k], name)
  {
    AllProvided(exp, p, s, k);
  }

  /** A run in which every provision and then one row's answer has come in. */
  lemma AnswerRow(exp: Experiment, p: Producers, k: RowKey) returns (steps: seq<Step>, states: seq<State>, s: State)
    requires k in Built(exp).rows
    ensures IsRunTo(exp, p, steps, states, s)
    ensures s.phase.Filling? && k in s.phase.chains && k in s.sheet.rows && s.phase.chains[k].Scoring?
    ensures s.phase.chains[k].todo == Unscored(exp.metricNames, s.sheet.rows[k])
    ensures forall name :: !Scored(s.sheet.rows[k], name)
  {
    s := Initially(exp);
    BuiltIsPending(exp);
    Extended(exp, p, [], [s], s, Begins);
    steps, states, s := ProvideAll(exp, p, [] + [Begins], [s] + [Next(exp, p, s, Begins)], Next(exp, p, s, Begins));
    RunsSound(exp, p, steps, states, |states| - 1);
    RowIsAnswered(exp, p, s, k);
    steps, states, s := Move(exp, p, steps, states, s, StartsRows);
    steps, states, s := Move(exp, p, steps, states, s, StartsRow(k));
    steps, states, s := Move(exp, p, steps, states, s, Solves(k, None));
  }

  /** If a metric is listed twice and there is a row at all, some run overwrites a score with a failure. */
  lemma SomeCellChanges(exp: Experiment) returns (steps: seq<Step>, states: seq<State>, n: nat)
    requires !Distinct(exp.metricNames) && exp.arms != [] && exp.cases != []
    ensures IsRun(exp, Uniform(exp.metricNames), steps, states) && n < |steps| && NoRestart(steps, n, n + 1)
    ensures !CellsStay(states[n].sheet, states[n + 1].sheet)
  {
    var p, k := Uniform(exp.metricNames), RowKeyOf(exp, 0, 0);
    assert k in Built(exp).rows by { BuiltIsPending(exp); }
    var s: State;
    steps, states, s := AnswerRow(exp, p, k);
    var name := RepeatedListedTwice(exp.metricNames, s.sheet.rows[k]);
    UnscoredHolds(exp.metricNames, s.sheet.rows[k], name);
    RepeatedNameOverwrites(exp, p, s, k, name, "");
    steps, states, s := Move(exp, p, steps, states, s, Scores(k, name, None));
    n := |steps|;
    steps, states, s := Move(exp, p, steps, states, s, Scores(k, name, Some("")));
  }

  lemma Move(exp: Experiment, p: Producers, steps: seq<Step>, states: seq<State>, s: State, step: Step)
    returns (longer: seq<Step>, after: seq<State>, t: State)
    requires IsRunTo(exp, p, steps, states, s) && Enabled(exp, s, step) && !step.Crashes? && !step.Discards?
    ensures t == Next(exp, p, s, step) && IsRunTo(exp, p, longer, after, t)
    ensures |longer| == |steps| + 1 && after[|steps|] == s && after[|steps| + 1] == t
  {
    Extended(exp, p, steps, states, s, step);
    longer, after, t := steps + [step], states + [Next(exp, p, s, step)], Next(exp, p, s, step);
  }

  /** In no run, whatever its producers, failures and interleaving, does a filled cell change before a restart. */
  ghost predicate CellsNeverChange(exp: Experiment) {
    forall p: Producers, steps: seq<Step>, states: seq<State>, i: nat, j: nat
      | IsRun(exp, p, steps, states) && i <= j < |states| && NoRestart(steps, i, j)
      :: CellsStay(states[i].sheet, states[j].sheet)
  }

  /** Filled cells never change exactly when no metric is listed twice, or there are no rows at all. */
  lemma CellsNeverChangeIff(exp: Experiment)
    ensures CellsNeverChange(exp) <==> Distinct(exp.metricNames) || exp.arms == [] || exp.cases == []
  {
    if Distinct(exp.metricNames) {
      forall p: Producers, steps: seq<Step>, states: seq<State>, i: nat, j: nat
        | IsRun(exp, p, steps, states) && i <= j < |states| && NoRestart(steps, i, j)
        ensures CellsStay(states[i].sheet, states[j].sheet)
      {
        FilledCellsStay(exp, p, steps, states, i, j);
      }
    } else if exp.arms == [] || exp.cases == [] {
      forall p: Producers, steps: seq<Step>, states: seq<State>, i: nat, j: nat
        | IsRun(exp, p, steps, states) && i <= j < |states| && NoRestart(steps, i, j)
        ensures CellsStay(states[i].sheet, states[j].sheet)
      {
        NoRowsNoCells(exp, p, steps, states, i);
      }
    } else {
      var steps, states, n := SomeCellChanges(exp);
      assert NoRestart(steps, n, n + 1);
    }
  }
}
