/** What each step of the reconciler keeps: cells hold what their producers return, and each row
    stands where its cells say. */
module ReconcileSteps {
  import opened Wrappers
  import opened Worksheets
  import opened Checkpoints
  import opened Reconciler

  ghost predicate Distinct(names: seq<string>) {
    forall i, j | 0 <= i < j < |names| :: names[i] != names[j]
  }

  // ----- Every cell that is there holds what its producers return -----

  function AnswerOf(p: Producers, seed: Seed): Answer { p.solve(seed, p.provide(seed.armKey)).0 }

  function MetaOf(p: Producers, seed: Seed): map<string, Json> { map[] + p.solve(seed, p.provide(seed.armKey)).1 }

  ghost predicate RightProvision(p: Producers, key: string, v: Provision) {
    if v.state.Ok? then v == Provision(Ok, Some(p.provide(key)), None) else v.subject.None?
  }

  ghost predicate RightSolve(p: Producers, row: Row) {
    if row.solve.state.Ok?
      then row.solve == SolveCell(Ok, AnswerOf(p, row.seed), None) && row.meta == MetaOf(p, row.seed)
    else row.solve.answer == NO_ANSWER && row.meta == map[]
  }

  ghost predicate RightScore(p: Producers, row: Row, name: string, c: ScoreCell) {
    if c.state.Ok? then
      && row.solve.state.Ok? && name in p.metrics
      && c == ScoreCell(Ok, Some(Judge(p.metrics[name], ToSample(row.seed, AnswerOf(p, row.seed)))), None)
    else c.result.None?
  }

  ghost predicate RightRow(p: Producers, names: seq<string>, row: Row) {
    && RightSolve(p, row)
    && (forall name :: name in row.scores <==> name in names)
    && (forall name <- row.scores :: RightScore(p, row, name, row.scores[name]))
  }

  ghost predicate RightProvisions(p: Producers, sheet: Sheet) {
    forall key <- sheet.provisions :: RightProvision(p, key, sheet.provisions[key])
  }

  ghost predicate RowInPlace(base: Sheet, p: Producers, sheet: Sheet, k: RowKey)
    requires k in sheet.rows && k in base.rows
  {
    && sheet.rows[k].seed == base.rows[k].seed && RightRow(p, base.metricNames, sheet.rows[k])
    && (sheet.rows[k].solve.state.Ok? ==> Solvable(sheet, k))
  }

  ghost predicate RightRows(base: Sheet, p: Producers, sheet: Sheet) {
    forall k <- sheet.rows :: k in base.rows && RowInPlace(base, p, sheet, k)
  }

  /** The worksheet has the rows and provisions of the one first built, and each filled cell holds what
      its producers return for its inputs; an answer needs its provision and a score its answer. */
  ghost predicate Canonical(base: Sheet, p: Producers, sheet: Sheet) {
    && sheet.(rows := map[], provisions := map[]) == base.(rows := map[], provisions := map[])
    && sheet.rows.Keys == base.rows.Keys && sheet.provisions.Keys == base.provisions.Keys
    && RightProvisions(p, sheet) && RightRows(base, p, sheet)
  }

  /** A worksheet as built: well formed, and nothing done yet. */
  ghost predicate Base(base: Sheet) { Formed(base) && AllPending(base) }

  lemma CanonicalFormed(base: Sheet, p: Producers, sheet: Sheet)
    requires Formed(base) && Canonical(base, p, sheet)
    ensures Formed(sheet) && sheet.metricNames == base.metricNames && sheet.hash == base.hash
  {
    forall k <- sheet.rows
      ensures KeyOf(sheet.rows[k].seed) == k && sheet.rows[k].seed.armKey in sheet.provisions
      ensures forall name <- sheet.rows[k].scores :: name in sheet.metricNames
    {
      assert k in base.rows && RowInPlace(base, p, sheet, k);
    }
  }

  lemma BaseCanonical(base: Sheet, p: Producers)
    requires Base(base)
    ensures Canonical(base, p, base)
  {
  }

  /** The worksheet with every cell filled by its producers. */
  ghost function Filled(base: Sheet, p: Producers): Sheet {
    base.(provisions := map key <- base.provisions :: Provision(Ok, Some(p.provide(key)), None),
          rows := map k <- base.rows :: FilledRow(base.metricNames, p, base.rows[k].seed))
  }

  ghost function FilledRow(names: seq<string>, p: Producers, seed: Seed): Row {
    Row(seed, SolveCell(Ok, AnswerOf(p, seed), None),
      map name | name in names && name in p.metrics
        :: ScoreCell(Ok, Some(Judge(p.metrics[name], ToSample(seed, AnswerOf(p, seed)))), None),
      MetaOf(p, seed))
  }

  lemma RowIsFilled(names: seq<string>, p: Producers, row: Row)
    requires RightRow(p, names, row) && row.solve.state.Ok? && forall name <- names :: Scored(row, name)
    ensures row == FilledRow(names, p, row.seed)
  {
    var filled := FilledRow(names, p, row.seed);
    forall name ensures name in row.scores <==> name in filled.scores {
      if name in row.scores {
        assert RightScore(p, row, name, row.scores[name]) && Scored(row, name);
      }
    }
    forall name <- row.scores ensures row.scores[name] == filled.scores[name] {
      assert RightScore(p, row, name, row.scores[name]) && Scored(row, name);
    }
    assert row.scores == filled.scores;
  }

  /** A complete canonical worksheet can only be the one with every cell filled. */
  lemma CompleteIsFilled(base: Sheet, p: Producers, sheet: Sheet)
    requires Formed(base) && Canonical(base, p, sheet) && Complete(sheet)
    ensures sheet == Filled(base, p)
  {
    CanonicalFormed(base, p, sheet);
    CompleteIffAllOk(sheet);
    forall key <- sheet.provisions ensures sheet.provisions[key] == Filled(base, p).provisions[key] {
      assert RightProvision(p, key, sheet.provisions[key]);
    }
    assert sheet.provisions == Filled(base, p).provisions;
    forall k <- sheet.rows ensures sheet.rows[k] == Filled(base, p).rows[k] {
      assert RowInPlace(base, p, sheet, k);
      RowIsFilled(base.metricNames, p, sheet.rows[k]);
    }
    assert sheet.rows == Filled(base, p).rows;
  }

  // ----- Where the rows stand -----

  /** The list to score holds the missing ones. */
  lemma {:induction false} UnscoredHolds(names: seq<string>, row: Row, name: string)
    ensures name in Unscored(names, row) <==> name in names && !Scored(row, name)
  {
    if names == [] {
    } else {
      UnscoredHolds(names[1..], row, name);
    }
  }

  /** With distinct names it holds each of them once. */
  lemma {:induction false} UnscoredOnce(names: seq<string>, row: Row, name: string)
    requires Distinct(names)
    ensures Unscored(names, row)[name] == if name in names && !Scored(row, name) then 1 else 0
  {
    if names == [] {
    } else {
      assert Distinct(names[1..]) by {
        forall i, j | 0 <= i < j < |names[1..]| ensures names[1..][i] != names[1..][j] {
          assert names[i + 1] != names[j + 1];
        }
      }
      UnscoredOnce(names[1..], row, name);
      assert forall j | 0 <= j < |names[1..]| :: names[1..][j] == names[j + 1] != names[0];
    }
  }

  /** A row stands where its cells say, and the history says what failed and is not to be tried again. */
  ghost predicate Placed(s: State, k: RowKey, c: Chain)
    requires k in s.sheet.rows
  {
    var row, names := s.sheet.rows[k], s.sheet.metricNames;
    match c
    case Fresh => OfSolve(k) !in s.failed && forall name :: OfScore(k, name) !in s.failed
    case Solving =>
      && Solvable(s.sheet, k) && !row.solve.state.Ok?
      && OfSolve(k) !in s.failed && forall name :: OfScore(k, name) !in s.failed
    case Scoring(sample, todo) =>
      && row.solve.state.Ok? && sample == ToSample(row.seed, row.solve.answer) && OfSolve(k) !in s.failed
      && (forall name <- todo :: name in names)
      && (forall name <- names :: Scored(row, name) || name in todo || OfScore(k, name) in s.failed)
      && (forall name | OfScore(k, name) in s.failed :: name in names && !Scored(row, name))
    case Done =>
      && (if Solvable(s.sheet, k) then OfSolve(k) in s.failed && !row.solve.state.Ok? else OfSolve(k) !in s.failed)
      && forall name :: OfScore(k, name) !in s.failed
  }

  ghost predicate ProvisionsPlaced(s: State, running: set<string>) {
    && (forall key <- running ::
       key in s.sheet.provisions && !s.sheet.provisions[key].state.Ok? && OfProvision(key) !in s.failed)
    && (forall key <- s.sheet.provisions ::
       s.sheet.provisions[key].state.Ok? || key in running || OfProvision(key) in s.failed)
    && (forall key | OfProvision(key) in s.failed :: key in s.sheet.provisions && !s.sheet.provisions[key].state.Ok?)
  }

  ghost predicate AllPlaced(s: State, chains: map<RowKey, Chain>) {
    && chains.Keys == s.sheet.rows.Keys
    && forall k <- chains :: k in s.sheet.rows && Placed(s, k, chains[k])
  }

  ghost predicate FailedRowsExist(s: State) {
    forall g <- s.failed :: g.OfProvision? || g.k in s.sheet.rows
  }

  ghost predicate Tracked(s: State) {
    match s.phase
    case Off => true
    case Refused => true
    case Provisioning(running) => ProvisionsPlaced(s, running) && forall g <- s.failed :: g.OfProvision?
    case Filling(chains) => ProvisionsPlaced(s, {}) && AllPlaced(s, chains) && FailedRowsExist(s)
    case Over => Complete(s.sheet) <==> s.failed == {}
  }

  /** A checkpoint can be read, and holds a canonical worksheet. */
  ghost predicate Recoverable(base: Sheet, p: Producers, saved: Option<seq<Record>>) {
    saved.Some? ==> Read(saved.value).Some? && Canonical(base, p, Read(saved.value).value)
  }

  // ----- Provisions -----

  lemma ProvisionReplaced(base: Sheet, p: Producers, sheet: Sheet, key: string, v: Provision)
    requires Canonical(base, p, sheet) && key in sheet.provisions && !sheet.provisions[key].state.Ok?
      && RightProvision(p, key, v)
    ensures Canonical(base, p, sheet.(provisions := sheet.provisions[key := v]))
  {
    var t := sheet.(provisions := sheet.provisions[key := v]);
    forall k <- t.rows ensures k in base.rows && RowInPlace(base, p, t, k) {
      assert RowInPlace(base, p, sheet, k);
    }
  }

  lemma ProvideTracked(p: Producers, s: State, key: string, error: Option<string>)
    requires Tracked(s) && s.phase.Provisioning? && key in s.phase.running && key in s.sheet.provisions
    ensures Tracked(Provide(p, s, key, error))
  {
  }

  // ----- Rows -----

  ghost predicate FailedElsewhere(a: set<Gap>, b: set<Gap>, k: RowKey) {
    forall g: Gap | g.OfProvision? || g.k != k :: g in a <==> g in b
  }

  /** Changing one row and its chain leaves the others where they were. */
  lemma OthersPlaced(s: State, k: RowKey, row: Row, c: Chain, calls: nat, failed: set<Gap>, j: RowKey)
    requires s.phase.Filling? && k in s.sheet.rows && FailedElsewhere(s.failed, failed, k)
    requires j != k && j in s.sheet.rows && j in s.phase.chains && Placed(s, j, s.phase.chains[j])
    ensures Placed(RowMoved(s, k, row, c, calls, failed), j, s.phase.chains[j])
  {
  }

  /** Changing one row rightly keeps the worksheet canonical. */
  lemma RowReplaced(base: Sheet, p: Producers, sheet: Sheet, k: RowKey, row: Row)
    requires Canonical(base, p, sheet) && k in sheet.rows
    requires row.seed == sheet.rows[k].seed && RightRow(p, base.metricNames, row)
      && (row.solve.state.Ok? ==> Solvable(sheet, k))
    ensures Canonical(base, p, sheet.(rows := sheet.rows[k := row]))
  {
    var t := sheet.(rows := sheet.rows[k := row]);
    forall j <- t.rows ensures j in base.rows && RowInPlace(base, p, t, j) {
      assert RowInPlace(base, p, sheet, j);
    }
  }

  lemma RowMovedTracked(s: State, k: RowKey, row: Row, c: Chain, calls: nat, failed: set<Gap>)
    requires Tracked(s) && s.phase.Filling? && k in s.sheet.rows && FailedElsewhere(s.failed, failed, k)
    requires Placed(RowMoved(s, k, row, c, calls, failed), k, c)
    ensures Tracked(RowMoved(s, k, row, c, calls, failed))
  {
    var t := RowMoved(s, k, row, c, calls, failed);
    forall j <- t.phase.chains ensures j in t.sheet.rows && Placed(t, j, t.phase.chains[j]) {
      if j != k { OthersPlaced(s, k, row, c, calls, failed, j); }
    }
    assert AllPlaced(t, t.phase.chains);
    assert FailedRowsExist(t) && ProvisionsPlaced(t, {});
  }

  lemma AllUnscored(names: seq<string>, row: Row)
    ensures forall name :: name in Unscored(names, row) <==> name in names && !Scored(row, name)
  {
    forall name ensures name in Unscored(names, row) <==> name in names && !Scored(row, name) {
      UnscoredHolds(names, row, name);
    }
  }

  lemma StartedPlaced(s: State, k: RowKey)
    requires k in s.sheet.rows && Placed(s, k, Fresh)
    requires s.sheet.rows[k].solve.state.Ok? ==> Solvable(s.sheet, k)
    ensures Placed(s, k, Started(s.sheet, k))
  {
    AllUnscored(s.sheet.metricNames, s.sheet.rows[k]);
  }

  lemma StartsRowTracked(s: State, k: RowKey)
    requires Tracked(s) && s.phase.Filling? && k in s.phase.chains && s.phase.chains[k].Fresh?
    requires k in s.sheet.rows && (s.sheet.rows[k].solve.state.Ok? ==> Solvable(s.sheet, k))
    ensures Tracked(WithChain(s, k, Started(s.sheet, k)))
  {
    StartedPlaced(s, k);
    assert s.sheet.rows[k := s.sheet.rows[k]] == s.sheet.rows;
    RowMovedTracked(s, k, s.sheet.rows[k], Started(s.sheet, k), s.calls, s.failed);
  }

  // ----- Answers -----

  lemma SolvedRight(names: seq<string>, p: Producers, row: Row, after: Row)
    requires RightRow(p, names, row) && !row.solve.state.Ok?
    requires var r := p.solve(row.seed, p.provide(row.seed.armKey)); after == Answered(row, r.0, r.1)
    ensures RightRow(p, names, after)
  {
    forall name <- after.scores ensures RightScore(p, after, name, after.scores[name]) {
      assert RightScore(p, row, name, row.scores[name]);
    }
  }

  lemma SolveFailedRight(names: seq<string>, p: Producers, row: Row, error: string)
    requires RightRow(p, names, row) && !row.solve.state.Ok?
    ensures RightRow(p, names, SolveFailed(row, error))
  {
    forall name <- row.scores ensures RightScore(p, SolveFailed(row, error), name, row.scores[name]) {
      assert RightScore(p, row, name, row.scores[name]);
    }
  }

  lemma SolvedPlaced(s: State, k: RowKey, row: Row, calls: nat)
    requires s.phase.Filling? && k in s.sheet.rows && Placed(s, k, Solving) && row.solve.state.Ok?
    ensures var c := Scoring(ToSample(row.seed, row.solve.answer), Unscored(s.sheet.metricNames, row));
      Placed(RowMoved(s, k, row, c, calls, s.failed), k, c)
  {
    AllUnscored(s.sheet.metricNames, row);
  }

  lemma UnsolvedPlaced(s: State, k: RowKey, row: Row, calls: nat)
    requires s.phase.Filling? && k in s.sheet.rows && Placed(s, k, Solving)
    requires !row.solve.state.Ok? && row.seed == s.sheet.rows[k].seed
    ensures Placed(RowMoved(s, k, row, Done, calls, s.failed + {OfSolve(k)}), k, Done)
  {
  }

  ghost predicate CanSolve(s: State, k: RowKey) {
    && s.phase.Filling? && k in s.phase.chains && s.phase.chains[k].Solving? && k in s.sheet.rows
    && s.sheet.rows[k].seed.armKey in s.sheet.provisions
       && s.sheet.provisions[s.sheet.rows[k].seed.armKey].subject.Some?
  }

  /** The row as its answer, or the failure to get one, leaves it. */
  function SolvedRow(p: Producers, row: Row, error: Option<string>): Row {
    if error.Some? then SolveFailed(row, error.value)
    else
      var r := p.solve(row.seed, p.provide(row.seed.armKey));
      Answered(row, r.0, r.1)
  }

  lemma SolvedRowRight(names: seq<string>, p: Producers, row: Row, error: Option<string>)
    requires RightRow(p, names, row) && !row.solve.state.Ok?
    ensures RightRow(p, names, SolvedRow(p, row, error)) && SolvedRow(p, row, error).seed == row.seed
  {
    if error.Some? { SolveFailedRight(names, p, row, error.value); }
    else { SolvedRight(names, p, row, SolvedRow(p, row, error)); }
  }

  lemma SolveCanonical(base: Sheet, p: Producers, sheet: Sheet, k: RowKey, error: Option<string>)
    requires Canonical(base, p, sheet) && k in sheet.rows && !sheet.rows[k].solve.state.Ok? && Solvable(sheet, k)
    ensures Canonical(base, p, sheet.(rows := sheet.rows[k := SolvedRow(p, sheet.rows[k], error)]))
  {
    assert RowInPlace(base, p, sheet, k);
    SolvedRowRight(base.metricNames, p, sheet.rows[k], error);
    RowReplaced(base, p, sheet, k, SolvedRow(p, sheet.rows[k], error));
  }

  /** With the right subject, a step of solving is the right row and a chain moved on. */
  lemma SolveMoves(p: Producers, s: State, k: RowKey, error: Option<string>)
    requires CanSolve(s, k)
    requires s.sheet.provisions[s.sheet.rows[k].seed.armKey].subject.value == p.provide(s.sheet.rows[k].seed.armKey)
    ensures var row := SolvedRow(p, s.sheet.rows[k], error);
      Solve(p, s, k, error)
        == if error.Some? then RowMoved(s, k, row, Done, s.calls + 1, s.failed + {OfSolve(k)})
           else RowMoved(s, k, row, Scoring(ToSample(row.seed, row.solve.answer), Unscored(s.sheet.metricNames, row)),
             s.calls + 1, s.failed)
  {
  }

  lemma SolveSucceedsTracked(p: Producers, s: State, k: RowKey)
    requires Tracked(s) && CanSolve(s, k)
    requires s.sheet.provisions[s.sheet.rows[k].seed.armKey].subject.value == p.provide(s.sheet.rows[k].seed.armKey)
    ensures Tracked(Solve(p, s, k, None))
  {
    var row := SolvedRow(p, s.sheet.rows[k], None);
    assert Placed(s, k, Solving);
    SolveMoves(p, s, k, None);
    SolvedPlaced(s, k, row, s.calls + 1);
    RowMovedTracked(s, k, row, Scoring(ToSample(row.seed, row.solve.answer), Unscored(s.sheet.metricNames, row)),
      s.calls + 1, s.failed);
  }

  lemma SolveFailsTracked(p: Producers, s: State, k: RowKey, error: string)
    requires Tracked(s) && CanSolve(s, k)
    requires s.sheet.provisions[s.sheet.rows[k].seed.armKey].subject.value == p.provide(s.sheet.rows[k].seed.armKey)
    ensures Tracked(Solve(p, s, k, Some(error)))
  {
    var row := SolvedRow(p, s.sheet.rows[k], Some(error));
    assert Placed(s, k, Solving);
    SolveMoves(p, s, k, Some(error));
    UnsolvedPlaced(s, k, row, s.calls + 1);
    RowMovedTracked(s, k, row, Done, s.calls + 1, s.failed + {OfSolve(k)});
  }

  // ----- Scores -----

  lemma ScoredRight(names: seq<string>, p: Producers, row: Row, name: string, c: ScoreCell)
    requires RightRow(p, names, row) && name in names && RightScore(p, row, name, c)
    ensures RightRow(p, names, row.(scores := row.scores[name := c]))
  {
    var after := row.(scores := row.scores[name := c]);
    forall n <- after.scores ensures RightScore(p, after, n, after.scores[n]) {
      if n != name { assert RightScore(p, row, n, row.scores[n]); }
    }
  }

  /** A score that has been tried is off the list once: filled, or noted as failed. */
  lemma ScorePlaced(s: State, k: RowKey, name: string, c: ScoreCell, left: Chain, calls: nat, failed: set<Gap>)
    requires s.phase.Filling? && k in s.sheet.rows && k in s.phase.chains && Placed(s, k, s.phase.chains[k])
    requires s.phase.chains[k].Scoring? && name in s.phase.chains[k].todo
    requires left == Scoring(s.phase.chains[k].sample, s.phase.chains[k].todo - multiset{name})
    requires failed == if c.state.Ok? then s.failed - {OfScore(k, name)} else s.failed + {OfScore(k, name)}
    ensures Placed(RowMoved(s, k, s.sheet.rows[k].(scores := s.sheet.rows[k].scores[name := c]), left, calls, failed),
      k, left)
  {
    var row := s.sheet.rows[k];
    var after := row.(scores := row.scores[name := c]);
    assert Scored(after, name) <==> c.state.Ok?;
    forall n | n != name ensures Scored(after, n) <==> Scored(row, n) {
    }
  }

  lemma ScoreCanonical(base: Sheet, p: Producers, sheet: Sheet, k: RowKey, name: string, error: Option<string>)
    requires Canonical(base, p, sheet) && k in sheet.rows && sheet.rows[k].solve.state.Ok? && name in sheet.metricNames
    ensures var row := sheet.rows[k];
      var c := ScoreCellOf(p, ToSample(row.seed, row.solve.answer), name, error);
      Canonical(base, p, sheet.(rows := sheet.rows[k := row.(scores := row.scores[name := c])]))
  {
    var row := sheet.rows[k];
    assert RowInPlace(base, p, sheet, k);
    var c := ScoreCellOf(p, ToSample(row.seed, row.solve.answer), name, error);
    ScoredRight(base.metricNames, p, row, name, c);
    RowReplaced(base, p, sheet, k, row.(scores := row.scores[name := c]));
  }

  lemma FailedHere(failed: set<Gap>, k: RowKey, name: string)
    ensures FailedElsewhere(failed, failed - {OfScore(k, name)}, k)
    ensures FailedElsewhere(failed, failed + {OfScore(k, name)}, k)
  {
  }

  lemma CellTracked(s: State, k: RowKey, name: string, c: ScoreCell, left: Chain, calls: nat, failed: set<Gap>,
                    t: State)
    requires Tracked(s) && s.phase.Filling? && k in s.phase.chains && k in s.sheet.rows
    requires s.phase.chains[k].Scoring? && name in s.phase.chains[k].todo
    requires left == Scoring(s.phase.chains[k].sample, s.phase.chains[k].todo - multiset{name})
    requires failed == if c.state.Ok? then s.failed - {OfScore(k, name)} else s.failed + {OfScore(k, name)}
    requires t == RowMoved(s, k, s.sheet.rows[k].(scores := s.sheet.rows[k].scores[name := c]), left, calls, failed)
    ensures Tracked(t)
  {
    FailedHere(s.failed, k, name);
    ScorePlaced(s, k, name, c, left, calls, failed);
    RowMovedTracked(s, k, s.sheet.rows[k].(scores := s.sheet.rows[k].scores[name := c]), left, calls, failed);
  }

  lemma ScoreTracked(p: Producers, s: State, k: RowKey, name: string, error: Option<string>)
    requires Tracked(s) && s.phase.Filling? && k in s.phase.chains && k in s.sheet.rows
    requires s.phase.chains[k].Scoring? && name in s.phase.chains[k].todo
    ensures Tracked(Score(p, s, k, name, error))
  {
    var chain := s.phase.chains[k];
    var c := ScoreCellOf(p, chain.sample, name, error);
    CellTracked(s, k, name, c, Scoring(chain.sample, chain.todo - multiset{name}),
      s.calls + CallsFor(p, chain.sample, name),
      if c.state.Ok? then s.failed - {OfScore(k, name)} else s.failed + {OfScore(k, name)},
      Score(p, s, k, name, error));
  }
}
