/** The worksheet of an evaluation: provisions shared by rows, each row's answer, and its scores. */
module Worksheets {
  import opened Wrappers

  /** Values carried along unread. */
  datatype Json =
    | Null
    | Bool(b: bool)
    | Num(n: real)
    | Str(s: string)
    | Arr(items: seq<Json>)
    | Obj(fields: map<string, Json>)

  datatype CellState = Pending | Ok | Failed

  datatype Provision = Provision(state: CellState, subject: Option<string>, error: Option<string>)

  datatype Answer = Answer(response: Option<string>, retrieved: seq<string>, citations: seq<Json>,
    observations: map<string, Json>)

  datatype SolveCell = SolveCell(state: CellState, answer: Answer, error: Option<string>)

  datatype MetricResult = MetricResult(
    name: string, kind: string, score: Option<real>, judgement: string, value: Option<real>, unit: Option<string>)

  datatype ScoreCell = ScoreCell(state: CellState, result: Option<MetricResult>, error: Option<string>)

  /** What a row takes from the case and the arm; never filled in later. */
  datatype Seed = Seed(
    armId: string, armKey: string, corpus: string, caseId: string, runId: string, query: string,
    expectedBehavior: string, groundTruth: Option<string>, dimensions: map<string, string>,
    evidenceSources: seq<string>, candidateSources: seq<string>)

  datatype Row = Row(seed: Seed, solve: SolveCell, scores: map<string, ScoreCell>, meta: map<string, Json>)

  datatype RowKey = RowKey(armId: string, corpus: string, caseId: string)

  /** A file that belongs to the run. */
  datatype Artifact = Artifact(name: string, path: string)

  datatype Sheet = Sheet(
    experiment: string, hash: string, runId: string, createdAt: string, artifacts: seq<Artifact>,
    metricNames: seq<string>, rows: map<RowKey, Row>, provisions: map<string, Provision>)

  /** The read-only view of a row that a metric scores. */
  datatype Sample = Sample(
    caseId: string, armId: string, corpus: string, query: string, expectedBehavior: string,
    groundTruth: Option<string>, dimensions: map<string, string>, evidenceSources: seq<string>,
    candidateSources: seq<string>, answer: Answer)

  const NO_ANSWER := Answer(None, [], [], map[])
  const NEW_PROVISION := Provision(Pending, None, None)
  const NEW_SOLVE := SolveCell(Pending, NO_ANSWER, None)
  const NEW_SCORE := ScoreCell(Pending, None, None)

  function KeyOf(seed: Seed): RowKey { RowKey(seed.armId, seed.corpus, seed.caseId) }

  function ToSample(seed: Seed, answer: Answer): Sample {
    Sample(seed.caseId, seed.armId, seed.corpus, seed.query, seed.expectedBehavior, seed.groundTruth,
      seed.dimensions, seed.evidenceSources, seed.candidateSources, answer)
  }

  // ----- Building -----

  datatype Case = Case(
    id: string, query: string, expectedBehavior: string, groundTruth: Option<string>, dimensions: map<string, string>,
    evidenceSources: seq<string>, candidateSources: seq<string>)

  /** An experiment as far as the worksheet depends on it; the provision key of an arm on a corpus is
      computed elsewhere. */
  datatype Experiment = Experiment(
    name: string, hash: string, runId: string, createdAt: string, metricNames: seq<string>,
    arms: seq<string>, cases: seq<(string, Case)>, keyFor: (nat, string) -> string)

  function SeedFor(exp: Experiment, arm: nat, corpus: string, c: Case): Seed
    requires arm < |exp.arms|
  {
    Seed(exp.arms[arm], exp.keyFor(arm, corpus), corpus, c.id, exp.runId, c.query, c.expectedBehavior, c.groundTruth,
      c.dimensions, c.evidenceSources, c.candidateSources)
  }

  function EmptyScores(names: seq<string>): map<string, ScoreCell> {
    map name | name in names :: NEW_SCORE
  }

  function NewRow(exp: Experiment, seed: Seed): Row {
    Row(seed, NEW_SOLVE, EmptyScores(exp.metricNames), map[])
  }

  /** Add the row of an arm and a case, and its provision if there is none yet. */
  function WithCase(exp: Experiment, sheet: Sheet, arm: nat, c: (string, Case)): Sheet
    requires arm < |exp.arms|
  {
    var seed := SeedFor(exp, arm, c.0, c.1);
    sheet.(rows := sheet.rows[KeyOf(seed) := NewRow(exp, seed)],
           provisions := if seed.armKey in sheet.provisions then sheet.provisions
                         else sheet.provisions[seed.armKey := NEW_PROVISION])
  }

  function WithCases(exp: Experiment, sheet: Sheet, arm: nat, n: nat): Sheet
    requires arm < |exp.arms| && n <= |exp.cases|
    decreases n
  {
    if n == 0 then sheet else WithCase(exp, WithCases(exp, sheet, arm, n - 1), arm, exp.cases[n - 1])
  }

  function WithArms(exp: Experiment, n: nat): Sheet
    requires n <= |exp.arms|
    decreases n
  {
    if n == 0 then Sheet(exp.name, exp.hash, exp.runId, exp.createdAt, [], exp.metricNames, map[], map[])
    else WithCases(exp, WithArms(exp, n - 1), n - 1, |exp.cases|)
  }

  function Built(exp: Experiment): Sheet { WithArms(exp, |exp.arms|) }

  /** Each row sits under its own key. */
  ghost predicate Keyed(sheet: Sheet) {
    forall k <- sheet.rows :: KeyOf(sheet.rows[k].seed) == k
  }

  /** Each row sits under its own key and shares a provision that exists. */
  ghost predicate Formed(sheet: Sheet) {
    && (forall k <- sheet.rows :: KeyOf(sheet.rows[k].seed) == k && sheet.rows[k].seed.armKey in sheet.provisions)
    && (forall k <- sheet.rows, name <- sheet.rows[k].scores :: name in sheet.metricNames)
  }

  ghost predicate AllPending(sheet: Sheet) {
    && (forall key <- sheet.provisions :: sheet.provisions[key] == NEW_PROVISION)
    && (forall k <- sheet.rows ::
       sheet.rows[k] == Row(sheet.rows[k].seed, NEW_SOLVE, EmptyScores(sheet.metricNames), map[]))
  }

  function RowKeyOf(exp: Experiment, arm: nat, i: nat): RowKey
    requires arm < |exp.arms| && i < |exp.cases|
  {
    RowKey(exp.arms[arm], exp.cases[i].0, exp.cases[i].1.id)
  }

  function ProvisionKeyOf(exp: Experiment, arm: nat, i: nat): string
    requires i < |exp.cases|
  {
    exp.keyFor(arm, exp.cases[i].0)
  }

  /** The row keys of one arm's first cases, and of the first arms with all cases; and the provision keys. */
  function CaseRows(exp: Experiment, arm: nat, n: nat): set<RowKey>
    requires arm < |exp.arms| && n <= |exp.cases|
  {
    if n == 0 then {} else CaseRows(exp, arm, n - 1) + {RowKeyOf(exp, arm, n - 1)}
  }

  function CaseProvisions(exp: Experiment, arm: nat, n: nat): set<string>
    requires n <= |exp.cases|
  {
    if n == 0 then {} else CaseProvisions(exp, arm, n - 1) + {ProvisionKeyOf(exp, arm, n - 1)}
  }

  function ArmRows(exp: Experiment, n: nat): set<RowKey>
    requires n <= |exp.arms|
  {
    if n == 0 then {} else ArmRows(exp, n - 1) + CaseRows(exp, n - 1, |exp.cases|)
  }

  function ArmProvisions(exp: Experiment, n: nat): set<string>
    requires n <= |exp.arms|
  {
    if n == 0 then {} else ArmProvisions(exp, n - 1) + CaseProvisions(exp, n - 1, |exp.cases|)
  }

  lemma CaseBuilt(exp: Experiment, sheet: Sheet, arm: nat, c: (string, Case))
    requires arm < |exp.arms| && Formed(sheet) && AllPending(sheet) && sheet.metricNames == exp.metricNames
    ensures var t := WithCase(exp, sheet, arm, c);
      Formed(t) && AllPending(t) && t.metricNames == exp.metricNames && t.hash == sheet.hash
  {
  }

  lemma CaseKeys(exp: Experiment, sheet: Sheet, arm: nat, i: nat)
    requires arm < |exp.arms| && i < |exp.cases|
    ensures WithCase(exp, sheet, arm, exp.cases[i]).rows.Keys == sheet.rows.Keys + {RowKeyOf(exp, arm, i)}
    ensures WithCase(exp, sheet, arm, exp.cases[i]).provisions.Keys
      == sheet.provisions.Keys + {ProvisionKeyOf(exp, arm, i)}
  {
  }

  lemma {:induction false} CasesBuilt(exp: Experiment, sheet: Sheet, arm: nat, n: nat)
    requires arm < |exp.arms| && n <= |exp.cases| && Formed(sheet) && AllPending(sheet)
      && sheet.metricNames == exp.metricNames
    ensures var t := WithCases(exp, sheet, arm, n);
      Formed(t) && AllPending(t) && t.metricNames == exp.metricNames && t.hash == sheet.hash
    decreases n
  {
    if n == 0 {
    } else {
      CasesBuilt(exp, sheet, arm, n - 1);
      CaseBuilt(exp, WithCases(exp, sheet, arm, n - 1), arm, exp.cases[n - 1]);
    }
  }

  lemma {:induction false} CasesKeys(exp: Experiment, sheet: Sheet, arm: nat, n: nat)
    requires arm < |exp.arms| && n <= |exp.cases|
    ensures WithCases(exp, sheet, arm, n).rows.Keys == sheet.rows.Keys + CaseRows(exp, arm, n)
    decreases n
  {
    if n == 0 {
    } else {
      CasesKeys(exp, sheet, arm, n - 1);
      CaseKeys(exp, WithCases(exp, sheet, arm, n - 1), arm, n - 1);
    }
  }

  lemma {:induction false} CasesShare(exp: Experiment, sheet: Sheet, arm: nat, n: nat)
    requires arm < |exp.arms| && n <= |exp.cases|
    ensures WithCases(exp, sheet, arm, n).provisions.Keys == sheet.provisions.Keys + CaseProvisions(exp, arm, n)
    decreases n
  {
    if n == 0 {
    } else {
      CasesShare(exp, sheet, arm, n - 1);
      CaseKeys(exp, WithCases(exp, sheet, arm, n - 1), arm, n - 1);
    }
  }

  lemma {:induction false} ArmsKeys(exp: Experiment, n: nat)
    requires n <= |exp.arms|
    ensures WithArms(exp, n).rows.Keys == ArmRows(exp, n)
    decreases n
  {
    if n == 0 {
    } else {
      ArmsKeys(exp, n - 1);
      CasesKeys(exp, WithArms(exp, n - 1), n - 1, |exp.cases|);
    }
  }

  lemma {:induction false} ArmsShare(exp: Experiment, n: nat)
    requires n <= |exp.arms|
    ensures WithArms(exp, n).provisions.Keys == ArmProvisions(exp, n)
    decreases n
  {
    if n == 0 {
    } else {
      ArmsShare(exp, n - 1);
      CasesShare(exp, WithArms(exp, n - 1), n - 1, |exp.cases|);
    }
  }

  lemma {:induction false} ArmsBuilt(exp: Experiment, n: nat)
    requires n <= |exp.arms|
    ensures var t := WithArms(exp, n);
      Formed(t) && AllPending(t) && t.metricNames == exp.metricNames && t.hash == exp.hash
    decreases n
  {
    if n == 0 {
    } else {
      ArmsBuilt(exp, n - 1);
      CasesBuilt(exp, WithArms(exp, n - 1), n - 1, |exp.cases|);
    }
  }

  lemma {:induction false} CaseKeysAre(exp: Experiment, arm: nat, n: nat)
    requires arm < |exp.arms| && n <= |exp.cases|
    ensures CaseRows(exp, arm, n) == set i | 0 <= i < n :: RowKeyOf(exp, arm, i)
    ensures CaseProvisions(exp, arm, n) == set i | 0 <= i < n :: ProvisionKeyOf(exp, arm, i)
    decreases n
  {
    if n == 0 {
    } else {
      CaseKeysAre(exp, arm, n - 1);
    }
  }

  lemma {:induction false} ArmRowsAre(exp: Experiment, n: nat)
    requires n <= |exp.arms|
    ensures ArmRows(exp, n) == set arm, i | 0 <= arm < n && 0 <= i < |exp.cases| :: RowKeyOf(exp, arm, i)
    decreases n
  {
    if n == 0 {
    } else {
      ArmRowsAre(exp, n - 1);
      CaseKeysAre(exp, n - 1, |exp.cases|);
    }
  }

  lemma {:induction false} ArmProvisionsAre(exp: Experiment, n: nat)
    requires n <= |exp.arms|
    ensures ArmProvisions(exp, n) == set arm, i | 0 <= arm < n && 0 <= i < |exp.cases| :: ProvisionKeyOf(exp, arm, i)
    decreases n
  {
    if n == 0 {
    } else {
      ArmProvisionsAre(exp, n - 1);
      CaseKeysAre(exp, n - 1, |exp.cases|);
    }
  }

  /** Building makes exactly the rows of every arm with every case, and exactly the provisions they
      share, all of them pending. */
  lemma BuiltIsPending(exp: Experiment)
    ensures Formed(Built(exp)) && AllPending(Built(exp))
    ensures Built(exp).metricNames == exp.metricNames && Built(exp).hash == exp.hash
    ensures Built(exp).rows.Keys
         == set arm, i | 0 <= arm < |exp.arms| && 0 <= i < |exp.cases| :: RowKeyOf(exp, arm, i)
    ensures Built(exp).provisions.Keys
         == set arm, i | 0 <= arm < |exp.arms| && 0 <= i < |exp.cases| :: ProvisionKeyOf(exp, arm, i)
  {
    ArmsBuilt(exp, |exp.arms|);
    ArmsKeys(exp, |exp.arms|);
    ArmsShare(exp, |exp.arms|);
    ArmRowsAre(exp, |exp.arms|);
    ArmProvisionsAre(exp, |exp.arms|);
  }

  // ----- Gaps -----

  function PendingProvisions(sheet: Sheet): set<string> {
    set key <- sheet.provisions | !sheet.provisions[key].state.Ok?
  }

  predicate Solvable(sheet: Sheet, k: RowKey)
    requires k in sheet.rows
  {
    var key := sheet.rows[k].seed.armKey;
    key in sheet.provisions && sheet.provisions[key].state.Ok?
  }

  function NeedingSolve(sheet: Sheet): set<RowKey> {
    set k <- sheet.rows | Solvable(sheet, k) && !sheet.rows[k].solve.state.Ok?
  }

  predicate Scored(row: Row, name: string) {
    name in row.scores && row.scores[name].state.Ok?
  }

  function NeedingFill(sheet: Sheet): set<(RowKey, string)> {
    set k <- sheet.rows, name <- sheet.metricNames | sheet.rows[k].solve.state.Ok? && !Scored(sheet.rows[k], name) ::
      (k, name)
  }

  function WithDefaults(names: seq<string>, row: Row): Row {
    if row.solve.state.Ok? then row.(scores := EmptyScores(names) + row.scores) else row
  }

  /** Missing score cells of solved rows made explicit. */
  function Defaulted(sheet: Sheet): Sheet {
    sheet.(rows := map k <- sheet.rows :: WithDefaults(sheet.metricNames, sheet.rows[k]))
  }

  predicate Complete(sheet: Sheet) {
    PendingProvisions(sheet) == {} && NeedingSolve(sheet) == {} && NeedingFill(sheet) == {}
  }

  /** Every provision, every answer and every metric of every row is there. */
  ghost predicate AllOk(sheet: Sheet) {
    && (forall key <- sheet.provisions :: sheet.provisions[key].state.Ok?)
    && (forall k <- sheet.rows ::
       sheet.rows[k].solve.state.Ok? && forall name <- sheet.metricNames :: Scored(sheet.rows[k], name))
  }

  /** Each row has an answer, or a provision it could get one from. */
  ghost predicate NoOrphans(sheet: Sheet) {
    forall k <- sheet.rows :: sheet.rows[k].solve.state.Ok? || sheet.rows[k].seed.armKey in sheet.provisions
  }

  /** Every cell is there exactly when the worksheet is complete and no unanswered row lacks a provision:
      only such rows does the question overlook. */
  lemma AllOkIffComplete(sheet: Sheet)
    ensures AllOk(sheet) <==> Complete(sheet) && NoOrphans(sheet)
  {
    if Complete(sheet) && NoOrphans(sheet) {
      CompleteIsOk(sheet);
    }
    if AllOk(sheet) {
      assert PendingProvisions(sheet) == {};
      assert NeedingSolve(sheet) == {};
      assert NeedingFill(sheet) == {};
    }
  }

  lemma CompleteIsOk(sheet: Sheet)
    requires Complete(sheet) && NoOrphans(sheet)
    ensures AllOk(sheet)
  {
    forall key <- sheet.provisions ensures sheet.provisions[key].state.Ok? {
      assert key !in PendingProvisions(sheet);
    }
    forall k <- sheet.rows
      ensures sheet.rows[k].solve.state.Ok? && forall name <- sheet.metricNames :: Scored(sheet.rows[k], name)
    {
      assert k !in NeedingSolve(sheet);
      forall name <- sheet.metricNames ensures Scored(sheet.rows[k], name) {
        assert (k, name) !in NeedingFill(sheet);
      }
    }
  }

  /** A worksheet whose rows all share a provision is complete exactly when every cell is there. */
  lemma CompleteIffAllOk(sheet: Sheet)
    requires Formed(sheet)
    ensures Complete(sheet) <==> AllOk(sheet)
  {
    AllOkIffComplete(sheet);
  }

  /** Asking whether a worksheet is complete does not change the answer. */
  lemma AskingChangesNothing(sheet: Sheet)
    ensures Complete(Defaulted(sheet)) <==> Complete(sheet)
  {
    var t := Defaulted(sheet);
    assert PendingProvisions(t) == PendingProvisions(sheet);
    assert NeedingSolve(t) == NeedingSolve(sheet);
    forall k <- sheet.rows, name <- sheet.metricNames ensures Scored(t.rows[k], name) <==> Scored(sheet.rows[k], name) {
    }
    assert NeedingFill(t) == NeedingFill(sheet);
  }

  /** Missing are the scores of answered rows that have no cell, or one that did not succeed. */
  lemma FillGapsAre(sheet: Sheet, k: RowKey, name: string)
    ensures (k, name) in NeedingFill(sheet) <==>
      && k in sheet.rows && sheet.rows[k].solve.state.Ok? && name in sheet.metricNames
      && (name !in sheet.rows[k].scores || !sheet.rows[k].scores[name].state.Ok?)
  {
  }

  /** Making them explicit gives answered rows a pending cell for each score they lack, and changes nothing else. */
  lemma DefaultsArePending(sheet: Sheet, k: RowKey)
    requires k in sheet.rows
    ensures Defaulted(sheet).rows.Keys == sheet.rows.Keys
    ensures Defaulted(sheet).(rows := sheet.rows) == sheet
    ensures var was, row := sheet.rows[k], Defaulted(sheet).rows[k];
      && row.(scores := was.scores) == was
      && (forall name <- was.scores :: name in row.scores && row.scores[name] == was.scores[name])
      && (forall name | name !in was.scores ::
            (name in row.scores <==> was.solve.state.Ok? && name in sheet.metricNames)
            && (name in row.scores ==> row.scores[name] == ScoreCell(Pending, None, None)))
  {
  }

  /** A worksheet is complete exactly if every provision is there, every answered row has all its scores, and every
      other row lacks its provision altogether. */
  lemma CompleteMeans(sheet: Sheet)
    ensures Complete(sheet) <==>
      && (forall key <- sheet.provisions :: sheet.provisions[key].state.Ok?)
      && (forall k <- sheet.rows ::
            if sheet.rows[k].solve.state.Ok?
            then forall name <- sheet.metricNames ::
                   name in sheet.rows[k].scores && sheet.rows[k].scores[name].state.Ok?
            else sheet.rows[k].seed.armKey !in sheet.provisions)
  {
    if Complete(sheet) {
      forall key <- sheet.provisions ensures sheet.provisions[key].state.Ok? {
        assert key !in PendingProvisions(sheet);
      }
      forall k <- sheet.rows
        ensures if sheet.rows[k].solve.state.Ok?
                then forall name <- sheet.metricNames ::
                       name in sheet.rows[k].scores && sheet.rows[k].scores[name].state.Ok?
                else sheet.rows[k].seed.armKey !in sheet.provisions
      {
        assert k !in NeedingSolve(sheet);
        forall name <- sheet.metricNames | sheet.rows[k].solve.state.Ok?
          ensures name in sheet.rows[k].scores && sheet.rows[k].scores[name].state.Ok?
        {
          assert (k, name) !in NeedingFill(sheet);
        }
      }
    } else {
      assert PendingProvisions(sheet) != {} || NeedingSolve(sheet) != {} || NeedingFill(sheet) != {};
    }
  }

  // ----- Entering results -----

  function Provided(p: Provision, subject: string): Provision { Provision(Ok, Some(subject), None) }

  function ProvisionFailed(p: Provision, error: string): Provision { p.(state := Failed, error := Some(error)) }

  function Answered(row: Row, answer: Answer, meta: map<string, Json>): Row {
    row.(solve := SolveCell(Ok, answer, None), meta := row.meta + meta)
  }

  function SolveFailed(row: Row, error: string): Row {
    row.(solve := SolveCell(Failed, NO_ANSWER, Some(error)))
  }

  function ScoreEntered(row: Row, name: string, result: MetricResult): Row {
    row.(scores := row.scores[name := ScoreCell(Ok, Some(result), None)])
  }

  function ScoreFailed(row: Row, name: string, error: string): Row {
    row.(scores := row.scores[name := ScoreCell(Failed, None, Some(error))])
  }

  class Worksheet {
    const experiment: string
    const hash: string
    const runId: string
    const createdAt: string
    const metricNames: seq<string>
    var artifacts: seq<Artifact>
    var rows: map<RowKey, Row>
    var provisions: map<string, Provision>

    function View(): Sheet
      reads this
    {
      Sheet(experiment, hash, runId, createdAt, artifacts, metricNames, rows, provisions)
    }

    constructor (exp: Experiment)
      ensures View() == Built(exp)
    {
      experiment, hash, runId, createdAt, metricNames := exp.name, exp.hash, exp.runId, exp.createdAt, exp.metricNames;
      artifacts, rows, provisions := [], map[], map[];
      new;
      for arm := 0 to |exp.arms|
        invariant View() == WithArms(exp, arm)
      {
        AddArm(exp, arm);
      }
    }

    method AddArm(exp: Experiment, arm: nat)
      requires arm < |exp.arms|
      modifies this`rows, this`provisions
      ensures View() == WithCases(exp, old(View()), arm, |exp.cases|)
    {
      for i := 0 to |exp.cases|
        invariant View() == WithCases(exp, old(View()), arm, i)
      {
        AddRow(exp, arm, i);
      }
    }

    method AddRow(exp: Experiment, arm: nat, i: nat)
      requires arm < |exp.arms| && i < |exp.cases|
      modifies this`rows, this`provisions
      ensures View() == WithCase(exp, old(View()), arm, exp.cases[i])
    {
      var seed := SeedFor(exp, arm, exp.cases[i].0, exp.cases[i].1);
      if seed.armKey !in provisions {
        provisions := provisions[seed.armKey := NEW_PROVISION];
      }
      rows := rows[KeyOf(seed) := NewRow(exp, seed)];
    }

    method ProvisionsPending() returns (pending: set<string>)
      ensures pending == PendingProvisions(View())
      ensures forall key :: key in pending <==> key in provisions && !provisions[key].state.Ok?
    {
      pending := set key <- provisions | !provisions[key].state.Ok?;
    }

    method RowsNeedingSolve() returns (gaps: set<RowKey>)
      ensures gaps == NeedingSolve(View())
      ensures forall k :: k in gaps <==>
        && k in rows && !rows[k].solve.state.Ok?
        && rows[k].seed.armKey in provisions && provisions[rows[k].seed.armKey].state.Ok?
    {
      gaps := {};
      var todo := rows.Keys;
      while todo != {}
        invariant todo <= rows.Keys
        invariant gaps == set k <- NeedingSolve(View()) | k !in todo
      {
        var k :| k in todo;
        var key := rows[k].seed.armKey;
        if key in provisions && provisions[key].state.Ok? && !rows[k].solve.state.Ok? {
          gaps := gaps + {k};
        }
        todo := todo - {k};
      }
    }

    /** The gaps of one row, with its missing cells made explicit. */
    method FillRow(row: Row) returns (filled: Row, missing: set<string>)
      requires row.solve.state.Ok?
      ensures filled == WithDefaults(metricNames, row)
      ensures missing == set name <- metricNames | !Scored(row, name)
    {
      filled, missing := row, {};
      for i := 0 to |metricNames|
        invariant filled == row.(scores := EmptyScores(metricNames[..i]) + row.scores)
        invariant missing == set name <- metricNames[..i] | !Scored(row, name)
      {
        var name := metricNames[i];
        FillStep(row, metricNames, i);
        if name !in filled.scores {
          filled := filled.(scores := filled.scores[name := NEW_SCORE]);
        }
        if !filled.scores[name].state.Ok? {
          missing := missing + {name};
        }
      }
      assert metricNames[..|metricNames|] == metricNames;
    }

    method ScoresNeedingFill() returns (gaps: set<(RowKey, string)>)
      modifies this`rows
      ensures gaps == NeedingFill(old(View())) && View() == Defaulted(old(View()))
    {
      gaps := {};
      ghost var before := View();
      var todo := rows.Keys;
      while todo != {}
        invariant todo <= rows.Keys == before.rows.Keys && provisions == before.provisions
        invariant forall k <- rows ::
          rows[k] == if k in todo then before.rows[k] else WithDefaults(metricNames, before.rows[k])
        invariant gaps == set gap <- NeedingFill(before) | gap.0 !in todo
      {
        var k :| k in todo;
        ghost var was := gaps;
        if rows[k].solve.state.Ok? {
          var row, missing := FillRow(rows[k]);
          rows := rows[k := row];
          gaps := gaps + set name <- missing :: (k, name);
        }
        GapsOfRow(before, todo, k, was, gaps);
        todo := todo - {k};
      }
      assert rows == Defaulted(before).rows;
    }

    /** Are there no gaps? Score gaps are only looked for when there are no others. */
    method IsComplete() returns (complete: bool)
      modifies this`rows
      ensures complete == Complete(old(View()))
      ensures View()
        == if PendingProvisions(old(View())) == {} && NeedingSolve(old(View())) == {} then Defaulted(old(View()))
        else old(View())
    {
      var pending := ProvisionsPending();
      if pending != {} {
        return false;
      }
      var unsolved := RowsNeedingSolve();
      if unsolved != {} {
        return false;
      }
      var unfilled := ScoresNeedingFill();
      complete := unfilled == {};
    }

    method SetProvisionOk(key: string, subject: string)
      requires key in provisions
      modifies this`provisions
      ensures View() == old(View()).(provisions := old(provisions)[key := Provided(old(provisions)[key], subject)])
      ensures provisions == old(provisions)[key := Provision(Ok, Some(subject), None)]
    {
      provisions := provisions[key := provisions[key].(state := Ok, subject := Some(subject), error := None)];
    }

    method SetProvisionFailed(key: string, error: string)
      requires key in provisions
      modifies this`provisions
      ensures View() == old(View()).(provisions := old(provisions)[key := ProvisionFailed(old(provisions)[key], error)])
      ensures provisions == old(provisions)[key := Provision(Failed, old(provisions)[key].subject, Some(error))]
    {
      provisions := provisions[key := provisions[key].(state := Failed, error := Some(error))];
    }

    method SetScore(k: RowKey, name: string, result: MetricResult)
      requires k in rows
      modifies this`rows
      ensures View() == old(View()).(rows := old(rows)[k := ScoreEntered(old(rows)[k], name, result)])
      ensures rows == old(rows)[k := old(rows)[k].(
        scores := old(rows)[k].scores[name := ScoreCell(Ok, Some(result), None)])]
    {
      rows := rows[k := rows[k].(scores := rows[k].scores[name := ScoreCell(Ok, Some(result), None)])];
    }

    method SetScoreFailed(k: RowKey, name: string, error: string)
      requires k in rows
      modifies this`rows
      ensures View() == old(View()).(rows := old(rows)[k := ScoreFailed(old(rows)[k], name, error)])
      ensures rows == old(rows)[k := old(rows)[k].(
        scores := old(rows)[k].scores[name := ScoreCell(Failed, None, Some(error))])]
    {
      rows := rows[k := rows[k].(scores := rows[k].scores[name := ScoreCell(Failed, None, Some(error))])];
    }
  }

  lemma FillStep(row: Row, names: seq<string>, i: nat)
    requires i < |names|
    ensures EmptyScores(names[..i + 1]) + row.scores
         == (if names[i] in EmptyScores(names[..i]) + row.scores then EmptyScores(names[..i]) + row.scores
             else (EmptyScores(names[..i]) + row.scores)[names[i] := NEW_SCORE])
    ensures (set name <- names[..i + 1] | !Scored(row, name))
         == (set name <- names[..i] | !Scored(row, name)) + if Scored(row, names[i]) then {} else {names[i]}
  {
    assert names[..i + 1] == names[..i] + [names[i]];
  }

  lemma GapsOfRow(sheet: Sheet, todo: set<RowKey>, k: RowKey, was: set<(RowKey, string)>, now: set<(RowKey, string)>)
    requires k in todo && todo <= sheet.rows.Keys
    requires was == set gap <- NeedingFill(sheet) | gap.0 !in todo
    requires now == was + if sheet.rows[k].solve.state.Ok?
                          then set name <- (set n <- sheet.metricNames | !Scored(sheet.rows[k], n)) :: (k, name) else {}
    ensures now == set gap <- NeedingFill(sheet) | gap.0 !in todo - {k}
  {
  }
}
