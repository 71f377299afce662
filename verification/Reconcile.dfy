/** Filling the gaps of a worksheet: provisions, then for each row its answer and then its scores, in
    any order the calls happen to finish, with failures, checkpoints and crashes in between. */
module Reconciler {
  import opened Wrappers
  import opened Worksheets
  import opened Checkpoints

  datatype Metric = Metric(applies: Sample -> bool, score: Sample -> MetricResult, na: MetricResult)

  /** What each producer returns when it succeeds, as a function of its inputs alone. */
  datatype Producers = Producers(
    provide: string -> string,
    solve: (Seed, string) -> (Answer, map<string, Json>),
    metrics: map<string, Metric>)

  /** How far one row has come. */
  datatype Chain = Fresh | Solving | Scoring(sample: Sample, todo: multiset<string>) | Done

  /** A process that could not read its checkpoint is refused: nothing runs until a later start. */
  datatype Phase = Off | Refused | Provisioning(running: set<string>) | Filling(chains: map<RowKey, Chain>) | Over

  /** A cell, as named in the history: those whose last try in this run failed. */
  datatype Gap = OfProvision(key: string) | OfSolve(k: RowKey) | OfScore(k: RowKey, name: string)

  /** The worksheet in memory, the checkpoint on disk, and the history of the present run. */
  datatype State = State(sheet: Sheet, saved: Option<seq<Record>>, phase: Phase, calls: nat, failed: set<Gap>)

  /** One uninterrupted stretch; `error` tells a failed call from a successful one. */
  datatype Step =
    | Begins
    | Provides(key: string, error: Option<string>)
    | StartsRows
    | StartsRow(k: RowKey)
    | Solves(k: RowKey, error: Option<string>)
    | Scores(k: RowKey, name: string, error: Option<string>)
    | Finishes
    | Saves(lines: seq<Record>)
    | Crashes
    | Discards

  function Initially(exp: Experiment): State {
    State(Built(exp), None, Off, 0, {})
  }

  /** The names of a row still to be scored, as often as they are listed. */
  function Unscored(names: seq<string>, row: Row): multiset<string> {
    if names == [] then multiset{}
    else Unscored(names[1..], row) + if Scored(row, names[0]) then multiset{} else multiset{names[0]}
  }

  function Started(sheet: Sheet, k: RowKey): Chain
    requires k in sheet.rows
  {
    var row := sheet.rows[k];
    if !Solvable(sheet, k) then Done
    else if !row.solve.state.Ok? then Solving
    else Scoring(ToSample(row.seed, row.solve.answer), Unscored(sheet.metricNames, row))
  }

  predicate Settled(c: Chain) { c.Done? || (c.Scoring? && c.todo == multiset{}) }

  ghost predicate Enabled(exp: Experiment, s: State, step: Step) {
    match step
    case Begins => (s.phase.Off? || s.phase.Over?) && s.sheet.hash == exp.hash
    case Provides(key, _) => s.phase.Provisioning? && key in s.phase.running && key in s.sheet.provisions
    case StartsRows => s.phase.Provisioning? && s.phase.running == {}
    case StartsRow(k) => s.phase.Filling? && k in s.phase.chains && k in s.sheet.rows && s.phase.chains[k].Fresh?
    case Solves(k, _) =>
      && s.phase.Filling? && k in s.phase.chains && k in s.sheet.rows && s.phase.chains[k].Solving?
      && s.sheet.rows[k].seed.armKey in s.sheet.provisions
         && s.sheet.provisions[s.sheet.rows[k].seed.armKey].subject.Some?
    case Scores(k, name, _) =>
      s.phase.Filling? && k in s.phase.chains && k in s.sheet.rows && s.phase.chains[k].Scoring?
        && name in s.phase.chains[k].todo
    case Finishes => s.phase.Filling? && forall k <- s.phase.chains :: Settled(s.phase.chains[k])
    case Saves(lines) => Checkpoints.Saves(s.sheet, lines)
    case Crashes => true
    case Discards => true
  }

  function WithProvision(s: State, key: string, p: Provision): State {
    s.(sheet := s.sheet.(provisions := s.sheet.provisions[key := p]))
  }

  function WithRow(s: State, k: RowKey, row: Row): State {
    s.(sheet := s.sheet.(rows := s.sheet.rows[k := row]))
  }

  function WithChain(s: State, k: RowKey, c: Chain): State
    requires s.phase.Filling?
  {
    s.(phase := Filling(s.phase.chains[k := c]))
  }

  function Provide(p: Producers, s: State, key: string, error: Option<string>): State
    requires s.phase.Provisioning? && key in s.sheet.provisions
  {
    var was := s.sheet.provisions[key];
    var t := s.(phase := Provisioning(s.phase.running - {key}), calls := s.calls + 1);
    if error.None? then WithProvision(t, key, Provided(was, p.provide(key)))
    else WithProvision(t, key, ProvisionFailed(was, error.value)).(failed := s.failed + {OfProvision(key)})
  }

  function Solve(p: Producers, s: State, k: RowKey, error: Option<string>): State
    requires s.phase.Filling? && k in s.sheet.rows && s.sheet.rows[k].seed.armKey in s.sheet.provisions
    requires s.sheet.provisions[s.sheet.rows[k].seed.armKey].subject.Some?
  {
    var row, t := s.sheet.rows[k], s.(calls := s.calls + 1);
    if error.None? then
      var (answer, meta) := p.solve(row.seed, s.sheet.provisions[row.seed.armKey].subject.value);
      var solved := Answered(row, answer, meta);
      WithChain(WithRow(t, k, solved), k, Scoring(ToSample(row.seed, answer), Unscored(s.sheet.metricNames, solved)))
    else WithChain(WithRow(t, k, SolveFailed(row, error.value)), k, Done).(failed := s.failed + {OfSolve(k)})
  }

  function Judge(m: Metric, sample: Sample): MetricResult {
    if m.applies(sample) then m.score(sample) else m.na
  }

  /** The state in which row `k` has been changed and its chain moved. */
  function RowMoved(s: State, k: RowKey, row: Row, c: Chain, calls: nat, failed: set<Gap>): State
    requires s.phase.Filling?
  {
    State(s.sheet.(rows := s.sheet.rows[k := row]), s.saved, Filling(s.phase.chains[k := c]), calls, failed)
  }

  /** What a tried score cell holds, given the sample it was scored on: an unknown metric fails
      and an inapplicable one abstains, both without a call. */
  function ScoreCellOf(p: Producers, sample: Sample, name: string, error: Option<string>): ScoreCell {
    if name !in p.metrics then ScoreCell(Failed, None, Some("unknown metric"))
    else if p.metrics[name].applies(sample) && error.Some? then ScoreCell(Failed, None, Some(error.value))
    else ScoreCell(Ok, Some(Judge(p.metrics[name], sample)), None)
  }

  function CallsFor(p: Producers, sample: Sample, name: string): nat {
    if name in p.metrics && p.metrics[name].applies(sample) then 1 else 0
  }

  /** Take a name off the list and fill its cell, noting whether this last try failed. */
  function Score(p: Producers, s: State, k: RowKey, name: string, error: Option<string>): State
    requires s.phase.Filling? && k in s.phase.chains && s.phase.chains[k].Scoring? && k in s.sheet.rows
  {
    var row, chain := s.sheet.rows[k], s.phase.chains[k];
    var c := ScoreCellOf(p, chain.sample, name, error);
    RowMoved(s, k, row.(scores := row.scores[name := c]), Scoring(chain.sample, chain.todo - multiset{name}),
      s.calls + CallsFor(p, chain.sample, name),
      if c.state.Ok? then s.failed - {OfScore(k, name)} else s.failed + {OfScore(k, name)})
  }

  /** What a new process starts from: the checkpoint if there is one, else a worksheet built anew.
      A checkpoint that cannot be read is refused. */
  function Restarted(exp: Experiment, s: State): State {
    if s.saved.None? then State(Built(exp), None, Off, 0, {})
    else
      match Read(s.saved.value)
      case Some(sheet) => State(sheet, s.saved, Off, 0, {})
      case None => s.(phase := Refused, calls := 0, failed := {})
  }

  ghost function Next(exp: Experiment, p: Producers, s: State, step: Step): State
    requires Enabled(exp, s, step)
  {
    match step
    case Begins => s.(phase := Provisioning(PendingProvisions(s.sheet)), calls := 0, failed := {})
    case Provides(key, error) => Provide(p, s, key, error)
    case StartsRows => s.(phase := Filling(map k <- s.sheet.rows :: Fresh))
    case StartsRow(k) => WithChain(s, k, Started(s.sheet, k))
    case Solves(k, error) => Solve(p, s, k, error)
    case Scores(k, name, error) => Score(p, s, k, name, error)
    case Finishes => s.(phase := Over)
    case Saves(lines) => s.(saved := Some(lines))
    case Crashes => Restarted(exp, s)
    case Discards => State(Built(exp), s.saved, Off, 0, {})
  }
}
