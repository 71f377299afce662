/** The reconciler as the object it is: an engine that writes into a worksheet's cells, one method per
    stretch between two awaits. */
module ReconcileEngine {
  import opened Wrappers
  import opened Worksheets
  import opened Checkpoints
  import opened Reconciler
  import opened ReconcileSteps
  import opened ReconcileRuns

  /** What is left to score of an answered row: each listed metric whose cell is not there yet, on a sample that
      carries the row's case and its answer. */
  ghost predicate ToBeScored(row: Row, names: seq<string>, c: Chain) {
    && c.Scoring?
    && c.sample.caseId == row.seed.caseId && c.sample.armId == row.seed.armId && c.sample.corpus == row.seed.corpus
    && c.sample.query == row.seed.query && c.sample.expectedBehavior == row.seed.expectedBehavior
    && c.sample.groundTruth == row.seed.groundTruth && c.sample.dimensions == row.seed.dimensions
    && c.sample.evidenceSources == row.seed.evidenceSources
    && c.sample.candidateSources == row.seed.candidateSources && c.sample.answer == row.solve.answer
    && forall name :: name in c.todo <==> name in names && (name !in row.scores || !row.scores[name].state.Ok?)
  }

  lemma ListedToBeScored(row: Row, names: seq<string>)
    ensures ToBeScored(row, names, Scoring(ToSample(row.seed, row.solve.answer), Unscored(names, row)))
  {
    forall name ensures name in Unscored(names, row)
                    <==> name in names && (name !in row.scores || !row.scores[name].state.Ok?) {
      UnscoredHolds(names, row, name);
    }
  }

  class Engine {
    const exp: Experiment
    const producers: Producers
    const ws: Worksheet
    var saved: Option<seq<Record>>
    var phase: Phase
    ghost var calls: nat
    ghost var failed: set<Gap>

    ghost function View(): State
      reads this, ws
    {
      State(ws.View(), saved, phase, calls, failed)
    }

    constructor (exp: Experiment, producers: Producers)
      ensures View() == Initially(exp) && this.exp == exp && this.producers == producers && fresh(ws)
    {
      this.exp, this.producers := exp, producers;
      ws := new Worksheet(exp);
      saved, phase, calls, failed := None, Off, 0, {};
    }

    /** Start filling: find the provisions that are missing. */
    method Begin()
      requires Enabled(exp, View(), Begins)
      modifies this`phase, this`calls, this`failed
      ensures View() == Next(exp, producers, old(View()), Begins)
      ensures phase.Provisioning?
      ensures forall key :: key in phase.running <==> key in ws.provisions && !ws.provisions[key].state.Ok?
    {
      var pending := ws.ProvisionsPending();
      phase := Provisioning(pending);
      calls, failed := 0, {};
    }

    method Provision(key: string, error: Option<string>)
      requires Enabled(exp, View(), Provides(key, error))
      modifies this`phase, this`calls, this`failed, ws`provisions
      ensures View() == Next(exp, producers, old(View()), Provides(key, error))
      ensures error.None? ==>
        ws.provisions == old(ws.provisions)[key := Worksheets.Provision(Ok, Some(producers.provide(key)), None)]
      ensures error.Some? ==>
        ws.provisions == old(ws.provisions)[key := old(ws.provisions)[key].(state := Failed, error := error)]
    {
      phase := Provisioning(phase.running - {key});
      calls := calls + 1;
      if error.None? {
        ws.SetProvisionOk(key, producers.provide(key));
      } else {
        ws.SetProvisionFailed(key, error.value);
        failed := failed + {OfProvision(key)};
      }
    }

    /** The score cell of a row. */
    function Cell(k: RowKey, name: string): ScoreCell
      requires k in ws.rows && name in ws.rows[k].scores
      reads this, ws
    {
      ws.rows[k].scores[name]
    }

    method StartRows()
      requires Enabled(exp, View(), StartsRows)
      modifies this`phase
      ensures View() == Next(exp, producers, old(View()), StartsRows)
      ensures phase == Filling(map k <- ws.rows :: Fresh)
    {
      phase := Filling(map k <- ws.rows :: Fresh);
    }

    /** The beginning of a row's chain: is there anything to do, and what. */
    method StartRow(k: RowKey)
      requires Enabled(exp, View(), Step.StartsRow(k))
      modifies this`phase
      ensures View() == Next(exp, producers, old(View()), Step.StartsRow(k))
      ensures var row := ws.rows[k];
        && phase.Filling? && k in phase.chains
        && (phase.chains[k].Done? <==>
              row.seed.armKey !in ws.provisions || !ws.provisions[row.seed.armKey].state.Ok?)
        && (!phase.chains[k].Done? ==> (phase.chains[k].Solving? <==> !row.solve.state.Ok?))
        && (!phase.chains[k].Done? && row.solve.state.Ok? ==> ToBeScored(row, ws.metricNames, phase.chains[k]))
    {
      var row := ws.rows[k];
      ListedToBeScored(row, ws.metricNames);
      var chain := Done;
      if row.seed.armKey in ws.provisions && ws.provisions[row.seed.armKey].state.Ok? {
        chain := if row.solve.state.Ok?
          then Scoring(ToSample(row.seed, row.solve.answer), Unscored(ws.metricNames, row)) else Solving;
      }
      phase := Filling(phase.chains[k := chain]);
    }

    method SolveRow(k: RowKey, error: Option<string>)
      requires Enabled(exp, View(), Solves(k, error))
      modifies this`phase, this`calls, this`failed, ws`rows
      ensures View() == Next(exp, producers, old(View()), Solves(k, error))
      ensures var was := old(ws.rows)[k];
        && k in ws.rows && ws.rows == old(ws.rows)[k := ws.rows[k]] && phase.Filling? && k in phase.chains
        && ws.rows[k].seed == was.seed && ws.rows[k].scores == was.scores
        && was.seed.armKey in ws.provisions && ws.provisions[was.seed.armKey].subject.Some?
        && (error.None? ==>
              var (answer, meta) := producers.solve(was.seed, ws.provisions[was.seed.armKey].subject.value);
              && ws.rows[k].solve == SolveCell(Ok, answer, None) && ws.rows[k].meta == was.meta + meta
              && ToBeScored(ws.rows[k], ws.metricNames, phase.chains[k]))
        && (error.Some? ==>
              && ws.rows[k].solve == SolveCell(Failed, Answer(None, [], [], map[]), error)
              && ws.rows[k].meta == was.meta && phase.chains[k] == Done)
    {
      var row := ws.rows[k];
      calls := calls + 1;
      if error.None? {
        var (answer, meta) := producers.solve(row.seed, ws.provisions[row.seed.armKey].subject.value);
        row := row.(solve := SolveCell(Ok, answer, None), meta := row.meta + meta);
        ListedToBeScored(row, ws.metricNames);
        phase := Filling(phase.chains[k := Scoring(ToSample(row.seed, answer), Unscored(ws.metricNames, row))]);
      } else {
        row := row.(solve := SolveCell(Failed, NO_ANSWER, Some(error.value)));
        phase := Filling(phase.chains[k := Done]);
        failed := failed + {OfSolve(k)};
      }
      ws.rows := ws.rows[k := row];
    }

    method ScoreOne(k: RowKey, name: string, error: Option<string>)
      requires Enabled(exp, View(), Scores(k, name, error))
      modifies this`phase, this`calls, this`failed, ws`rows
      ensures View() == Next(exp, producers, old(View()), Scores(k, name, error))
      ensures old(phase).Filling? && k in old(phase).chains && old(phase).chains[k].Scoring?
      ensures k in ws.rows && name in ws.rows[k].scores
      ensures ws.rows == old(ws.rows)[k := old(ws.rows)[k].(scores := old(ws.rows)[k].scores[name := Cell(k, name)])]
      ensures var sample := old(phase).chains[k].sample;
        && (name !in producers.metrics ==> Cell(k, name) == ScoreCell(Failed, None, Some("unknown metric")))
        && (name in producers.metrics && !producers.metrics[name].applies(sample) ==>
              Cell(k, name) == ScoreCell(Ok, Some(producers.metrics[name].na), None))
        && (name in producers.metrics && producers.metrics[name].applies(sample) ==>
              Cell(k, name) == if error.Some? then ScoreCell(Failed, None, error)
                               else ScoreCell(Ok, Some(producers.metrics[name].score(sample)), None))
    {
      var chain := phase.chains[k];
      phase := Filling(phase.chains[k := chain.(todo := chain.todo - multiset{name})]);
      if name !in producers.metrics {
        FailScore(k, name, "unknown metric");
      } else if !producers.metrics[name].applies(chain.sample) {
        PutScore(k, name, producers.metrics[name].na);
      } else {
        calls := calls + 1;
        if error.None? {
          PutScore(k, name, producers.metrics[name].score(chain.sample));
        } else {
          FailScore(k, name, error.value);
        }
      }
    }

    method PutScore(k: RowKey, name: string, result: MetricResult)
      requires k in ws.rows
      modifies this`failed, ws`rows
      ensures View()
        == WithRow(old(View()), k, ScoreEntered(old(ws.rows)[k], name, result))
             .(failed := old(failed) - {OfScore(k, name)})
    {
      ws.SetScore(k, name, result);
      failed := failed - {OfScore(k, name)};
    }

    method FailScore(k: RowKey, name: string, error: string)
      requires k in ws.rows
      modifies this`failed, ws`rows
      ensures View()
        == WithRow(old(View()), k, ScoreFailed(old(ws.rows)[k], name, error))
             .(failed := old(failed) + {OfScore(k, name)})
    {
      ws.SetScoreFailed(k, name, error);
      failed := failed + {OfScore(k, name)};
    }

    method Finish()
      requires Enabled(exp, View(), Finishes)
      modifies this`phase
      ensures View() == Next(exp, producers, old(View()), Finishes)
    {
      phase := Over;
    }

    /** The event loop: run whichever stretch comes next. The engine stays sound. */
    method Perform(step: Step)
      requires Sound(exp, producers, View()) && Enabled(exp, View(), step)
      requires !step.Saves? && !step.Crashes? && !step.Discards?
      modifies this`phase, this`calls, this`failed, ws`rows, ws`provisions
      ensures View() == Next(exp, producers, old(View()), step)
      ensures Sound(exp, producers, View())
    {
      NextSound(exp, producers, View(), step);
      match step
      case Begins => Begin();
      case Provides(key, error) => Provision(key, error);
      case StartsRows => StartRows();
      case StartsRow(k) => StartRow(k);
      case Solves(k, error) => SolveRow(k, error);
      case Scores(k, name, error) => ScoreOne(k, name, error);
      case Finishes => Finish();
    }

    /** Write the checkpoint, all at once. */
    method Flush() returns (lines: seq<Record>)
      modifies this`saved
      ensures Checkpoints.Saves(old(ws.View()), lines) && View() == old(View()).(saved := Some(lines))
    {
      lines := Save(ws.View());
      saved := Some(lines);
    }
  }
}
