/** Filling never stalls and always ends: some step is there to take, and each takes work away. */
module ReconcileProgress {
  import opened Wrappers
  import opened Worksheets
  import opened Checkpoints
  import opened Reconciler
  import opened ReconcileSteps
  import opened ReconcileRuns

  // ----- The work that is left -----

  /** How many steps a chain may still take. */
  function Rank(names: seq<string>, c: Chain): nat {
    match c
    case Fresh => |names| + 2
    case Solving => |names| + 1
    case Scoring(_, todo) => |todo|
    case Done => 0
  }

  ghost function PickKey(keys: set<RowKey>): (k: RowKey)
    requires keys != {}
    ensures k in keys
  {
    var k :| k in keys; k
  }

  ghost function Total(names: seq<string>, keys: set<RowKey>, chains: map<RowKey, Chain>): nat
    requires keys <= chains.Keys
  {
    if keys == {} then 0
    else Rank(names, chains[PickKey(keys)]) + Total(names, keys - {PickKey(keys)}, chains)
  }

  /** The sum does not depend on the order. */
  lemma {:induction false} TotalFrom(names: seq<string>, keys: set<RowKey>, chains: map<RowKey, Chain>, k: RowKey)
    requires keys <= chains.Keys && k in keys
    ensures Total(names, keys, chains) == Rank(names, chains[k]) + Total(names, keys - {k}, chains)
  {
    var first := PickKey(keys);
    if first == k {
    } else {
      TotalFrom(names, keys - {first}, chains, k);
      TotalFrom(names, keys - {k}, chains, first);
      assert keys - {first} - {k} == keys - {k} - {first};
    }
  }

  lemma {:induction false} TotalSame(names: seq<string>, keys: set<RowKey>, a: map<RowKey, Chain>,
                                     b: map<RowKey, Chain>)
    requires keys <= a.Keys && keys <= b.Keys && forall k <- keys :: a[k] == b[k]
    ensures Total(names, keys, a) == Total(names, keys, b)
  {
    if keys == {} {
    } else {
      TotalSame(names, keys - {PickKey(keys)}, a, b);
    }
  }

  lemma TotalMoved(names: seq<string>, chains: map<RowKey, Chain>, k: RowKey, c: Chain)
    requires k in chains
    ensures Total(names, chains.Keys, chains[k := c])
         == Total(names, chains.Keys, chains) - Rank(names, chains[k]) + Rank(names, c)
  {
    TotalFrom(names, chains.Keys, chains, k);
    TotalFrom(names, chains.Keys, chains[k := c], k);
    TotalSame(names, chains.Keys - {k}, chains, chains[k := c]);
  }

  function AllFresh(sheet: Sheet): map<RowKey, Chain> {
    map k <- sheet.rows :: Fresh
  }

  /** How many steps a run may still take. */
  ghost function Work(s: State): nat {
    match s.phase
    case Provisioning(running) => |running| + 2 + Total(s.sheet.metricNames, s.sheet.rows.Keys, AllFresh(s.sheet))
    case Filling(chains) => 1 + Total(s.sheet.metricNames, chains.Keys, chains)
    case _ => 0
  }

  /** The steps a run is made of, beside its beginning, checkpoints and restarts. */
  predicate Works(step: Step) {
    step.Provides? || step.StartsRows? || step.StartsRow? || step.Solves? || step.Scores? || step.Finishes?
  }

  lemma {:induction false} UnscoredFew(names: seq<string>, row: Row)
    ensures |Unscored(names, row)| <= |names|
  {
    if names == [] {
    } else {
      UnscoredFew(names[1..], row);
    }
  }

  lemma ChainMoves(s: State, k: RowKey, row: Row, c: Chain, calls: nat, failed: set<Gap>)
    requires s.phase.Filling? && k in s.phase.chains
    requires Rank(s.sheet.metricNames, c) < Rank(s.sheet.metricNames, s.phase.chains[k])
    ensures Work(RowMoved(s, k, row, c, calls, failed)) < Work(s)
  {
    TotalMoved(s.sheet.metricNames, s.phase.chains, k, c);
    assert s.phase.chains[k := c].Keys == s.phase.chains.Keys;
  }

  lemma StartWorks(s: State, k: RowKey)
    requires s.phase.Filling? && k in s.phase.chains && k in s.sheet.rows && s.phase.chains[k].Fresh?
    ensures Work(WithChain(s, k, Started(s.sheet, k))) < Work(s)
  {
    UnscoredFew(s.sheet.metricNames, s.sheet.rows[k]);
    ChainMoves(s, k, s.sheet.rows[k], Started(s.sheet, k), s.calls, s.failed);
    TotalMoved(s.sheet.metricNames, s.phase.chains, k, Started(s.sheet, k));
  }

  lemma SolveTakesWork(p: Producers, s: State, k: RowKey, error: Option<string>)
    requires CanSolve(s, k)
    ensures Work(Solve(p, s, k, error)) < Work(s)
  {
    var t := Solve(p, s, k, error);
    UnscoredFew(s.sheet.metricNames, t.sheet.rows[k]);
    TotalMoved(s.sheet.metricNames, s.phase.chains, k, t.phase.chains[k]);
    assert t.phase.chains == s.phase.chains[k := t.phase.chains[k]];
    assert t.phase.chains.Keys == s.phase.chains.Keys;
  }

  lemma ScoreTakesWork(p: Producers, s: State, k: RowKey, name: string, error: Option<string>)
    requires s.phase.Filling? && k in s.phase.chains && k in s.sheet.rows
    requires s.phase.chains[k].Scoring? && name in s.phase.chains[k].todo
    ensures Work(Score(p, s, k, name, error)) < Work(s)
  {
    var t := Score(p, s, k, name, error);
    assert |s.phase.chains[k].todo - multiset{name}| == |s.phase.chains[k].todo| - 1;
    TotalMoved(s.sheet.metricNames, s.phase.chains, k, t.phase.chains[k]);
    assert t.phase.chains == s.phase.chains[k := t.phase.chains[k]];
    assert t.phase.chains.Keys == s.phase.chains.Keys;
  }

  lemma ProvideTakesWork(p: Producers, s: State, key: string, error: Option<string>)
    requires s.phase.Provisioning? && key in s.phase.running && key in s.sheet.provisions
    ensures Work(Provide(p, s, key, error)) < Work(s)
  {
    var t := Provide(p, s, key, error);
    assert |s.phase.running - {key}| == |s.phase.running| - 1;
    assert t.sheet.rows == s.sheet.rows && AllFresh(t.sheet) == AllFresh(s.sheet);
  }

  /** Every step of a run takes work away, whether its call succeeds or fails. */
  lemma StepsTakeWork(exp: Experiment, p: Producers, s: State, step: Step)
    requires Enabled(exp, s, step) && Works(step)
    ensures Work(Next(exp, p, s, step)) < Work(s)
  {
    if step.Provides? {
      ProvideTakesWork(p, s, step.key, step.error);
    } else if step.StartsRow? {
      StartWorks(s, step.k);
    } else if step.Solves? {
      SolveTakesWork(p, s, step.k, step.error);
    } else if step.Scores? {
      ScoreTakesWork(p, s, step.k, step.name, step.error);
    } else if step.StartsRows? {
      assert AllFresh(s.sheet).Keys == s.sheet.rows.Keys;
    }
  }

  // ----- Something can always be done -----

  /** A run under way has a step to take, and one whose call succeeds. */
  lemma NeverStalls(exp: Experiment, p: Producers, s: State) returns (step: Step)
    requires Sound(exp, p, s) && UnderWay(s)
    ensures Enabled(exp, s, step) && Works(step) && Succeeds(step)
  {
    if s.phase.Provisioning? {
      if s.phase.running == {} {
        step := StartsRows;
      } else {
        var key :| key in s.phase.running;
        step := Provides(key, None);
      }
    } else if k :| k in s.phase.chains && !Settled(s.phase.chains[k]) {
      step := ChainCanMove(exp, p, s, k);
    } else {
      step := Finishes;
    }
  }

  lemma ChainCanMove(exp: Experiment, p: Producers, s: State, k: RowKey) returns (step: Step)
    requires Sound(exp, p, s) && s.phase.Filling? && k in s.phase.chains && !Settled(s.phase.chains[k])
    ensures Enabled(exp, s, step) && Works(step) && Succeeds(step)
  {
    assert k in s.sheet.rows && Placed(s, k, s.phase.chains[k]);
    match s.phase.chains[k]
    case Fresh => step := StartsRow(k);
    case Solving =>
      var key := s.sheet.rows[k].seed.armKey;
      assert RightProvision(p, key, s.sheet.provisions[key]);
      step := Solves(k, None);
    case Scoring(_, todo) =>
      var name :| name in todo;
      step := Scores(k, name, None);
  }

  // ----- Whole runs -----

  function CountWorks(steps: seq<Step>, i: nat, j: nat): nat
    requires i <= j <= |steps|
    decreases j
  {
    if i == j then 0 else CountWorks(steps, i, j - 1) + if Works(steps[j - 1]) then 1 else 0
  }

  /** The n-th step leaves no more work than there was, and less if it is one of the fill. */
  ghost predicate Dwindles(steps: seq<Step>, states: seq<State>, n: nat)
    requires n < |steps| < |states|
  {
    Work(states[n + 1]) + (if Works(steps[n]) then 1 else 0) <= Work(states[n])
  }

  lemma WorkAt(exp: Experiment, p: Producers, steps: seq<Step>, states: seq<State>, n: nat)
    requires IsRun(exp, p, steps, states) && n < |steps| && (Works(steps[n]) || steps[n].Saves?)
    ensures Dwindles(steps, states, n)
  {
    if Works(steps[n]) { StepsTakeWork(exp, p, states[n], steps[n]); }
  }

  lemma {:induction false} WorkDwindles(steps: seq<Step>, states: seq<State>, i: nat, j: nat)
    requires i <= j <= |steps| < |states| && forall n | i <= n < j :: Dwindles(steps, states, n)
    ensures CountWorks(steps, i, j) + Work(states[j]) <= Work(states[i])
    decreases j
  {
    if i == j {
    } else {
      WorkDwindles(steps, states, i, j - 1);
      assert Dwindles(steps, states, j - 1);
    }
  }

  /** A run takes no more steps than the work there was: it comes to an end. */
  lemma RunsEnd(exp: Experiment, p: Producers, steps: seq<Step>, states: seq<State>, i: nat, j: nat)
    requires IsRun(exp, p, steps, states) && i <= j < |states|
    requires forall n | i <= n < j :: Works(steps[n]) || steps[n].Saves?
    ensures CountWorks(steps, i, j) + Work(states[j]) <= Work(states[i])
  {
    forall n | i <= n < j ensures Dwindles(steps, states, n) {
      WorkAt(exp, p, steps, states, n);
    }
    WorkDwindles(steps, states, i, j);
  }

  ghost predicate UnderWay(s: State) { s.phase.Provisioning? || s.phase.Filling? }

  lemma MoveOn(exp: Experiment, p: Producers, steps: seq<Step>, states: seq<State>, s: State)
    returns (step: Step, t: State)
    requires IsRunAt(exp, p, steps, states, s) && UnderWay(s)
    ensures IsRunAt(exp, p, steps + [step], states + [t], t) && Succeeds(step)
    ensures Work(t) < Work(s) && (UnderWay(t) || t.phase.Over?)
  {
    RunsSound(exp, p, steps, states, |states| - 1);
    step := NeverStalls(exp, p, s);
    OneMore(exp, p, steps, states, s, step);
    StepsTakeWork(exp, p, s, step);
    t := Next(exp, p, s, step);
  }

  /** A run under way can be brought to its end by calls that succeed. */
  lemma {:induction false} RunToEnd(exp: Experiment, p: Producers, steps: seq<Step>, states: seq<State>, s: State)
    returns (longer: seq<Step>, after: seq<State>, t: State)
    requires IsRunAt(exp, p, steps, states, s) && (UnderWay(s) || s.phase.Over?)
    ensures IsRunAt(exp, p, longer, after, t) && t.phase.Over?
    ensures steps <= longer && forall n | |steps| <= n < |longer| :: Succeeds(longer[n])
    decreases Work(s)
  {
    if s.phase.Over? {
      longer, after, t := steps, states, s;
    } else {
      var step, next := MoveOn(exp, p, steps, states, s);
      longer, after, t := RunToEnd(exp, p, steps + [step], states + [next], next);
      assert steps <= steps + [step] <= longer && longer[|steps|] == step;
    }
  }

  /** A run under way is brought to its end; otherwise the next one can begin at once. */
  lemma ToIdle(exp: Experiment, p: Producers, steps: seq<Step>, states: seq<State>, s: State)
    returns (longer: seq<Step>, after: seq<State>, t: State)
    requires IsRunAt(exp, p, steps, states, s)
    ensures IsRunAt(exp, p, longer, after, t) && Enabled(exp, t, Begins)
    ensures steps <= longer && forall n | |steps| <= n < |longer| :: Succeeds(longer[n])
  {
    NeverRefused(exp, p, steps, states, |states| - 1);
    longer, after, t := steps, states, s;
    if !t.phase.Off? {
      longer, after, t := RunToEnd(exp, p, longer, after, t);
    }
    RunsSound(exp, p, longer, after, |after| - 1);
    CanonicalFormed(Built(exp), p, t.sheet);
  }

  /** Every run, whatever has failed or crashed in it, can be resumed until the worksheet is complete, by
      calls that succeed and without giving anything up, if every metric is known. */
  lemma AlwaysCompletable(exp: Experiment, p: Producers, steps: seq<Step>, states: seq<State>, s: State)
    returns (longer: seq<Step>, after: seq<State>, t: State)
    requires IsRunAt(exp, p, steps, states, s) && KnowsMetrics(exp, p)
    ensures IsRunAt(exp, p, longer, after, t) && Complete(t.sheet)
    ensures steps <= longer && forall n | |steps| <= n < |longer| :: Succeeds(longer[n])
  {
    longer, after, t := ToIdle(exp, p, steps, states, s);
    var idle, before := longer, longer + [Begins];
    OneMore(exp, p, longer, after, t, Begins);
    longer, after, t := RunToEnd(exp, p, before, after + [Next(exp, p, t, Begins)], Next(exp, p, t, Begins));
    assert idle <= before <= longer && longer[|idle|] == before[|idle|] == Begins;
    forall n | |steps| <= n < |longer| ensures Succeeds(longer[n]) {
      if n < |idle| { assert longer[n] == idle[n]; }
    }
    SuccessfulRunCompletes(exp, p, longer, after, |idle|, |after| - 1);
  }

  // ----- The exact condition -----

  /** A longer run that goes on with calls that succeed and has a complete worksheet at its end. */
  ghost predicate Completes(exp: Experiment, p: Producers, steps: seq<Step>, longer: seq<Step>, after: seq<State>) {
    && IsRun(exp, p, longer, after) && steps <= longer
    && (forall n | |steps| <= n < |longer| :: Succeeds(longer[n]))
    && Complete(after[|longer|].sheet)
  }

  ghost predicate CanAlwaysComplete(exp: Experiment, p: Producers) {
    forall steps: seq<Step>, states: seq<State> | IsRun(exp, p, steps, states) ::
      exists longer: seq<Step>, after: seq<State> :: Completes(exp, p, steps, longer, after)
  }

  lemma RowsThere(exp: Experiment)
    requires exp.arms != [] && exp.cases != []
    ensures Built(exp).rows != map[]
  {
    BuiltIsPending(exp);
    assert RowKeyOf(exp, 0, 0) in Built(exp).rows.Keys;
  }

  lemma UnknownNeverCompletes(exp: Experiment, p: Producers, longer: seq<Step>, after: seq<State>)
    requires exp.arms != [] && exp.cases != [] && !KnowsMetrics(exp, p)
    ensures !Completes(exp, p, [], longer, after)
  {
    if IsRun(exp, p, longer, after) {
      RowsThere(exp);
      RunsSound(exp, p, longer, after, |longer|);
      UnknownMetricNeverCompletes(exp, p, longer, after, |longer|);
    }
  }

  /** Every run can be completed exactly when every metric is known or there are no rows. */
  lemma CompletableIffKnown(exp: Experiment, p: Producers)
    ensures CanAlwaysComplete(exp, p) <==> KnowsMetrics(exp, p) || exp.arms == [] || exp.cases == []
  {
    if KnowsMetrics(exp, p) {
      forall steps: seq<Step>, states: seq<State> | IsRun(exp, p, steps, states)
        ensures exists longer: seq<Step>, after: seq<State> :: Completes(exp, p, steps, longer, after)
      {
        var longer, after, t := AlwaysCompletable(exp, p, steps, states, states[|steps|]);
        assert Completes(exp, p, steps, longer, after);
      }
    } else if exp.arms == [] || exp.cases == [] {
      forall steps: seq<Step>, states: seq<State> | IsRun(exp, p, steps, states)
        ensures exists longer: seq<Step>, after: seq<State> :: Completes(exp, p, steps, longer, after)
      {
        NoRowsNoCells(exp, p, steps, states, |steps|);
        assert Completes(exp, p, steps, steps, states);
      }
    } else {
      forall longer: seq<Step>, after: seq<State> ensures !Completes(exp, p, [], longer, after) {
        UnknownNeverCompletes(exp, p, longer, after);
      }
      assert IsRun(exp, p, [], [Initially(exp)]);
    }
  }
}
