/** Reducing the ledger over half-open windows, by case and by facet, without losing a request. */
module Reduction {
  import opened Wrappers
  import opened Records
  import opened InflightSweep
  import opened Distributions
  import RealFacts

  /** What a request can be counted for, each at one instant. */
  datatype Measure =
    | ArrivedM | DroppedM | DispatchedM | FinishedM | FinishedOkM | InterruptedM | CompletedM | SucceededM

  /** The instant at which a request counts for a measure, if it does. */
  function Moment(ledger: Ledger, m: Measure, r: RequestRecord): Option<real> {
    match m
    case ArrivedM => Some(r.scheduledAt)
    case DroppedM => if r.state.Dropped? then Some(r.scheduledAt) else None
    case DispatchedM => r.dispatchedAt
    case FinishedM => if r.state.Finished? then r.dispatchedAt else None
    case FinishedOkM => if r.state.Finished? && ledger.JudgedOk(r) then r.dispatchedAt else None
    case InterruptedM => if r.state.Interrupted? then r.dispatchedAt else None
    case CompletedM => if r.state.Finished? then r.finishedAt else None
    case SucceededM => if r.state.Finished? && ledger.JudgedOk(r) then r.finishedAt else None
  }

  type Choice = RequestRecord -> bool

  function Filter(records: seq<RequestRecord>, p: Choice): (f: seq<RequestRecord>)
    ensures forall r <- f :: r in records && p(r)
    ensures forall r <- records :: p(r) ==> r in f
  {
    if records == [] then [] else (if p(records[0]) then [records[0]] else []) + Filter(records[1..], p)
  }

  function CountIf(records: seq<RequestRecord>, p: Choice): nat {
    if records == [] then 0 else (if p(records[0]) then 1 else 0) + CountIf(records[1..], p)
  }

  function Counting(ledger: Ledger, m: Measure, start: real, end: real): Choice {
    r => Within(Moment(ledger, m, r), start, end)
  }

  /** How many of the records count for `m` within the window. */
  function Tally(ledger: Ledger, m: Measure, records: seq<RequestRecord>, start: real, end: real): nat {
    CountIf(records, Counting(ledger, m, start, end))
  }

  /** A slice of the requests: all of them, one case's, or those carrying a facet value. */
  datatype Slice = All | OfCase(caseId: string) | OfFacet(key: string, value: string)

  predicate InSlice(slice: Slice, r: RequestRecord) {
    match slice
    case All => true
    case OfCase(id) => r.caseId == id
    case OfFacet(key, value) => key in r.facets && r.facets[key] == value
  }

  function Selecting(slice: Slice): Choice {
    r => InSlice(slice, r)
  }

  function Sliced(ledger: Ledger, slice: Slice): seq<RequestRecord> {
    Filter(ledger.requests, Selecting(slice))
  }

  /** Why a number may not be trusted. */
  datatype Caveat = CoBiased | HighDrop | Incomplete | FewSamples

  datatype Rates = Rates(throughput: real, arrival: real, dispatch: real, success: real, error: real)

  datatype RequestStats = RequestStats(
    counts: map<Measure, nat>, errorBreakdown: multiset<string>, inflightPeak: int, inflightEnd: int, derived: Derived)

  /** What is worked out from the counts and the outcomes. */
  datatype Derived = Derived(latency: Distribution, rates: Rates, metrics: map<string, Distribution>,
    caveats: set<Caveat>)

  /** A window with the time the load was held back in it. */
  datatype LimitedSpan = LimitedSpan(start: real, end: real, limitedS: real)

  /** What the load was like, as far as it bears on the caveats. */
  datatype LoadFacts = LoadFacts(saturated: bool, windows: seq<LimitedSpan>)

  datatype Result<+T> = Ok(value: T) | NoOperationRun(request: string)

  /** The bucket a finished request falls into if it did not succeed. */
  function ErrorLabel(ledger: Ledger, r: RequestRecord): Option<string> {
    match ledger.Verdict(r)
    case None => Some("unjudged")
    case Some(e) =>
      if e.ok then None
      else if e.errorKind.Some? && e.errorKind.value != "" then e.errorKind else Some("unknown")
  }

  predicate HasRun(ledger: Ledger, r: RequestRecord) {
    r.operationRunId.Some? && exists o <- ledger.operationRuns :: o.id == r.operationRunId.value
  }

  predicate InCohort(r: RequestRecord, start: real, end: real) {
    r.state.Finished? && Within(r.dispatchedAt, start, end)
  }

  function Bucket(ledger: Ledger, r: RequestRecord, start: real, end: real): multiset<string> {
    if InCohort(r, start, end) && ErrorLabel(ledger, r).Some? then multiset{ErrorLabel(ledger, r).value} else multiset{}
  }

  function Breakdown(ledger: Ledger, records: seq<RequestRecord>, start: real, end: real): multiset<string> {
    if records == [] then multiset{}
    else Bucket(ledger, records[0], start, end) + Breakdown(ledger, records[1..], start, end)
  }

  /** Every finished request of the cohort can be looked up. */
  ghost predicate AllHaveRuns(ledger: Ledger, records: seq<RequestRecord>, start: real, end: real) {
    forall q <- records :: !Missing(ledger, q, start, end)
  }

  /** A finished request of the cohort whose operation run is not there to be looked up. */
  predicate Missing(ledger: Ledger, r: RequestRecord, start: real, end: real) {
    InCohort(r, start, end) && !HasRun(ledger, r)
  }

  ghost predicate Ordered(records: seq<RequestRecord>) {
    forall r <- records :: EndsAfterDispatch(r)
  }

  function Later(start: real, end: real): real { if start <= end then end else start }

  // ----- Numbers over the cohort -----

  /** The operation run of a request; a later run of the same id wins. */
  function RunOf(runs: seq<OperationRun>, id: string): Option<OperationRun> {
    if runs == [] then None
    else if runs[|runs| - 1].id == id then Some(runs[|runs| - 1]) else RunOf(runs[..|runs| - 1], id)
  }

  function OutcomeOf(ledger: Ledger, r: RequestRecord): Option<Outcome> {
    if r.operationRunId.None? || RunOf(ledger.operationRuns, r.operationRunId.value).None? then None
    else Some(RunOf(ledger.operationRuns, r.operationRunId.value).value.outcome)
  }

  /** The outcomes of the finished requests of the cohort. */
  function Outcomes(ledger: Ledger, records: seq<RequestRecord>, start: real, end: real): seq<Outcome> {
    if records == [] then []
    else
      (if InCohort(records[0], start, end) && OutcomeOf(ledger, records[0]).Some?
        then [OutcomeOf(ledger, records[0]).value] else [])
      + Outcomes(ledger, records[1..], start, end)
  }

  function Durations(outcomes: seq<Outcome>): seq<real> {
    seq(|outcomes|, i requires 0 <= i < |outcomes| => outcomes[i].durationMs)
  }

  function MetricValues(outcomes: seq<Outcome>, key: string): seq<real> {
    if outcomes == [] then []
    else (if key in outcomes[0].metrics then [outcomes[0].metrics[key]] else []) + MetricValues(outcomes[1..], key)
  }

  function MetricKeys(outcomes: seq<Outcome>): set<string> {
    set o <- outcomes, key <- o.metrics :: key
  }

  const LAG := "scheduler_lag_ms"

  /** How late the scheduler was, for each request due in the window. */
  function Lags(records: seq<RequestRecord>, start: real, end: real): seq<real> {
    if records == [] then []
    else
      (if Within(Some(records[0].scheduledAt), start, end)
        then [(records[0].arrivedAt - records[0].scheduledAt) * 1000.0] else [])
      + Lags(records[1..], start, end)
  }

  function ValuesOf(outcomes: seq<Outcome>, lags: seq<real>, key: string): seq<real> {
    if key == LAG then lags else MetricValues(outcomes, key)
  }

  /** The distribution of each measured number, and of the lag, where there are values at all. */
  function MetricsOf(outcomes: seq<Outcome>, lags: seq<real>): map<string, Distribution> {
    map key | key in MetricKeys(outcomes) + {LAG} && ValuesOf(outcomes, lags, key) != [] ::
      DistributionOf(ValuesOf(outcomes, lags, key))
  }

  const SHORTEST: real := 0.000000001

  function PerSecond(n: nat, start: real, end: real): real {
    n as real / if end - start > SHORTEST then end - start else SHORTEST
  }

  function Count(counts: map<Measure, nat>, m: Measure): nat { if m in counts then counts[m] else 0 }

  /** The part `a` makes of `n`, none if there is nothing. */
  function ShareOf(a: int, n: nat): real { if n == 0 then 0.0 else a as real / n as real }

  function RatesOf(counts: map<Measure, nat>, start: real, end: real): Rates {
    Rates(PerSecond(Count(counts, CompletedM), start, end), PerSecond(Count(counts, ArrivedM), start, end),
      PerSecond(Count(counts, DispatchedM), start, end), PerSecond(Count(counts, SucceededM), start, end),
      ShareOf(Count(counts, FinishedM) - Count(counts, FinishedOkM), Count(counts, FinishedM)))
  }

  /** Some finished request of the cohort was never judged. */
  predicate SomeUnjudged(ledger: Ledger, records: seq<RequestRecord>, start: real, end: real) {
    exists r <- records :: InCohort(r, start, end) && ledger.Verdict(r).None?
  }

  function CaveatsOf(facts: LoadFacts, counts: map<Measure, nat>, unjudged: bool, start: real, end: real): set<Caveat> {
    (if Count(counts, FinishedM) > 0 && (facts.saturated || HeldBack(facts, start, end)) then {CoBiased} else {})
    + (if Count(counts, DroppedM) > 0 then {HighDrop} else {})
    + (if Count(counts, InterruptedM) > 0 || unjudged then {Incomplete} else {})
    + (if Count(counts, FinishedM) < 30 then {FewSamples} else {})
  }

  /** The load was held back in some window that meets this one. */
  predicate HeldBack(facts: LoadFacts, start: real, end: real) {
    exists w <- facts.windows :: w.limitedS > 0.0 && w.start < end && w.end > start
  }

  function DerivedOf(ledger: Ledger, facts: LoadFacts, records: seq<RequestRecord>, start: real, end: real,
                     counts: map<Measure, nat>): Derived {
    var outcomes := Outcomes(ledger, records, start, end);
    Derived(DistributionOf(Durations(outcomes)), RatesOf(counts, start, end),
      MetricsOf(outcomes, Lags(records, start, end)),
      CaveatsOf(facts, counts, SomeUnjudged(ledger, records, start, end), start, end))
  }

  /** What the statistics of a slice over a window are: what is counted, */
  ghost predicate Summarizes(ledger: Ledger, slice: Slice, start: real, end: real, stats: RequestStats) {
    var records := Sliced(ledger, slice);
    && (forall m: Measure :: m in stats.counts && stats.counts[m] == Tally(ledger, m, records, start, end))
    && stats.errorBreakdown == Breakdown(ledger, records, start, end)
    && IsPeak(records, start, end, stats.inflightPeak)
    && stats.inflightEnd == CountBefore(records, Later(start, end))
  }

  /** and what is worked out from that. */
  ghost predicate Derives(ledger: Ledger, facts: LoadFacts, slice: Slice, start: real, end: real, stats: RequestStats) {
    stats.derived == DerivedOf(ledger, facts, Sliced(ledger, slice), start, end, stats.counts)
  }

  method ReduceRequests(ledger: Ledger, facts: LoadFacts, start: real, end: real, slice: Slice)
    returns (r: Result<RequestStats>)
    requires Ordered(ledger.requests)
    ensures r.Ok? <==> AllHaveRuns(ledger, Sliced(ledger, slice), start, end)
    ensures r.Ok? ==>
      Summarizes(ledger, slice, start, end, r.value) && Derives(ledger, facts, slice, start, end, r.value)
    ensures r.NoOperationRun? ==>
      exists q <- Sliced(ledger, slice) :: q.id == r.request && Missing(ledger, q, start, end)
  {
    var records := Sliced(ledger, slice);
    var breakdown := CollectBreakdown(ledger, records, start, end);
    if breakdown.NoOperationRun? {
      return NoOperationRun(breakdown.request);
    }
    var peak, current := Sweep(records, start, end);
    var counts := AllCounts(ledger, records, start, end);
    var derived := Derive(ledger, facts, records, start, end, counts);
    r := Ok(RequestStats(counts, breakdown.value, peak, current, derived));
  }

  method Derive(ledger: Ledger, facts: LoadFacts, records: seq<RequestRecord>, start: real, end: real,
                counts: map<Measure, nat>)
    returns (d: Derived)
    ensures d == DerivedOf(ledger, facts, records, start, end, counts)
  {
    var outcomes := CollectOutcomes(ledger, records, start, end);
    d := Derived(DistributionOf(Durations(outcomes)), RatesOf(counts, start, end),
      MetricsOf(outcomes, Lags(records, start, end)),
      CaveatsOf(facts, counts, SomeUnjudged(ledger, records, start, end), start, end));
  }

  method CollectOutcomes(ledger: Ledger, records: seq<RequestRecord>, start: real, end: real)
    returns (outcomes: seq<Outcome>)
    ensures outcomes == Outcomes(ledger, records, start, end)
  {
    outcomes := [];
    for i := |records| downto 0
      invariant outcomes == Outcomes(ledger, records[i..], start, end)
    {
      assert records[i..][0] == records[i] && records[i..][1..] == records[i + 1..];
      var outcome := OutcomeOf(ledger, records[i]);
      if InCohort(records[i], start, end) && outcome.Some? {
        outcomes := [outcome.value] + outcomes;
      }
    }
    assert records[0..] == records;
  }

  lemma {:induction false} RunFound(runs: seq<OperationRun>, id: string)
    ensures RunOf(runs, id).Some? <==> exists o <- runs :: o.id == id
  {
    if runs == [] {
    } else {
      var n := |runs| - 1;
      RunFound(runs[..n], id);
      assert runs == runs[..n] + [runs[n]];
    }
  }

  /** Where no operation run is missing the cohort has an outcome for every finished request. */
  lemma {:induction false} OutcomesComplete(ledger: Ledger, records: seq<RequestRecord>, start: real, end: real)
    requires AllHaveRuns(ledger, records, start, end)
    ensures |Outcomes(ledger, records, start, end)| == Tally(ledger, FinishedM, records, start, end)
  {
    if records == [] {
    } else {
      assert !Missing(ledger, records[0], start, end);
      if records[0].operationRunId.Some? { RunFound(ledger.operationRuns, records[0].operationRunId.value); }
      OutcomesComplete(ledger, records[1..], start, end);
      TallyCons(ledger, FinishedM, records, start, end);
    }
  }

  /** The latency of a slice is the distribution of exactly its finished requests: nearest-rank
      percentiles, in order. */
  lemma LatencyIsRight(ledger: Ledger, facts: LoadFacts, slice: Slice, start: real, end: real, stats: RequestStats)
    requires Summarizes(ledger, slice, start, end, stats) && Derives(ledger, facts, slice, start, end, stats)
    requires AllHaveRuns(ledger, Sliced(ledger, slice), start, end)
    ensures stats.derived.latency.n == CountOf(stats, FinishedM)
    ensures var durations := Durations(Outcomes(ledger, Sliced(ledger, slice), start, end));
      durations != [] ==>
        && IsNearestRank(durations, 0.5, stats.derived.latency.p50)
        && IsNearestRank(durations, 0.95, stats.derived.latency.p95)
        && IsNearestRank(durations, 0.99, stats.derived.latency.p99)
        && stats.derived.latency.p50 <= stats.derived.latency.p95 <= stats.derived.latency.p99
  {
    var durations := Durations(Outcomes(ledger, Sliced(ledger, slice), start, end));
    OutcomesComplete(ledger, Sliced(ledger, slice), start, end);
    if durations != [] { DistributionIsRight(durations); }
  }

  lemma {:induction false} OkAreFinished(ledger: Ledger, records: seq<RequestRecord>, start: real, end: real)
    ensures Tally(ledger, FinishedOkM, records, start, end) <= Tally(ledger, FinishedM, records, start, end)
  {
    if records == [] {
    } else {
      OkAreFinished(ledger, records[1..], start, end);
      TallyCons(ledger, FinishedM, records, start, end);
      TallyCons(ledger, FinishedOkM, records, start, end);
    }
  }

  /** The error rate is the share of the error buckets, between none and all. */
  lemma ErrorRateIsShare(ledger: Ledger, facts: LoadFacts, slice: Slice, start: real, end: real, stats: RequestStats)
    requires Summarizes(ledger, slice, start, end, stats) && Derives(ledger, facts, slice, start, end, stats)
    ensures 0.0 <= stats.derived.rates.error <= 1.0
    ensures ShareTimes(stats.derived.rates.error, Count(stats.counts, FinishedM)) == |stats.errorBreakdown| as real
  {
    SummaryCounts(ledger, slice, start, end, stats);
    DerivedError(ledger, facts, slice, start, end, stats);
    ShareWithin(Count(stats.counts, FinishedM) - Count(stats.counts, FinishedOkM), Count(stats.counts, FinishedM));
  }

  lemma DerivedError(ledger: Ledger, facts: LoadFacts, slice: Slice, start: real, end: real, stats: RequestStats)
    requires Derives(ledger, facts, slice, start, end, stats)
    ensures stats.derived.rates.error
         == ShareOf(Count(stats.counts, FinishedM) - Count(stats.counts, FinishedOkM), Count(stats.counts, FinishedM))
  {
    assert stats.derived.rates == RatesOf(stats.counts, start, end);
  }

  lemma SummaryCounts(ledger: Ledger, slice: Slice, start: real, end: real, stats: RequestStats)
    requires Summarizes(ledger, slice, start, end, stats)
    ensures Count(stats.counts, FinishedOkM) <= Count(stats.counts, FinishedM)
    ensures |stats.errorBreakdown| == Count(stats.counts, FinishedM) - Count(stats.counts, FinishedOkM)
  {
    OkAreFinished(ledger, Sliced(ledger, slice), start, end);
    BreakdownCounts(ledger, Sliced(ledger, slice), start, end);
  }

  lemma ShareWithin(a: int, n: nat)
    requires 0 <= a <= n
    ensures 0.0 <= ShareOf(a, n) <= 1.0 && ShareTimes(ShareOf(a, n), n) == a as real
  {
    if n > 0 {
      RealFacts.DivideBack(a as real, n as real);
      RealFacts.DivideOrder(0.0, a as real, n as real);
      RealFacts.DivideOrder(a as real, n as real, n as real);
    }
  }

  function ShareTimes(share: real, n: nat): real { share * n as real }

  function AllCounts(ledger: Ledger, records: seq<RequestRecord>, start: real, end: real): (counts: map<Measure, nat>)
    ensures forall m: Measure :: m in counts && counts[m] == Tally(ledger, m, records, start, end)
  {
    map m: Measure | m.ArrivedM? || m.DroppedM? || m.DispatchedM? || m.FinishedM? || m.FinishedOkM?
                     || m.InterruptedM? || m.CompletedM? || m.SucceededM?
      :: Tally(ledger, m, records, start, end)
  }

  method CollectBreakdown(ledger: Ledger, records: seq<RequestRecord>, start: real, end: real)
    returns (r: Result<multiset<string>>)
    ensures r.Ok? <==> AllHaveRuns(ledger, records, start, end)
    ensures r.Ok? ==> r.value == Breakdown(ledger, records, start, end)
    ensures r.NoOperationRun? ==> exists q <- records :: q.id == r.request && Missing(ledger, q, start, end)
  {
    var breakdown := multiset{};
    for i := 0 to |records|
      invariant Breakdown(ledger, records, start, end) == breakdown + Breakdown(ledger, records[i..], start, end)
      invariant AllHaveRuns(ledger, records[..i], start, end)
    {
      var q := records[i];
      BreakdownStep(ledger, records, i, start, end);
      if Missing(ledger, q, start, end) {
        return NoOperationRun(q.id);
      }
      breakdown := breakdown + Bucket(ledger, q, start, end);
    }
    assert records[..|records|] == records;
    r := Ok(breakdown);
  }

  lemma BreakdownStep(ledger: Ledger, records: seq<RequestRecord>, i: nat, start: real, end: real)
    requires i < |records|
    ensures Breakdown(ledger, records[i..], start, end)
         == Bucket(ledger, records[i], start, end) + Breakdown(ledger, records[i + 1..], start, end)
    ensures AllHaveRuns(ledger, records[..i + 1], start, end)
       <==> AllHaveRuns(ledger, records[..i], start, end) && !Missing(ledger, records[i], start, end)
  {
    assert records[i..][0] == records[i] && records[i..][1..] == records[i + 1..];
    assert records[..i + 1] == records[..i] + [records[i]];
  }

  // ----- Windows that tile a stretch of time -----

  datatype Span = Span(start: real, end: real)

  /** Each span begins where the one before it ended. */
  ghost predicate Tiling(spans: seq<Span>) {
    && (forall s <- spans :: s.start <= s.end)
    && forall i | 0 <= i < |spans| - 1 :: spans[i].end == spans[i + 1].start
  }

  function SumOfTallies(ledger: Ledger, m: Measure, records: seq<RequestRecord>, spans: seq<Span>): nat {
    if spans == [] then 0
    else Tally(ledger, m, records, spans[0].start, spans[0].end) + SumOfTallies(ledger, m, records, spans[1..])
  }

  lemma {:induction false} TallySplits(ledger: Ledger, m: Measure, records: seq<RequestRecord>, a: real, b: real,
                                       c: real)
    requires a <= b <= c
    ensures Tally(ledger, m, records, a, c) == Tally(ledger, m, records, a, b) + Tally(ledger, m, records, b, c)
  {
    if records == [] {
    } else {
      TallySplits(ledger, m, records[1..], a, b, c);
      TallyCons(ledger, m, records, a, c);
      TallyCons(ledger, m, records, a, b);
      TallyCons(ledger, m, records, b, c);
    }
  }

  lemma TallyCons(ledger: Ledger, m: Measure, records: seq<RequestRecord>, a: real, b: real)
    requires records != []
    ensures Tally(ledger, m, records, a, b)
         == (if Within(Moment(ledger, m, records[0]), a, b) then 1 else 0) + Tally(ledger, m, records[1..], a, b)
  {
  }

  lemma TilingTail(spans: seq<Span>)
    requires Tiling(spans) && spans != []
    ensures Tiling(spans[1..]) && spans[0].start <= spans[0].end
  {
    forall i | 0 <= i < |spans[1..]| - 1 ensures spans[1..][i].end == spans[1..][i + 1].start {
      assert spans[i + 1].end == spans[i + 2].start;
    }
  }

  lemma {:induction false} TilingEnds(spans: seq<Span>)
    requires Tiling(spans) && spans != []
    ensures spans[0].start <= spans[|spans| - 1].end
    decreases |spans|
  {
    TilingTail(spans);
    if |spans| == 1 {
    } else {
      TilingEnds(spans[1..]);
    }
  }

  /** Windows that tile a stretch of time count every event in it once: their tallies add up to the
      tally of the whole stretch, for every measure. */
  lemma {:induction false} TilingConserves(ledger: Ledger, m: Measure, records: seq<RequestRecord>, spans: seq<Span>)
    requires Tiling(spans) && spans != []
    ensures SumOfTallies(ledger, m, records, spans) == Tally(ledger, m, records, spans[0].start, spans[|spans| - 1].end)
    decreases |spans|
  {
    TilingTail(spans);
    if |spans| == 1 {
    } else {
      TilingEnds(spans[1..]);
      TilingConserves(ledger, m, records, spans[1..]);
      TallySplits(ledger, m, records, spans[0].start, spans[0].end, spans[|spans| - 1].end);
    }
  }

  // ----- Error breakdown -----

  /** Every finished request that did not succeed is in exactly one error bucket. */
  lemma {:induction false} BreakdownCounts(ledger: Ledger, records: seq<RequestRecord>, start: real, end: real)
    ensures |Breakdown(ledger, records, start, end)|
         == Tally(ledger, FinishedM, records, start, end) - Tally(ledger, FinishedOkM, records, start, end)
  {
    if records == [] {
    } else {
      BreakdownCounts(ledger, records[1..], start, end);
      TallyCons(ledger, FinishedM, records, start, end);
      TallyCons(ledger, FinishedOkM, records, start, end);
      BucketSize(ledger, records[0], start, end);
    }
  }

  lemma BucketSize(ledger: Ledger, r: RequestRecord, start: real, end: real)
    ensures |Bucket(ledger, r, start, end)|
         == (if Within(Moment(ledger, FinishedM, r), start, end) then 1 else 0)
          - (if Within(Moment(ledger, FinishedOkM, r), start, end) then 1 else 0)
  {
    assert ErrorLabel(ledger, r).None? <==> ledger.JudgedOk(r);
  }

  // ----- Slices -----

  /** The two ways a window is split: by case id, or by the values of one facet. */
  datatype Axis = ByCase | ByFacet(key: string)

  function Label(axis: Axis, r: RequestRecord): Option<string> {
    match axis
    case ByCase => Some(r.caseId)
    case ByFacet(key) => if key in r.facets then Some(r.facets[key]) else None
  }

  function SliceFor(axis: Axis, value: string): Slice {
    match axis
    case ByCase => OfCase(value)
    case ByFacet(key) => OfFacet(key, value)
  }

  /** All labels the requests carry. */
  function Labels(axis: Axis, records: seq<RequestRecord>): set<string> {
    set r <- records | Label(axis, r).Some? :: Label(axis, r).value
  }

  function Both(p: Choice, q: Choice): Choice {
    r => p(r) && q(r)
  }

  function LabelledIn(axis: Axis, values: set<string>): Choice {
    r => Label(axis, r).Some? && Label(axis, r).value in values
  }

  function Labelled(axis: Axis): Choice {
    r => Label(axis, r).Some?
  }

  ghost function PickOne(values: set<string>): (v: string)
    requires values != {}
    ensures v in values
  {
    var v :| v in values; v
  }

  ghost function SumOver(values: set<string>, f: string -> int): int {
    if values == {} then 0 else f(PickOne(values)) + SumOver(values - {PickOne(values)}, f)
  }

  lemma {:induction false} CountSame(records: seq<RequestRecord>, p: Choice, q: Choice)
    requires forall r <- records :: p(r) == q(r)
    ensures CountIf(records, p) == CountIf(records, q)
  {
    if records == [] {
    } else {
      CountSame(records[1..], p, q);
    }
  }

  lemma {:induction false} CountNone(records: seq<RequestRecord>, p: Choice)
    requires forall r <- records :: !p(r)
    ensures CountIf(records, p) == 0
  {
    if records == [] {
    } else {
      CountNone(records[1..], p);
    }
  }

  lemma {:induction false} CountDisjoint(records: seq<RequestRecord>, whole: Choice, p: Choice, q: Choice)
    requires forall r <- records :: !(p(r) && q(r)) && (whole(r) <==> p(r) || q(r))
    ensures CountIf(records, whole) == CountIf(records, p) + CountIf(records, q)
  {
    if records == [] {
    } else {
      CountDisjoint(records[1..], whole, p, q);
    }
  }

  lemma {:induction false} CountFiltered(records: seq<RequestRecord>, q: Choice, p: Choice)
    ensures CountIf(Filter(records, q), p) == CountIf(records, Both(q, p))
  {
    if records == [] {
    } else {
      CountFiltered(records[1..], q, p);
      if q(records[0]) {
        assert Filter(records, q)[1..] == Filter(records[1..], q);
      } else {
        assert Filter(records, q) == Filter(records[1..], q);
      }
    }
  }

  lemma {:induction false} SlicesAddUp(records: seq<RequestRecord>, axis: Axis, values: set<string>, p: Choice,
                                       f: string -> int)
    requires forall v <- values :: f(v) == CountIf(records, Both(LabelledIn(axis, {v}), p))
    ensures SumOver(values, f) == CountIf(records, Both(LabelledIn(axis, values), p))
  {
    if values == {} {
      CountNone(records, Both(LabelledIn(axis, values), p));
    } else {
      var v := PickOne(values);
      SlicesAddUp(records, axis, values - {v}, p, f);
      CountDisjoint(records, Both(LabelledIn(axis, values), p), Both(LabelledIn(axis, {v}), p),
        Both(LabelledIn(axis, values - {v}), p));
    }
  }

  /** The count of each slice along an axis. */
  function PerSlice(ledger: Ledger, axis: Axis, p: Choice): string -> int {
    v => CountIf(Sliced(ledger, SliceFor(axis, v)), p)
  }

  lemma SliceCount(ledger: Ledger, axis: Axis, p: Choice, v: string)
    ensures PerSlice(ledger, axis, p)(v) == CountIf(ledger.requests, Both(LabelledIn(axis, {v}), p))
  {
    CountFiltered(ledger.requests, Selecting(SliceFor(axis, v)), p);
    CountSame(ledger.requests, Both(Selecting(SliceFor(axis, v)), p), Both(LabelledIn(axis, {v}), p));
  }

  lemma LabelledCount(records: seq<RequestRecord>, axis: Axis, p: Choice)
    ensures CountIf(records, Both(LabelledIn(axis, Labels(axis, records)), p))
      == CountIf(Filter(records, Labelled(axis)), p)
  {
    CountFiltered(records, Labelled(axis), p);
    CountSame(records, Both(LabelledIn(axis, Labels(axis, records)), p), Both(Labelled(axis), p));
  }

  /** The slices along an axis add up to the requests that carry a label on it, whatever is counted. */
  lemma SlicesConserve(ledger: Ledger, axis: Axis, p: Choice)
    ensures SumOver(Labels(axis, ledger.requests), PerSlice(ledger, axis, p))
      == CountIf(Filter(ledger.requests, Labelled(axis)), p)
  {
    var records, values := ledger.requests, Labels(axis, ledger.requests);
    forall v <- values ensures PerSlice(ledger, axis, p)(v) == CountIf(records, Both(LabelledIn(axis, {v}), p)) {
      SliceCount(ledger, axis, p, v);
    }
    SlicesAddUp(records, axis, values, p, PerSlice(ledger, axis, p));
    LabelledCount(records, axis, p);
  }

  lemma {:induction false} FilterAll(records: seq<RequestRecord>, p: Choice)
    requires forall r <- records :: p(r)
    ensures Filter(records, p) == records
  {
    if records == [] {
    } else {
      FilterAll(records[1..], p);
    }
  }

  // ----- Window assembly -----

  datatype WindowStats = WindowStats(span: Span, request: RequestStats, byCase: map<string, RequestStats>,
    byFacet: map<string, map<string, RequestStats>>)

  function FacetKeys(records: seq<RequestRecord>): set<string> {
    set r <- records, key <- r.facets :: key
  }

  /** The statistics of a slice over a window, in full. */
  ghost predicate Reduced(ledger: Ledger, facts: LoadFacts, slice: Slice, span: Span, stats: RequestStats) {
    Summarizes(ledger, slice, span.start, span.end, stats) && Derives(ledger, facts, slice, span.start, span.end, stats)
  }

  /** There is a slice for each label on the axis, and each is reduced. */
  ghost predicate SlicesAre(ledger: Ledger, facts: LoadFacts, axis: Axis, span: Span,
                            slices: map<string, RequestStats>) {
    slices.Keys == Labels(axis, ledger.requests) && SlicesReduced(ledger, facts, axis, span, slices)
  }

  ghost predicate SlicesReduced(ledger: Ledger, facts: LoadFacts, axis: Axis, span: Span,
                                slices: map<string, RequestStats>) {
    forall v <- slices :: Reduced(ledger, facts, SliceFor(axis, v), span, slices[v])
  }

  ghost predicate FacetsReduced(ledger: Ledger, facts: LoadFacts, span: Span,
                                byFacet: map<string, map<string, RequestStats>>) {
    forall key <- byFacet :: SlicesAre(ledger, facts, ByFacet(key), span, byFacet[key])
  }

  ghost predicate Assembled(ledger: Ledger, facts: LoadFacts, w: WindowStats) {
    && Reduced(ledger, facts, All, w.span, w.request)
    && SlicesAre(ledger, facts, ByCase, w.span, w.byCase)
    && w.byFacet.Keys == FacetKeys(ledger.requests)
    && FacetsReduced(ledger, facts, w.span, w.byFacet)
  }

  ghost predicate CanReduce(ledger: Ledger, span: Span) {
    AllHaveRuns(ledger, ledger.requests, span.start, span.end)
  }

  lemma SliceCanReduce(ledger: Ledger, slice: Slice, span: Span)
    requires CanReduce(ledger, span)
    ensures AllHaveRuns(ledger, Sliced(ledger, slice), span.start, span.end)
  {
  }

  method ReduceSlice(ledger: Ledger, facts: LoadFacts, slice: Slice, span: Span) returns (stats: RequestStats)
    requires Ordered(ledger.requests) && CanReduce(ledger, span)
    ensures Reduced(ledger, facts, slice, span, stats)
  {
    SliceCanReduce(ledger, slice, span);
    var r := ReduceRequests(ledger, facts, span.start, span.end, slice);
    stats := r.value;
  }

  lemma SlicesGrow(ledger: Ledger, facts: LoadFacts, axis: Axis, span: Span, slices: map<string, RequestStats>,
                   v: string, stats: RequestStats)
    requires SlicesReduced(ledger, facts, axis, span, slices) && Reduced(ledger, facts, SliceFor(axis, v), span, stats)
    ensures SlicesReduced(ledger, facts, axis, span, slices[v := stats])
  {
  }

  method ReduceAlong(ledger: Ledger, facts: LoadFacts, axis: Axis, span: Span)
    returns (slices: map<string, RequestStats>)
    requires Ordered(ledger.requests) && CanReduce(ledger, span)
    ensures SlicesAre(ledger, facts, axis, span, slices)
  {
    slices := ReduceLabels(ledger, facts, axis, span, Labels(axis, ledger.requests));
  }

  method ReduceLabels(ledger: Ledger, facts: LoadFacts, axis: Axis, span: Span, labels: set<string>)
    returns (slices: map<string, RequestStats>)
    requires Ordered(ledger.requests) && CanReduce(ledger, span)
    ensures slices.Keys == labels && SlicesReduced(ledger, facts, axis, span, slices)
    decreases |labels|
  {
    if labels == {} {
      slices := map[];
    } else {
      var v :| v in labels;
      var rest := ReduceLabels(ledger, facts, axis, span, labels - {v});
      slices := WithSlice(ledger, facts, axis, span, rest, v);
    }
  }

  method WithSlice(ledger: Ledger, facts: LoadFacts, axis: Axis, span: Span, slices: map<string, RequestStats>,
                   v: string)
    returns (more: map<string, RequestStats>)
    requires Ordered(ledger.requests) && CanReduce(ledger, span) && SlicesReduced(ledger, facts, axis, span, slices)
    ensures more.Keys == slices.Keys + {v} && SlicesReduced(ledger, facts, axis, span, more)
  {
    var stats := ReduceSlice(ledger, facts, SliceFor(axis, v), span);
    SlicesGrow(ledger, facts, axis, span, slices, v, stats);
    more := slices[v := stats];
  }

  lemma FacetsGrow(ledger: Ledger, facts: LoadFacts, span: Span, byFacet: map<string, map<string, RequestStats>>,
                   key: string, slices: map<string, RequestStats>)
    requires FacetsReduced(ledger, facts, span, byFacet) && SlicesAre(ledger, facts, ByFacet(key), span, slices)
    ensures FacetsReduced(ledger, facts, span, byFacet[key := slices])
  {
  }

  method ReduceFacets(ledger: Ledger, facts: LoadFacts, span: Span)
    returns (byFacet: map<string, map<string, RequestStats>>)
    requires Ordered(ledger.requests) && CanReduce(ledger, span)
    ensures byFacet.Keys == FacetKeys(ledger.requests) && FacetsReduced(ledger, facts, span, byFacet)
  {
    byFacet := map[];
    var todo := FacetKeys(ledger.requests);
    while todo != {}
      invariant byFacet.Keys + todo == FacetKeys(ledger.requests)
      invariant FacetsReduced(ledger, facts, span, byFacet)
    {
      var key :| key in todo;
      var slices := ReduceAlong(ledger, facts, ByFacet(key), span);
      FacetsGrow(ledger, facts, span, byFacet, key, slices);
      byFacet := byFacet[key := slices];
      todo := todo - {key};
    }
  }

  method ReduceWindow(ledger: Ledger, facts: LoadFacts, span: Span) returns (r: Result<WindowStats>)
    requires Ordered(ledger.requests)
    ensures r.Ok? <==> CanReduce(ledger, span)
    ensures r.Ok? ==> r.value.span == span && Assembled(ledger, facts, r.value)
  {
    FilterAll(ledger.requests, Selecting(All));
    var whole := ReduceRequests(ledger, facts, span.start, span.end, All);
    if whole.NoOperationRun? {
      return NoOperationRun(whole.request);
    }
    var byCase := ReduceAlong(ledger, facts, ByCase, span);
    var byFacet := ReduceFacets(ledger, facts, span);
    r := Ok(WindowStats(span, whole.value, byCase, byFacet));
  }

  ghost predicate AllAssembled(ledger: Ledger, facts: LoadFacts, windows: seq<WindowStats>) {
    forall w <- windows :: Assembled(ledger, facts, w)
  }

  lemma AssembledSnoc(ledger: Ledger, facts: LoadFacts, windows: seq<WindowStats>, w: WindowStats)
    requires AllAssembled(ledger, facts, windows) && Assembled(ledger, facts, w)
    ensures AllAssembled(ledger, facts, windows + [w])
  {
  }

  method Aggregate(ledger: Ledger, facts: LoadFacts, spans: seq<Span>) returns (r: Result<seq<WindowStats>>)
    requires Ordered(ledger.requests)
    ensures r.Ok? <==> forall s <- spans :: CanReduce(ledger, s)
    ensures r.Ok? ==> Spans(r.value) == spans && AllAssembled(ledger, facts, r.value)
  {
    r := Ok([]);
    for i := 0 to |spans|
      invariant r.Ok? && Spans(r.value) == spans[..i]
      invariant AllAssembled(ledger, facts, r.value)
      invariant forall s <- spans[..i] :: CanReduce(ledger, s)
    {
      r := WithWindow(ledger, facts, r.value, spans[i]);
      if r.NoOperationRun? {
        return;
      }
    }
  }

  method WithWindow(ledger: Ledger, facts: LoadFacts, windows: seq<WindowStats>, span: Span)
    returns (r: Result<seq<WindowStats>>)
    requires Ordered(ledger.requests) && AllAssembled(ledger, facts, windows)
    ensures r.Ok? <==> CanReduce(ledger, span)
    ensures r.Ok? ==> Spans(r.value) == Spans(windows) + [span] && AllAssembled(ledger, facts, r.value)
  {
    var w := ReduceWindow(ledger, facts, span);
    if w.NoOperationRun? {
      return NoOperationRun(w.request);
    }
    AssembledSnoc(ledger, facts, windows, w.value);
    r := Ok(windows + [w.value]);
  }

  function Spans(windows: seq<WindowStats>): seq<Span> {
    seq(|windows|, i requires 0 <= i < |windows| => windows[i].span)
  }

  // ----- Conservation over the assembled windows -----

  function CountOf(stats: RequestStats, m: Measure): int {
    if m in stats.counts then stats.counts[m] else 0
  }

  function SumOfCounts(windows: seq<WindowStats>, m: Measure): int {
    if windows == [] then 0 else CountOf(windows[0].request, m) + SumOfCounts(windows[1..], m)
  }

  /** Summed over windows that tile a stretch of time, each count is the number of requests whose
      event lies in the stretch. */
  lemma WindowsConserve(ledger: Ledger, facts: LoadFacts, windows: seq<WindowStats>, m: Measure)
    requires windows != [] && Tiling(Spans(windows)) && AllAssembled(ledger, facts, windows)
    ensures SumOfCounts(windows, m)
      == Tally(ledger, m, ledger.requests, windows[0].span.start, windows[|windows| - 1].span.end)
  {
    SumIsTallies(ledger, facts, windows, m);
    TilingConserves(ledger, m, ledger.requests, Spans(windows));
  }

  lemma {:induction false} SumIsTallies(ledger: Ledger, facts: LoadFacts, windows: seq<WindowStats>, m: Measure)
    requires AllAssembled(ledger, facts, windows)
    ensures SumOfCounts(windows, m) == SumOfTallies(ledger, m, ledger.requests, Spans(windows))
  {
    if windows == [] {
    } else {
      assert Spans(windows)[1..] == Spans(windows[1..]);
      assert Assembled(ledger, facts, windows[0]);
      SumIsTallies(ledger, facts, windows[1..], m);
      FilterAll(ledger.requests, Selecting(All));
    }
  }

  function CountsOf(slices: map<string, RequestStats>, m: Measure): string -> int {
    v => if v in slices then CountOf(slices[v], m) else 0
  }

  function EndsOf(slices: map<string, RequestStats>): string -> int {
    v => if v in slices then slices[v].inflightEnd else 0
  }

  lemma {:induction false} SumSame(values: set<string>, f: string -> int, g: string -> int)
    requires forall v <- values :: f(v) == g(v)
    ensures SumOver(values, f) == SumOver(values, g)
  {
    if values != {} {
      SumSame(values - {PickOne(values)}, f, g);
    }
  }

  /** Within a window the case slices add up to the whole, for every count. */
  lemma CasesConserve(ledger: Ledger, facts: LoadFacts, w: WindowStats, m: Measure)
    requires Assembled(ledger, facts, w)
    ensures SumOver(w.byCase.Keys, CountsOf(w.byCase, m)) == CountOf(w.request, m)
  {
    var p := Counting(ledger, m, w.span.start, w.span.end);
    SlicesConserve(ledger, ByCase, p);
    SumSame(w.byCase.Keys, CountsOf(w.byCase, m), PerSlice(ledger, ByCase, p));
    FilterAll(ledger.requests, Labelled(ByCase));
    FilterAll(ledger.requests, Selecting(All));
  }

  /** Within a window the slices of a facet add up to the requests that carry the facet. */
  lemma FacetsConserve(ledger: Ledger, facts: LoadFacts, w: WindowStats, key: string, m: Measure)
    requires Assembled(ledger, facts, w) && key in w.byFacet
    ensures SumOver(w.byFacet[key].Keys, CountsOf(w.byFacet[key], m))
         == Tally(ledger, m, Filter(ledger.requests, Labelled(ByFacet(key))), w.span.start, w.span.end)
  {
    var p := Counting(ledger, m, w.span.start, w.span.end);
    SlicesConserve(ledger, ByFacet(key), p);
    SumSame(w.byFacet[key].Keys, CountsOf(w.byFacet[key], m), PerSlice(ledger, ByFacet(key), p));
  }

  function OpenBeforeInstant(t: real): Choice {
    r => OpenBefore(r, t)
  }

  lemma {:induction false} CountBeforeIsCount(records: seq<RequestRecord>, t: real)
    ensures CountBefore(records, t) == CountIf(records, OpenBeforeInstant(t))
  {
    if records == [] {
    } else {
      CountBeforeIsCount(records[1..], t);
    }
  }

  /** The requests in flight at the end of a window are those of its case slices together. */
  lemma InflightConserves(ledger: Ledger, facts: LoadFacts, w: WindowStats)
    requires Assembled(ledger, facts, w)
    ensures SumOver(w.byCase.Keys, EndsOf(w.byCase)) == w.request.inflightEnd
  {
    var t := Later(w.span.start, w.span.end);
    var p := OpenBeforeInstant(t);
    SlicesConserve(ledger, ByCase, p);
    forall v <- w.byCase ensures EndsOf(w.byCase)(v) == PerSlice(ledger, ByCase, p)(v) {
      CountBeforeIsCount(Sliced(ledger, OfCase(v)), t);
    }
    SumSame(w.byCase.Keys, EndsOf(w.byCase), PerSlice(ledger, ByCase, p));
    FilterAll(ledger.requests, Labelled(ByCase));
    FilterAll(ledger.requests, Selecting(All));
    CountBeforeIsCount(ledger.requests, t);
  }

  /** A window starts with exactly what the one before it left in flight. */
  lemma WindowsHandOverInflight(ledger: Ledger, facts: LoadFacts, w: WindowStats, next: WindowStats)
    requires Assembled(ledger, facts, w) && Assembled(ledger, facts, next)
      && w.span.start <= w.span.end == next.span.start
    ensures IsPeak(ledger.requests, next.span.start, next.span.end, next.request.inflightPeak)
    ensures w.request.inflightEnd == CountBefore(ledger.requests, next.span.start) <= next.request.inflightPeak
  {
    FilterAll(ledger.requests, Selecting(All));
  }

  /** The error buckets of a window hold exactly the finished requests that did not succeed. */
  lemma ErrorsConserve(ledger: Ledger, slice: Slice, start: real, end: real, stats: RequestStats)
    requires Summarizes(ledger, slice, start, end, stats)
    ensures |stats.errorBreakdown| == CountOf(stats, FinishedM) - CountOf(stats, FinishedOkM)
  {
    BreakdownCounts(ledger, Sliced(ledger, slice), start, end);
  }
}
