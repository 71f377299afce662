/** What the statistics of a window say, told from the fields of the records it counts. */
module StatisticsLaws {
  import opened Wrappers
  import opened Records
  import opened InflightSweep
  import opened Distributions
  import opened Reduction
  import RealFacts

  // ----- How many -----

  function Where(records: seq<RequestRecord>, p: Choice): set<int> { set i | 0 <= i < |records| && p(records[i]) }

  function NumberOf(records: seq<RequestRecord>, p: Choice): nat { |Where(records, p)| }

  lemma {:induction false} CountSnoc(records: seq<RequestRecord>, r: RequestRecord, p: Choice)
    ensures CountIf(records + [r], p) == CountIf(records, p) + if p(r) then 1 else 0
  {
    if records == [] {
      assert records + [r] == [r] && [r][1..] == [];
    } else {
      assert (records + [r])[1..] == records[1..] + [r];
      CountSnoc(records[1..], r, p);
    }
  }

  lemma WhereSnoc(records: seq<RequestRecord>, r: RequestRecord, p: Choice)
    ensures Where(records + [r], p) == Where(records, p) + if p(r) then {|records|} else {}
    ensures |records| !in Where(records, p)
  {
    var longer := records + [r];
    forall i | 0 <= i < |longer| ensures longer[i] == if i < |records| then records[i] else r {
    }
  }

  lemma NumberSnoc(records: seq<RequestRecord>, r: RequestRecord, p: Choice)
    ensures NumberOf(records + [r], p) == NumberOf(records, p) + if p(r) then 1 else 0
  {
    WhereSnoc(records, r, p);
  }

  lemma {:induction false} CountIsNumber(records: seq<RequestRecord>, p: Choice)
    ensures CountIf(records, p) == NumberOf(records, p)
  {
    if records == [] {
      assert Where(records, p) == {};
    } else {
      var n := |records| - 1;
      CountIsNumber(records[..n], p);
      CountSnoc(records[..n], records[n], p);
      NumberSnoc(records[..n], records[n], p);
      assert records == records[..n] + [records[n]];
    }
  }

  /** A request of the slice: of any, of one case, or with one value of a facet. */
  predicate Belongs(slice: Slice, r: RequestRecord) {
    && (slice.OfCase? ==> r.caseId == slice.caseId)
    && (slice.OfFacet? ==> slice.key in r.facets && r.facets[slice.key] == slice.value)
  }

  predicate During(t: Option<real>, start: real, end: real) { t.Some? && start <= t.value < end }

  predicate FoundGood(ledger: Ledger, r: RequestRecord) {
    && r.operationRunId.Some? && r.operationRunId.value in ledger.evaluations
    && ledger.evaluations[r.operationRunId.value].ok
  }

  lemma SlicedCount(ledger: Ledger, slice: Slice, p: Choice, q: Choice)
    requires forall r <- ledger.requests :: q(r) <==> Belongs(slice, r) && p(r)
    ensures CountIf(Sliced(ledger, slice), p) == NumberOf(ledger.requests, q)
  {
    CountFiltered(ledger.requests, Selecting(slice), p);
    CountSame(ledger.requests, Both(Selecting(slice), p), q);
    CountIsNumber(ledger.requests, q);
  }

  /** Each count is the number of requests of the slice to which something happened in the window: due, dropped when
      due, dispatched, dispatched and since finished, the same with a good verdict, dispatched and since interrupted,
      finished, finished with a good verdict. */
  lemma CountsAre(ledger: Ledger, slice: Slice, start: real, end: real, stats: RequestStats)
    requires Summarizes(ledger, slice, start, end, stats)
    ensures forall m: Measure :: m in stats.counts
    ensures stats.counts[ArrivedM] == NumberOf(ledger.requests, DueIn(slice, start, end))
    ensures stats.counts[DroppedM] == NumberOf(ledger.requests, DroppedIn(slice, start, end))
    ensures stats.counts[DispatchedM] == NumberOf(ledger.requests, SentIn(slice, start, end))
    ensures stats.counts[FinishedM] == NumberOf(ledger.requests, FinishedIn(slice, start, end))
    ensures stats.counts[FinishedOkM]
         == NumberOf(ledger.requests, GoodIn(ledger, slice, start, end))
    ensures stats.counts[InterruptedM]
         == NumberOf(ledger.requests, InterruptedIn(slice, start, end))
    ensures stats.counts[CompletedM] == NumberOf(ledger.requests, DoneIn(slice, start, end))
    ensures stats.counts[SucceededM]
         == NumberOf(ledger.requests, SucceededIn(ledger, slice, start, end))
  {
    CountIs(ledger, slice, start, end, stats, ArrivedM, DueIn(slice, start, end));
    CountIs(ledger, slice, start, end, stats, DroppedM, DroppedIn(slice, start, end));
    CountIs(ledger, slice, start, end, stats, DispatchedM, SentIn(slice, start, end));
    CountIs(ledger, slice, start, end, stats, FinishedM, FinishedIn(slice, start, end));
    CountIs(ledger, slice, start, end, stats, FinishedOkM,
      GoodIn(ledger, slice, start, end));
    CountIs(ledger, slice, start, end, stats, InterruptedM, InterruptedIn(slice, start, end));
    CountIs(ledger, slice, start, end, stats, CompletedM, DoneIn(slice, start, end));
    CountIs(ledger, slice, start, end, stats, SucceededM,
      SucceededIn(ledger, slice, start, end));
  }

  predicate Due(slice: Slice, r: RequestRecord, start: real, end: real) {
    Belongs(slice, r) && start <= r.scheduledAt < end
  }

  predicate Sent(slice: Slice, r: RequestRecord, start: real, end: real) {
    Belongs(slice, r) && During(r.dispatchedAt, start, end)
  }

  predicate Done(slice: Slice, r: RequestRecord, start: real, end: real) {
    Belongs(slice, r) && r.state.Finished? && During(r.finishedAt, start, end)
  }

  // The same as tests of a record.

  function DueIn(slice: Slice, start: real, end: real): Choice { r => Due(slice, r, start, end) }

  function DroppedIn(slice: Slice, start: real, end: real): Choice {
    (r: RequestRecord) => Due(slice, r, start, end) && r.state.Dropped?
  }

  function LateIn(slice: Slice, start: real, end: real, x: real): Choice {
    (r: RequestRecord) => Due(slice, r, start, end) && (r.arrivedAt - r.scheduledAt) * 1000.0 <= x
  }

  function SentIn(slice: Slice, start: real, end: real): Choice { r => Sent(slice, r, start, end) }

  function FinishedIn(slice: Slice, start: real, end: real): Choice {
    (r: RequestRecord) => Sent(slice, r, start, end) && r.state.Finished?
  }

  function GoodIn(ledger: Ledger, slice: Slice, start: real, end: real): Choice {
    (r: RequestRecord) => Sent(slice, r, start, end) && r.state.Finished? && FoundGood(ledger, r)
  }

  function BucketIn(ledger: Ledger, slice: Slice, start: real, end: real, name: string): Choice {
    (r: RequestRecord) => Sent(slice, r, start, end) && r.state.Finished? && InBucket(ledger, r, name)
  }

  function InterruptedIn(slice: Slice, start: real, end: real): Choice {
    (r: RequestRecord) => Sent(slice, r, start, end) && r.state.Interrupted?
  }

  function DoneIn(slice: Slice, start: real, end: real): Choice { r => Done(slice, r, start, end) }

  function SucceededIn(ledger: Ledger, slice: Slice, start: real, end: real): Choice {
    r => Done(slice, r, start, end) && FoundGood(ledger, r)
  }

  lemma CountIs(ledger: Ledger, slice: Slice, start: real, end: real, stats: RequestStats, m: Measure, q: Choice)
    requires Summarizes(ledger, slice, start, end, stats)
    requires forall r: RequestRecord :: q(r) <==> Belongs(slice, r) && Counting(ledger, m, start, end)(r)
    ensures m in stats.counts && stats.counts[m] == NumberOf(ledger.requests, q)
  {
    SlicedCount(ledger, slice, Counting(ledger, m, start, end), q);
  }

  // ----- When there are statistics at all -----

  /** They can be had exactly if each finished request of the slice that was dispatched in the window has an
      operation run. */
  lemma RunsThere(ledger: Ledger, slice: Slice, start: real, end: real)
    ensures AllHaveRuns(ledger, Sliced(ledger, slice), start, end) <==>
      forall r <- ledger.requests | Sent(slice, r, start, end) && r.state.Finished? :: HasOperationRun(ledger, r)
  {
    forall r <- ledger.requests | Sent(slice, r, start, end) && r.state.Finished?
      ensures r in Sliced(ledger, slice) && InCohort(r, start, end)
    {
      assert Selecting(slice)(r);
    }
    forall r <- Sliced(ledger, slice) ensures r in ledger.requests && Belongs(slice, r) {
      assert Selecting(slice)(r);
    }
  }

  predicate HasOperationRun(ledger: Ledger, r: RequestRecord) {
    r.operationRunId.Some? && exists o <- ledger.operationRuns :: o.id == r.operationRunId.value
  }

  // ----- In flight -----

  /** Dispatched by `t` and not finished by then; and dispatched before `t` and not finished before. */
  function FlyingAt(slice: Slice, t: real): Choice {
    (r: RequestRecord) => Belongs(slice, r) && r.dispatchedAt.Some? && r.dispatchedAt.value <= t
                          && (r.finishedAt.None? || r.finishedAt.value > t)
  }

  function FlyingBefore(slice: Slice, t: real): Choice {
    (r: RequestRecord) => Belongs(slice, r) && r.dispatchedAt.Some? && r.dispatchedAt.value < t
                          && (r.finishedAt.None? || r.finishedAt.value >= t)
  }

  lemma BeforeIs(ledger: Ledger, slice: Slice, t: real)
    ensures CountBefore(Sliced(ledger, slice), t) == NumberOf(ledger.requests, FlyingBefore(slice, t))
  {
    CountBeforeIsCount(Sliced(ledger, slice), t);
    SlicedCount(ledger, slice, OpenBeforeInstant(t), FlyingBefore(slice, t));
  }

  function OpenAtInstant(t: real): Choice { r => OpenAt(r, t) }

  lemma {:induction false} CountAtIsCount(records: seq<RequestRecord>, t: real)
    ensures CountAt(records, t) == CountIf(records, OpenAtInstant(t))
  {
    if records == [] {
    } else {
      CountAtIsCount(records[1..], t);
    }
  }

  lemma AtIs(ledger: Ledger, slice: Slice, t: real)
    ensures CountAt(Sliced(ledger, slice), t) == NumberOf(ledger.requests, FlyingAt(slice, t))
  {
    CountAtIsCount(Sliced(ledger, slice), t);
    SlicedCount(ledger, slice, OpenAtInstant(t), FlyingAt(slice, t));
  }

  /** At the end of the window are in flight those dispatched before it and not finished before; the peak is the largest
      number just before the window or at some instant in it. */
  lemma InflightIs(ledger: Ledger, slice: Slice, start: real, end: real, stats: RequestStats)
    requires Summarizes(ledger, slice, start, end, stats)
    ensures start <= end ==> stats.inflightEnd == NumberOf(ledger.requests, FlyingBefore(slice, end))
    ensures stats.inflightPeak >= NumberOf(ledger.requests, FlyingBefore(slice, start))
    ensures forall t | start <= t < end :: stats.inflightPeak >= NumberOf(ledger.requests, FlyingAt(slice, t))
    ensures stats.inflightPeak == NumberOf(ledger.requests, FlyingBefore(slice, start))
         || exists t :: start <= t < end && stats.inflightPeak == NumberOf(ledger.requests, FlyingAt(slice, t))
  {
    BeforeIs(ledger, slice, start);
    BeforeIs(ledger, slice, end);
    forall t: real ensures CountAt(Sliced(ledger, slice), t) == NumberOf(ledger.requests, FlyingAt(slice, t)) {
      AtIs(ledger, slice, t);
    }
  }

  // ----- Rates -----

  /** So many in the window, whose length counts as a nanosecond if it is shorter. */
  ghost predicate IsRate(rate: real, n: nat, start: real, end: real) {
    Amounts(rate, if end - start > 0.000000001 then end - start else 0.000000001, n)
  }

  /** At that rate it comes to `n` in so many seconds. */
  ghost predicate Amounts(rate: real, seconds: real, n: nat) { rate * seconds == n as real }

  lemma PerSecondIsRate(n: nat, start: real, end: real)
    ensures IsRate(PerSecond(n, start, end), n, start, end)
  {
    RealFacts.DivideBack(n as real, if end - start > SHORTEST then end - start else SHORTEST);
  }

  /** The rates are of requests finished, due, dispatched, and finished with a good verdict in the window, for the time
      it lasts. */
  lemma RatesAre(ledger: Ledger, facts: LoadFacts, slice: Slice, start: real, end: real, stats: RequestStats)
    requires Summarizes(ledger, slice, start, end, stats) && Derives(ledger, facts, slice, start, end, stats)
    ensures var rates := stats.derived.rates;
      && IsRate(rates.throughput, NumberOf(ledger.requests, DoneIn(slice, start, end)), start, end)
      && IsRate(rates.arrival, NumberOf(ledger.requests, DueIn(slice, start, end)), start, end)
      && IsRate(rates.dispatch, NumberOf(ledger.requests, SentIn(slice, start, end)), start, end)
      && IsRate(rates.success, NumberOf(ledger.requests, SucceededIn(ledger, slice, start, end)), start, end)
  {
    CountsAre(ledger, slice, start, end, stats);
    RatesOfCounts(ledger, facts, slice, start, end, stats);
  }

  /** The error rate is the part without a good verdict of the requests dispatched in the window and finished. */
  lemma ErrorRateIs(ledger: Ledger, facts: LoadFacts, slice: Slice, start: real, end: real, stats: RequestStats)
    requires Summarizes(ledger, slice, start, end, stats) && Derives(ledger, facts, slice, start, end, stats)
    ensures var n, good := NumberOf(ledger.requests, FinishedIn(slice, start, end)),
                           NumberOf(ledger.requests, GoodIn(ledger, slice, start, end));
      good <= n && IsShare(stats.derived.rates.error, n - good, n)
  {
    CountsAre(ledger, slice, start, end, stats);
    OkWithinFinished(ledger, slice, start, end, stats);
    RatesDerived(ledger, facts, slice, start, end, stats);
    ErrorFits(stats.derived.rates, stats.counts, start, end);
  }

  lemma OkWithinFinished(ledger: Ledger, slice: Slice, start: real, end: real, stats: RequestStats)
    requires Summarizes(ledger, slice, start, end, stats)
    ensures stats.counts[FinishedOkM] <= stats.counts[FinishedM]
  {
    SummaryCounts(ledger, slice, start, end, stats);
  }

  lemma RatesDerived(ledger: Ledger, facts: LoadFacts, slice: Slice, start: real, end: real, stats: RequestStats)
    requires Derives(ledger, facts, slice, start, end, stats)
    ensures stats.derived.rates == RatesOf(stats.counts, start, end)
  {
  }

  lemma ErrorFits(rates: Rates, counts: map<Measure, nat>, start: real, end: real)
    requires rates == RatesOf(counts, start, end) && FinishedM in counts && FinishedOkM in counts
    requires counts[FinishedOkM] <= counts[FinishedM]
    ensures IsShare(rates.error, counts[FinishedM] - counts[FinishedOkM], counts[FinishedM])
  {
    ShareIs(counts[FinishedM] - counts[FinishedOkM], counts[FinishedM]);
  }

  /** `n` times over. */
  function Repeated(x: real, n: nat): real { if n == 0 then 0.0 else Repeated(x, n - 1) + x }

  lemma {:induction false} RepeatedTimes(x: real, n: nat)
    ensures Repeated(x, n) == ShareTimes(x, n)
  {
    if n == 0 {
    } else {
      RepeatedTimes(x, n - 1);
      RealFacts.Distribute(x, (n - 1) as real, 1.0);
    }
  }

  /** `a` out of `n`, and zero out of none. */
  ghost predicate IsShare(share: real, a: nat, n: nat) {
    Repeated(share, n) == a as real && (n == 0 ==> share == 0.0)
  }

  lemma ShareIs(a: nat, n: nat)
    requires a <= n
    ensures IsShare(ShareOf(a, n), a, n)
  {
    ShareWithin(a, n);
    RepeatedTimes(ShareOf(a, n), n);
  }

  lemma RatesOfCounts(ledger: Ledger, facts: LoadFacts, slice: Slice, start: real, end: real, stats: RequestStats)
    requires Summarizes(ledger, slice, start, end, stats) && Derives(ledger, facts, slice, start, end, stats)
    ensures var rates, counts := stats.derived.rates, stats.counts;
      && IsRate(rates.throughput, counts[CompletedM], start, end) && IsRate(rates.arrival, counts[ArrivedM], start, end)
      && IsRate(rates.dispatch, counts[DispatchedM], start, end)
         && IsRate(rates.success, counts[SucceededM], start, end)
  {
    assert stats.derived.rates == RatesOf(stats.counts, start, end);
    PerSecondIsRate(stats.counts[CompletedM], start, end);
    PerSecondIsRate(stats.counts[ArrivedM], start, end);
    PerSecondIsRate(stats.counts[DispatchedM], start, end);
    PerSecondIsRate(stats.counts[SucceededM], start, end);
  }

  // ----- Error buckets -----

  /** The bucket of a request whose verdict is missing or bad. */
  predicate InBucket(ledger: Ledger, r: RequestRecord, name: string) {
    if r.operationRunId.None? || r.operationRunId.value !in ledger.evaluations then name == "unjudged"
    else
      var e := ledger.evaluations[r.operationRunId.value];
      !e.ok && name == if e.errorKind.None? || e.errorKind == Some("") then "unknown" else e.errorKind.value
  }

  lemma BucketHolds(ledger: Ledger, r: RequestRecord, start: real, end: real, name: string)
    ensures Bucket(ledger, r, start, end)[name] == if InCohort(r, start, end) && InBucket(ledger, r, name) then 1 else 0
  {
  }

  lemma {:induction false} BreakdownCountsEach(ledger: Ledger, records: seq<RequestRecord>, start: real, end: real,
                                               name: string, p: Choice)
    requires forall r <- records :: p(r) <==> InCohort(r, start, end) && InBucket(ledger, r, name)
    ensures Breakdown(ledger, records, start, end)[name] == CountIf(records, p)
  {
    if records == [] {
    } else {
      var rest := Breakdown(ledger, records[1..], start, end);
      BreakdownCountsEach(ledger, records[1..], start, end, name, p);
      BucketHolds(ledger, records[0], start, end, name);
      assert p(records[0]) <==> InCohort(records[0], start, end) && InBucket(ledger, records[0], name);
      assert Breakdown(ledger, records, start, end) == Bucket(ledger, records[0], start, end) + rest;
    }
  }

  /** Each bucket holds the finished requests of the slice that were dispatched in the window and belong in it. */
  lemma BucketsAre(ledger: Ledger, slice: Slice, start: real, end: real, stats: RequestStats, name: string)
    requires Summarizes(ledger, slice, start, end, stats)
    ensures stats.errorBreakdown[name]
         == NumberOf(ledger.requests,
                     BucketIn(ledger, slice, start, end, name))
  {
    var p: Choice := (r: RequestRecord) => InCohort(r, start, end) && InBucket(ledger, r, name);
    BreakdownCountsEach(ledger, Sliced(ledger, slice), start, end, name, p);
    SlicedCount(ledger, slice, p, BucketIn(ledger, slice, start, end, name));
  }

  // ----- Caveats -----

  /** The load was held back, by its own kind or in a window that meets this one. */
  ghost predicate Biasing(facts: LoadFacts, start: real, end: real) {
    facts.saturated || exists w <- facts.windows :: w.limitedS > 0.0 && w.start < end && start < w.end
  }

  ghost predicate NeverJudged(ledger: Ledger, slice: Slice, start: real, end: real) {
    exists r <- ledger.requests :: LeftUnjudged(ledger, slice, start, end, r)
  }

  ghost predicate LeftUnjudged(ledger: Ledger, slice: Slice, start: real, end: real, r: RequestRecord) {
    && Sent(slice, r, start, end) && r.state.Finished?
    && (r.operationRunId.None? || r.operationRunId.value !in ledger.evaluations)
  }

  /** A result is biased if the load was saturated or held back in a window that meets this one, tells of drops if
      there were any, is incomplete if something was interrupted or never judged, and thin below thirty requests. */
  lemma CaveatsAre(ledger: Ledger, facts: LoadFacts, slice: Slice, start: real, end: real, stats: RequestStats)
    requires Summarizes(ledger, slice, start, end, stats) && Derives(ledger, facts, slice, start, end, stats)
    ensures var caveats, n := stats.derived.caveats, NumberOf(ledger.requests, FinishedIn(slice, start, end));
      && (CoBiased in caveats <==> n > 0 && Biasing(facts, start, end))
      && (HighDrop in caveats <==> NumberOf(ledger.requests, DroppedIn(slice, start, end)) > 0)
      && (Incomplete in caveats <==>
            NumberOf(ledger.requests, InterruptedIn(slice, start, end)) > 0 || NeverJudged(ledger, slice, start, end))
      && (FewSamples in caveats <==> n < 30)
  {
    CountsAre(ledger, slice, start, end, stats);
    CaveatsOfCounts(ledger, facts, slice, start, end, stats);
    UnjudgedMeans(ledger, slice, start, end);
  }

  lemma CaveatsOfCounts(ledger: Ledger, facts: LoadFacts, slice: Slice, start: real, end: real, stats: RequestStats)
    requires Summarizes(ledger, slice, start, end, stats) && Derives(ledger, facts, slice, start, end, stats)
    ensures var caveats, counts := stats.derived.caveats, stats.counts;
      && (CoBiased in caveats <==> counts[FinishedM] > 0 && Biasing(facts, start, end))
      && (HighDrop in caveats <==> counts[DroppedM] > 0)
      && (Incomplete in caveats <==>
            counts[InterruptedM] > 0 || SomeUnjudged(ledger, Sliced(ledger, slice), start, end))
      && (FewSamples in caveats <==> counts[FinishedM] < 30)
  {
    var unjudged := SomeUnjudged(ledger, Sliced(ledger, slice), start, end);
    assert stats.derived.caveats == CaveatsOf(facts, stats.counts, unjudged, start, end);
    CaveatsMean(facts, stats.counts, unjudged, start, end);
  }

  lemma CaveatsMean(facts: LoadFacts, counts: map<Measure, nat>, unjudged: bool, start: real, end: real)
    requires forall m: Measure :: m in counts
    ensures var caveats := CaveatsOf(facts, counts, unjudged, start, end);
      && (CoBiased in caveats <==> counts[FinishedM] > 0 && Biasing(facts, start, end))
      && (HighDrop in caveats <==> counts[DroppedM] > 0)
      && (Incomplete in caveats <==> counts[InterruptedM] > 0 || unjudged)
      && (FewSamples in caveats <==> counts[FinishedM] < 30)
  {
    BiasingMeans(facts, start, end);
  }

  lemma BiasingMeans(facts: LoadFacts, start: real, end: real)
    ensures Biasing(facts, start, end) <==> facts.saturated || HeldBack(facts, start, end)
  {
  }

  lemma UnjudgedMeans(ledger: Ledger, slice: Slice, start: real, end: real)
    ensures SomeUnjudged(ledger, Sliced(ledger, slice), start, end) <==> NeverJudged(ledger, slice, start, end)
  {
    if r :| r in ledger.requests && LeftUnjudged(ledger, slice, start, end, r) {
      assert Selecting(slice)(r) && r in Sliced(ledger, slice);
    }
    if r :| r in Sliced(ledger, slice) && InCohort(r, start, end) && ledger.Verdict(r).None? {
      assert Selecting(slice)(r) && r in ledger.requests && LeftUnjudged(ledger, slice, start, end, r);
    }
  }

  // ----- Latency and other distributions -----

  /** The last operation run of the request. */
  ghost predicate RanAs(ledger: Ledger, r: RequestRecord, o: Outcome) {
    exists j | 0 <= j < |ledger.operationRuns| ::
      LastRun(ledger.operationRuns, r, j) && ledger.operationRuns[j].outcome == o
  }

  ghost predicate LastRun(runs: seq<OperationRun>, r: RequestRecord, j: nat)
    requires j < |runs|
  {
    && r.operationRunId == Some(runs[j].id) && forall k | j < k < |runs| :: runs[k].id != runs[j].id
  }

  lemma {:induction false} RunOfIsLast(runs: seq<OperationRun>, id: string)
    ensures RunOf(runs, id).Some? ==>
      exists j | 0 <= j < |runs| ::
        runs[j] == RunOf(runs, id).value && runs[j].id == id && forall k | j < k < |runs| :: runs[k].id != id
    ensures RunOf(runs, id).None? ==> forall j | 0 <= j < |runs| :: runs[j].id != id
  {
    if runs == [] {
    } else {
      var n := |runs| - 1;
      RunOfIsLast(runs[..n], id);
      assert forall k | 0 <= k < n :: runs[..n][k] == runs[k];
      if runs[n].id != id && RunOf(runs[..n], id).Some? {
        var j :| 0 <= j < n && runs[..n][j] == RunOf(runs[..n], id).value && runs[..n][j].id == id
                 && forall k | j < k < n :: runs[..n][k].id != id;
        assert runs[j] == RunOf(runs, id).value;
      }
    }
  }

  lemma OutcomeIsLast(ledger: Ledger, r: RequestRecord, o: Outcome)
    ensures OutcomeOf(ledger, r) == Some(o) <==> RanAs(ledger, r, o)
  {
    if r.operationRunId.Some? {
      var id, runs := r.operationRunId.value, ledger.operationRuns;
      RunOfIsLast(runs, id);
      if RanAs(ledger, r, o) {
        var j :| 0 <= j < |runs| && LastRun(runs, r, j) && runs[j].outcome == o;
        var i :| 0 <= i < |runs| && runs[i] == RunOf(runs, id).value && runs[i].id == id
                 && forall k | i < k < |runs| :: runs[k].id != id;
        assert i == j;
      }
      if OutcomeOf(ledger, r) == Some(o) {
        var i :| 0 <= i < |runs| && runs[i] == RunOf(runs, id).value && runs[i].id == id
                 && forall k | i < k < |runs| :: runs[k].id != id;
        assert LastRun(runs, r, i);
      }
    }
  }

  type Test = Outcome -> bool

  function AnyRun(): Test { o => true }
  function TookAtMost(x: real): Test { (o: Outcome) => o.durationMs <= x }
  function HasMetric(key: string): Test { (o: Outcome) => key in o.metrics }
  function MetricAtMost(key: string, x: real): Test { (o: Outcome) => key in o.metrics && o.metrics[key] <= x }

  /** How many outcomes are so. */
  function CountOutcomes(outcomes: seq<Outcome>, q: Test): nat {
    if outcomes == [] then 0 else (if q(outcomes[0]) then 1 else 0) + CountOutcomes(outcomes[1..], q)
  }

  lemma {:induction false} OutcomesCounted(ledger: Ledger, records: seq<RequestRecord>, start: real, end: real,
                                           q: Test, p: Choice)
    requires forall r <- records :: p(r) <==>
      InCohort(r, start, end) && OutcomeOf(ledger, r).Some? && q(OutcomeOf(ledger, r).value)
    ensures CountOutcomes(Outcomes(ledger, records, start, end), q) == CountIf(records, p)
  {
    if records == [] {
    } else {
      OutcomesCounted(ledger, records[1..], start, end, q, p);
      var rest := Outcomes(ledger, records[1..], start, end);
      if InCohort(records[0], start, end) && OutcomeOf(ledger, records[0]).Some? {
        var o := OutcomeOf(ledger, records[0]).value;
        assert Outcomes(ledger, records, start, end) == [o] + rest && ([o] + rest)[1..] == rest;
      } else {
        assert Outcomes(ledger, records, start, end) == rest;
      }
    }
  }

  lemma {:induction false} DurationsCounted(outcomes: seq<Outcome>, x: real)
    ensures AtMost(Durations(outcomes), x) == CountOutcomes(outcomes, TookAtMost(x))
  {
    if outcomes == [] {
    } else {
      DurationsCounted(outcomes[1..], x);
      assert Durations(outcomes)[1..] == Durations(outcomes[1..]);
    }
  }

  lemma {:induction false} ValuesCounted(outcomes: seq<Outcome>, key: string, x: real)
    ensures AtMost(MetricValues(outcomes, key), x)
         == CountOutcomes(outcomes, MetricAtMost(key, x))
    ensures |MetricValues(outcomes, key)| == CountOutcomes(outcomes, HasMetric(key))
  {
    if outcomes == [] {
    } else {
      ValuesCounted(outcomes[1..], key, x);
      var rest := MetricValues(outcomes[1..], key);
      if key in outcomes[0].metrics {
        assert MetricValues(outcomes, key) == [outcomes[0].metrics[key]] + rest
            && ([outcomes[0].metrics[key]] + rest)[1..] == rest;
      } else {
        assert MetricValues(outcomes, key) == rest;
      }
    }
  }

  lemma {:induction false} LagsCounted(records: seq<RequestRecord>, start: real, end: real, x: real, p: Choice,
                                       q: Choice)
    requires forall r <- records :: p(r) <==> start <= r.scheduledAt < end
    requires forall r <- records :: q(r) <==> p(r) && (r.arrivedAt - r.scheduledAt) * 1000.0 <= x
    ensures AtMost(Lags(records, start, end), x) == CountIf(records, q)
      && |Lags(records, start, end)| == CountIf(records, p)
  {
    if records == [] {
    } else {
      LagsCounted(records[1..], start, end, x, p, q);
      var rest := Lags(records[1..], start, end);
      if start <= records[0].scheduledAt < end {
        var lag := (records[0].arrivedAt - records[0].scheduledAt) * 1000.0;
        assert Lags(records, start, end) == [lag] + rest && ([lag] + rest)[1..] == rest;
      } else {
        assert Lags(records, start, end) == rest;
      }
    }
  }

  /** A finished request of the slice, dispatched in the window, that ran so. */
  ghost predicate Ran(ledger: Ledger, slice: Slice, r: RequestRecord, start: real, end: real, q: Test) {
    Sent(slice, r, start, end) && r.state.Finished? && exists o :: RanAs(ledger, r, o) && q(o)
  }

  lemma RanCounted(ledger: Ledger, slice: Slice, start: real, end: real, q: Test)
    ensures CountOutcomes(Outcomes(ledger, Sliced(ledger, slice), start, end), q)
         == NumberRan(ledger, slice, start, end, q)
  {
    var p: Choice := (r: RequestRecord) =>
      InCohort(r, start, end) && OutcomeOf(ledger, r).Some? && q(OutcomeOf(ledger, r).value);
    var whole: Choice := (r: RequestRecord) => Belongs(slice, r) && p(r);
    OutcomesCounted(ledger, Sliced(ledger, slice), start, end, q, p);
    SlicedCount(ledger, slice, p, whole);
    forall r: RequestRecord ensures whole(r) <==> Ran(ledger, slice, r, start, end, q) {
      RanMeans(ledger, slice, r, start, end, q);
    }
    assert (set i | 0 <= i < |ledger.requests| && whole(ledger.requests[i]))
        == set i | 0 <= i < |ledger.requests| && Ran(ledger, slice, ledger.requests[i], start, end, q);
  }

  lemma RanMeans(ledger: Ledger, slice: Slice, r: RequestRecord, start: real, end: real, q: Test)
    ensures Ran(ledger, slice, r, start, end, q) <==>
      Belongs(slice, r) && InCohort(r, start, end) && OutcomeOf(ledger, r).Some? && q(OutcomeOf(ledger, r).value)
  {
    if OutcomeOf(ledger, r).Some? { OutcomeIsLast(ledger, r, OutcomeOf(ledger, r).value); }
    if o :| RanAs(ledger, r, o) && q(o) { OutcomeIsLast(ledger, r, o); }
  }

  /** The number of finished requests of the slice, dispatched in the window, that ran so. */
  ghost function NumberRan(ledger: Ledger, slice: Slice, start: real, end: real, q: Test): nat {
    |set i | 0 <= i < |ledger.requests| && Ran(ledger, slice, ledger.requests[i], start, end, q)|
  }

  /** `d` has the mean and the nearest-rank percentiles of the numbers. */
  ghost predicate Describes(d: Distribution, xs: seq<real>) {
    && d.n == |xs| && xs != [] && Repeated(d.mean, |xs|) == Sum(xs)
    && IsNearestRank(xs, 0.5, d.p50) && IsNearestRank(xs, 0.95, d.p95) && IsNearestRank(xs, 0.99, d.p99)
  }

  lemma MeanRepeats(xs: seq<real>)
    requires xs != []
    ensures Repeated(Mean(xs), |xs|) == Sum(xs)
  {
    RepeatedTimes(Mean(xs), |xs|);
    RealFacts.DivideBack(Sum(xs), |xs| as real);
  }

  lemma DistributionDescribes(xs: seq<real>)
    requires xs != []
    ensures Describes(DistributionOf(xs), xs)
  {
    DistributionIsRight(xs);
    MeanRepeats(xs);
  }

  /** A sum of numbers, whatever they are grouped into. */
  lemma {:induction false} SumsAdd(xs: seq<real>, ys: seq<real>)
    ensures Sum([]) == 0.0 && Sum(xs + ys) == Sum(xs) + Sum(ys)
    ensures forall x :: Sum([x]) == x
  {
    assert forall x: real :: [x][1..] == [];
    if xs == [] {
      assert xs + ys == ys;
    } else {
      assert (xs + ys)[1..] == xs[1..] + ys;
      SumsAdd(xs[1..], ys);
    }
  }

  /** The latency is the distribution of the durations of the runs of the finished requests dispatched in the window. */
  lemma LatencyIs(ledger: Ledger, facts: LoadFacts, slice: Slice, start: real, end: real, stats: RequestStats)
    returns (durations: seq<real>)
    requires Summarizes(ledger, slice, start, end, stats) && Derives(ledger, facts, slice, start, end, stats)
    ensures |durations| == NumberRan(ledger, slice, start, end, AnyRun())
    ensures forall x :: AtMost(durations, x) == NumberRan(ledger, slice, start, end, TookAtMost(x))
    ensures durations != [] ==> Describes(stats.derived.latency, durations)
    ensures durations == [] ==> stats.derived.latency == Distribution(0, 0.0, 0.0, 0.0, 0.0)
  {
    var outcomes := Outcomes(ledger, Sliced(ledger, slice), start, end);
    durations := Durations(outcomes);
    AllCounted(outcomes);
    RanCounted(ledger, slice, start, end, AnyRun());
    forall x ensures AtMost(durations, x) == NumberRan(ledger, slice, start, end, TookAtMost(x)) {
      DurationsCounted(outcomes, x);
      RanCounted(ledger, slice, start, end, TookAtMost(x));
    }
    if durations != [] { DistributionDescribes(durations); }
  }

  lemma {:induction false} AllCounted(outcomes: seq<Outcome>)
    ensures CountOutcomes(outcomes, AnyRun()) == |outcomes|
  {
    if outcomes == [] {
    } else {
      AllCounted(outcomes[1..]);
    }
  }

  /** Every other number the runs measured has the distribution of its values, where there are any. */
  lemma MetricIs(ledger: Ledger, facts: LoadFacts, slice: Slice, start: real, end: real, stats: RequestStats,
                 key: string)
    returns (values: seq<real>)
    requires Summarizes(ledger, slice, start, end, stats) && Derives(ledger, facts, slice, start, end, stats)
    requires key != "scheduler_lag_ms"
    ensures |values| == NumberRan(ledger, slice, start, end, HasMetric(key))
    ensures forall x ::
      AtMost(values, x) == NumberRan(ledger, slice, start, end, MetricAtMost(key, x))
    ensures key in stats.derived.metrics <==> values != []
    ensures key in stats.derived.metrics ==> Describes(stats.derived.metrics[key], values)
  {
    var records := Sliced(ledger, slice);
    var outcomes := Outcomes(ledger, records, start, end);
    values := MetricValues(outcomes, key);
    assert stats.derived.metrics == MetricsOf(outcomes, Lags(records, start, end));
    ValuesCounted(outcomes, key, 0.0);
    RanCounted(ledger, slice, start, end, HasMetric(key));
    forall x ensures AtMost(values, x)
                  == NumberRan(ledger, slice, start, end, MetricAtMost(key, x)) {
      ValuesCounted(outcomes, key, x);
      RanCounted(ledger, slice, start, end, MetricAtMost(key, x));
    }
    HasValues(outcomes, key);
    if values != [] { DistributionDescribes(values); }
  }

  lemma {:induction false} HasValues(outcomes: seq<Outcome>, key: string)
    ensures key in MetricKeys(outcomes) <==> MetricValues(outcomes, key) != []
  {
    if outcomes == [] {
    } else {
      HasValues(outcomes[1..], key);
      assert outcomes == [outcomes[0]] + outcomes[1..];
    }
  }

  /** The scheduler's lag is the distribution of how late, in milliseconds, each request due in the window arrived. */
  lemma LagIs(ledger: Ledger, facts: LoadFacts, slice: Slice, start: real, end: real, stats: RequestStats)
    returns (lags: seq<real>)
    requires Summarizes(ledger, slice, start, end, stats) && Derives(ledger, facts, slice, start, end, stats)
    ensures |lags| == NumberOf(ledger.requests, DueIn(slice, start, end))
    ensures forall x ::
      AtMost(lags, x)
      == NumberOf(ledger.requests, LateIn(slice, start, end, x))
    ensures "scheduler_lag_ms" in stats.derived.metrics <==> lags != []
    ensures lags != [] ==> Describes(stats.derived.metrics["scheduler_lag_ms"], lags)
  {
    var records := Sliced(ledger, slice);
    lags := Lags(records, start, end);
    assert stats.derived.metrics == MetricsOf(Outcomes(ledger, records, start, end), lags);
    LagCounted(ledger, slice, start, end, 0.0);
    forall x ensures AtMost(lags, x)
                  == NumberOf(ledger.requests,
                              LateIn(slice, start, end, x)) {
      LagCounted(ledger, slice, start, end, x);
    }
    if lags != [] { DistributionDescribes(lags); }
  }

  lemma LagCounted(ledger: Ledger, slice: Slice, start: real, end: real, x: real)
    ensures var lags := Lags(Sliced(ledger, slice), start, end);
      && |lags| == NumberOf(ledger.requests, DueIn(slice, start, end))
      && AtMost(lags, x)
         == NumberOf(ledger.requests, LateIn(slice, start, end, x))
  {
    var p: Choice := (r: RequestRecord) => start <= r.scheduledAt < end;
    var q: Choice := (r: RequestRecord) => start <= r.scheduledAt < end && (r.arrivedAt - r.scheduledAt) * 1000.0 <= x;
    LagsCounted(Sliced(ledger, slice), start, end, x, p, q);
    SlicedCount(ledger, slice, p, DueIn(slice, start, end));
    SlicedCount(ledger, slice, q, LateIn(slice, start, end, x));
  }

  // ----- Which slices a window has -----

  /** A window has a slice for each case and for each value of each facet that any request has, and no other. */
  lemma SlicesThereAre(ledger: Ledger, facts: LoadFacts, w: WindowStats)
    requires Assembled(ledger, facts, w)
    ensures Summarizes(ledger, All, w.span.start, w.span.end, w.request)
    ensures forall id :: id in w.byCase <==> exists r <- ledger.requests :: r.caseId == id
    ensures forall id <- w.byCase :: Summarizes(ledger, OfCase(id), w.span.start, w.span.end, w.byCase[id])
    ensures forall key :: key in w.byFacet <==> exists r <- ledger.requests :: key in r.facets
    ensures forall key <- w.byFacet, value ::
      value in w.byFacet[key] <==> exists r <- ledger.requests :: key in r.facets && r.facets[key] == value
    ensures forall key <- w.byFacet, value <- w.byFacet[key] ::
      Summarizes(ledger, OfFacet(key, value), w.span.start, w.span.end, w.byFacet[key][value])
  {
    forall id ensures id in w.byCase <==> exists r <- ledger.requests :: r.caseId == id {
      if r :| r in ledger.requests && r.caseId == id { assert Label(ByCase, r) == Some(id); }
    }
    forall id <- w.byCase ensures Summarizes(ledger, OfCase(id), w.span.start, w.span.end, w.byCase[id]) {
      assert Reduced(ledger, facts, SliceFor(ByCase, id), w.span, w.byCase[id]);
    }
    forall key <- w.byFacet
      ensures forall value ::
        value in w.byFacet[key] <==> exists r <- ledger.requests :: key in r.facets && r.facets[key] == value
      ensures forall value <- w.byFacet[key] ::
        Summarizes(ledger, OfFacet(key, value), w.span.start, w.span.end, w.byFacet[key][value])
    {
      FacetSlices(ledger, facts, w.span, key, w.byFacet[key]);
    }
  }

  lemma FacetSlices(ledger: Ledger, facts: LoadFacts, span: Span, key: string, slices: map<string, RequestStats>)
    requires SlicesAre(ledger, facts, ByFacet(key), span, slices)
    ensures forall value ::
      value in slices <==> exists r <- ledger.requests :: key in r.facets && r.facets[key] == value
    ensures forall value <- slices :: Summarizes(ledger, OfFacet(key, value), span.start, span.end, slices[value])
  {
    forall value ensures value in slices <==> exists r <- ledger.requests :: key in r.facets && r.facets[key] == value {
      FacetValue(ledger, key, value);
    }
    forall value <- slices ensures Summarizes(ledger, OfFacet(key, value), span.start, span.end, slices[value]) {
      assert Reduced(ledger, facts, SliceFor(ByFacet(key), value), span, slices[value]);
    }
  }

  lemma FacetValue(ledger: Ledger, key: string, value: string)
    ensures value in Labels(ByFacet(key), ledger.requests) <==>
      exists r <- ledger.requests :: key in r.facets && r.facets[key] == value
  {
    if r :| r in ledger.requests && key in r.facets && r.facets[key] == value {
      assert Label(ByFacet(key), r) == Some(value);
    }
  }
}
