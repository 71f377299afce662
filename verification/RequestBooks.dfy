/** The books a load run keeps: a record per request, an operation run per ended request, a verdict
    per judged one, and the counters that must agree with them. */
module RequestBooks {
  import opened Wrappers
  import opened Records
  import opened Reduction
  import opened InflightSweep

  /** What became of a finished request: judged, or the judge itself failed. */
  datatype Judgement = Judged(evaluation: Evaluation) | JudgeFailed

  /** `active` holds the requests whose fire has not been settled, `failures` those whose judge failed. */
  datatype Books = Books(
    run: string, ledger: Ledger, inflight: int, sent: int, completed: int, errors: int,
    failures: seq<nat>, active: set<nat>)

  // ----- Request ids -----

  function Decimal(n: nat): (s: string)
    ensures |s| > 0 && forall c <- s :: '0' <= c <= '9'
  {
    if n < 10 then [Digit(n)] else Decimal(n / 10) + [Digit(n % 10)]
  }

  function Digit(d: nat): (c: char)
    requires d < 10
    ensures '0' <= c <= '9'
  {
    "0123456789"[d]
  }

  lemma {:induction false} DecimalInjective(m: nat, n: nat)
    requires Decimal(m) == Decimal(n)
    ensures m == n
  {
    if m < 10 || n < 10 {
    } else {
      var a, b := Decimal(m / 10), Decimal(n / 10);
      assert (a + [Digit(m % 10)])[..|a|] == a && (b + [Digit(n % 10)])[..|b|] == b;
      assert Digit(m % 10) == (a + [Digit(m % 10)])[|a|] && Digit(n % 10) == (b + [Digit(n % 10)])[|b|];
      DecimalInjective(m / 10, n / 10);
    }
  }

  function RequestId(run: string, n: nat): string { run + ":" + Decimal(n) }

  lemma RequestIdInjective(run: string, m: nat, n: nat)
    requires RequestId(run, m) == RequestId(run, n)
    ensures m == n
  {
    var k := |run + ":"|;
    assert RequestId(run, m)[k..] == Decimal(m) && RequestId(run, n)[k..] == Decimal(n);
    DecimalInjective(m, n);
  }

  // ----- What happens to the books -----

  predicate Open(r: RequestRecord) { r.state.Arrived? || r.state.Dispatched? }

  function IsOpen(): Choice { r => Open(r) }
  function IsFinished(): Choice { (r: RequestRecord) => r.state.Finished? }
  function IsInterrupted(): Choice { (r: RequestRecord) => r.state.Interrupted? }

  function NewRecord(id: string, scheduled: real, arrived: real, caseId: string,
                     facets: map<string, string>): RequestRecord {
    RequestRecord(id, caseId, scheduled, arrived, None, None, RequestState.Arrived, None, None, facets)
  }

  function Admitted(b: Books, scheduled: real, arrived: real, caseId: string, facets: map<string, string>): Books {
    var n := |b.ledger.requests|;
    var record := NewRecord(RequestId(b.run, n), scheduled, arrived, caseId, facets);
    b.(ledger := b.ledger.(requests := b.ledger.requests + [record]),
       inflight := b.inflight + 1, sent := b.sent + 1, active := b.active + {n})
  }

  function WithRecord(b: Books, k: nat, r: RequestRecord): Books
    requires k < |b.ledger.requests|
  {
    b.(ledger := b.ledger.(requests := b.ledger.requests[k := r]))
  }

  function StartRecord(r: RequestRecord, at: real): RequestRecord {
    r.(dispatchedAt := Some(at), state := RequestState.Dispatched, operationRunId := Some(r.id))
  }

  function Started(b: Books, k: nat, at: real): Books
    requires k < |b.ledger.requests|
  {
    WithRecord(b, k, StartRecord(b.ledger.requests[k], at))
  }

  /** The slot is given back and the call is on record. */
  function Closed(b: Books, k: nat, r: RequestRecord, outcome: Outcome): Books
    requires k < |b.ledger.requests|
  {
    var c := WithRecord(b, k, r);
    c.(inflight := c.inflight - 1,
      ledger := c.ledger.(operationRuns := c.ledger.operationRuns + [OperationRun(r.id, outcome)]))
  }

  function StopRecord(r: RequestRecord, at: real): RequestRecord {
    r.(finishedAt := Some(at), state := RequestState.Interrupted, reason := Some("cancelled"))
  }

  function Stopped(b: Books, k: nat, at: real, outcome: Outcome): Books
    requires k < |b.ledger.requests|
  {
    Closed(b, k, StopRecord(b.ledger.requests[k], at), outcome)
  }

  function FinishRecord(r: RequestRecord, at: real, facets: map<string, string>): RequestRecord {
    r.(finishedAt := Some(at), state := RequestState.Finished, facets := r.facets + facets)
  }

  function Ended(b: Books, k: nat, at: real, outcome: Outcome, facets: map<string, string>, j: Judgement): Books
    requires k < |b.ledger.requests|
  {
    Noted(Closed(b, k, FinishRecord(b.ledger.requests[k], at, facets), outcome), k, j)
  }

  /** Enter the verdict on a finished request, or the judge's failure. */
  function Noted(b: Books, k: nat, j: Judgement): Books
    requires k < |b.ledger.requests|
  {
    match j
    case JudgeFailed => b.(failures := b.failures + [k])
    case Judged(e) =>
      b.(ledger := b.ledger.(evaluations := b.ledger.evaluations[b.ledger.requests[k].id := e]),
         completed := b.completed + 1, errors := b.errors + if e.ok then 0 else 1)
  }

  function Settled(b: Books, k: nat): Books {
    b.(active := b.active - {k})
  }

  // ----- What the books keep -----

  /** A record's times and fields fit its state. */
  ghost predicate Timely(r: RequestRecord, clock: real) {
    && 0.0 <= r.scheduledAt <= r.arrivedAt <= clock
    && r.reason == (if r.state.Interrupted? then Some("cancelled") else None)
    && match r.state
       case Arrived => r.dispatchedAt.None? && r.finishedAt.None?
       case Dispatched => r.dispatchedAt.Some? && r.finishedAt.None? && r.arrivedAt <= r.dispatchedAt.value <= clock
                          && r.operationRunId == Some(r.id)
       case Dropped => false
       case _ => r.dispatchedAt.Some? && r.finishedAt.Some? && r.operationRunId == Some(r.id)
                 && r.arrivedAt <= r.dispatchedAt.value <= r.finishedAt.value <= clock
  }

  function RunIds(runs: seq<OperationRun>): multiset<string> {
    if runs == [] then multiset{} else RunIds(runs[..|runs| - 1]) + multiset{runs[|runs| - 1].id}
  }

  function FailedIds(evaluations: map<string, Evaluation>): set<string> {
    set id <- evaluations | !evaluations[id].ok
  }

  /** The entries about request `k`: one operation run once it has ended, and a verdict or a judge's
      failure, not both, once it has finished. */
  ghost predicate Entered(b: Books, k: nat, clock: real)
    requires k < |b.ledger.requests|
  {
    var r := b.ledger.requests[k];
    && r.id == RequestId(b.run, k) && Timely(r, clock)
    && RunIds(b.ledger.operationRuns)[r.id] == (if Open(r) then 0 else 1)
    && (Open(r) ==> k in b.active)
    && (r.id in b.ledger.evaluations || k in b.failures <==> r.state.Finished?)
    && !(r.id in b.ledger.evaluations && k in b.failures)
  }

  ghost predicate Counted(b: Books) {
    && b.inflight == CountIf(b.ledger.requests, IsOpen())
    && b.sent == |b.ledger.requests|
    && |b.ledger.operationRuns| == b.sent - b.inflight
    && b.completed == |b.ledger.evaluations|
    && b.errors == |FailedIds(b.ledger.evaluations)|
    && b.completed + |b.failures| == CountIf(b.ledger.requests, IsFinished())
  }

  ghost predicate Kept(b: Books, clock: real) {
    && (forall k | 0 <= k < |b.ledger.requests| :: Entered(b, k, clock))
    && (forall k <- b.active :: k < |b.ledger.requests|)
    && (forall k <- b.failures :: k < |b.ledger.requests|)
    && Counted(b)
  }

  function Blank(run: string): Books {
    Books(run, Ledger([], [], map[]), 0, 0, 0, 0, [], {})
  }

  lemma BlankKept(run: string, clock: real)
    ensures Kept(Blank(run), clock)
  {
    assert FailedIds(map[]) == {};
  }

  lemma KeptLater(b: Books, clock: real, later: real)
    requires Kept(b, clock) && clock <= later
    ensures Kept(b, later)
  {
    forall k | 0 <= k < |b.ledger.requests| ensures Entered(b, k, later) {
      assert Entered(b, k, clock);
    }
  }

  lemma {:induction false} CountUpdated(records: seq<RequestRecord>, k: nat, r: RequestRecord, p: Choice)
    requires k < |records|
    ensures CountIf(records[k := r], p)
      == CountIf(records, p) - (if p(records[k]) then 1 else 0) + if p(r) then 1 else 0
  {
    if k == 0 {
      assert records[0 := r][1..] == records[1..];
    } else {
      assert records[k := r][1..] == records[1..][k - 1 := r];
      CountUpdated(records[1..], k - 1, r, p);
    }
  }

  lemma {:induction false} CountSnoc(records: seq<RequestRecord>, r: RequestRecord, p: Choice)
    ensures CountIf(records + [r], p) == CountIf(records, p) + if p(r) then 1 else 0
  {
    if records == [] {
    } else {
      assert (records + [r])[1..] == records[1..] + [r];
      CountSnoc(records[1..], r, p);
    }
  }

  lemma RunIdsSnoc(runs: seq<OperationRun>, run: OperationRun)
    ensures RunIds(runs + [run]) == RunIds(runs) + multiset{run.id}
  {
    assert (runs + [run])[..|runs|] == runs;
  }

  /** An id that names no request is on no operation run and in no verdict. */
  ghost predicate OnlyRequests(b: Books) {
    && (forall id <- RunIds(b.ledger.operationRuns) :: Names(b, id))
    && (forall id <- b.ledger.evaluations :: Names(b, id))
  }

  ghost predicate Names(b: Books, id: string) {
    exists k | 0 <= k < |b.ledger.requests| :: b.ledger.requests[k].id == id
  }

  lemma FreshId(b: Books, clock: real)
    requires Kept(b, clock) && OnlyRequests(b)
    ensures var id := RequestId(b.run, |b.ledger.requests|);
      id !in RunIds(b.ledger.operationRuns) && id !in b.ledger.evaluations
  {
    var id := RequestId(b.run, |b.ledger.requests|);
    if Names(b, id) {
      var k :| 0 <= k < |b.ledger.requests| && b.ledger.requests[k].id == id;
      assert Entered(b, k, clock);
      RequestIdInjective(b.run, k, |b.ledger.requests|);
    }
  }

  lemma AdmittedEntered(b: Books, scheduled: real, arrived: real, caseId: string, facets: map<string, string>,
                        clock: real, k: nat)
    requires Kept(b, clock) && OnlyRequests(b) && 0.0 <= scheduled <= arrived && clock <= arrived
      && k <= |b.ledger.requests|
    ensures Entered(Admitted(b, scheduled, arrived, caseId, facets), k, arrived)
  {
    var n := |b.ledger.requests|;
    FreshId(b, clock);
    if k < n {
      assert Entered(b, k, clock);
    } else {
      assert n !in b.failures;
    }
  }

  lemma AdmittedKept(b: Books, scheduled: real, arrived: real, caseId: string, facets: map<string, string>, clock: real)
    requires Kept(b, clock) && OnlyRequests(b) && 0.0 <= scheduled <= arrived && clock <= arrived
    ensures var a := Admitted(b, scheduled, arrived, caseId, facets); Kept(a, arrived) && OnlyRequests(a)
  {
    var r := NewRecord(RequestId(b.run, |b.ledger.requests|), scheduled, arrived, caseId, facets);
    var a := Admitted(b, scheduled, arrived, caseId, facets);
    CountSnoc(b.ledger.requests, r, IsOpen());
    CountSnoc(b.ledger.requests, r, IsFinished());
    forall k | 0 <= k < |a.ledger.requests| ensures Entered(a, k, arrived) {
      AdmittedEntered(b, scheduled, arrived, caseId, facets, clock, k);
    }
    NamesKept(b, a);
  }

  lemma NamesKept(b: Books, a: Books)
    requires OnlyRequests(b) && |b.ledger.requests| <= |a.ledger.requests|
    requires forall k | 0 <= k < |b.ledger.requests| :: a.ledger.requests[k].id == b.ledger.requests[k].id
    requires forall id <- RunIds(a.ledger.operationRuns) :: id in RunIds(b.ledger.operationRuns) || Names(a, id)
    requires forall id <- a.ledger.evaluations :: id in b.ledger.evaluations || Names(a, id)
    ensures OnlyRequests(a)
  {
    forall id | Names(b, id) ensures Names(a, id) {
      var k :| 0 <= k < |b.ledger.requests| && b.ledger.requests[k].id == id;
      assert a.ledger.requests[k].id == id;
    }
  }

  lemma StartedKept(b: Books, k: nat, at: real, clock: real)
    requires Kept(b, clock) && OnlyRequests(b) && clock <= at
    requires k < |b.ledger.requests| && b.ledger.requests[k].state.Arrived?
    ensures Kept(Started(b, k, at), at) && OnlyRequests(Started(b, k, at))
  {
    var a := Started(b, k, at);
    CountUpdated(b.ledger.requests, k, a.ledger.requests[k], IsOpen());
    CountUpdated(b.ledger.requests, k, a.ledger.requests[k], IsFinished());
    forall i | 0 <= i < |a.ledger.requests| ensures Entered(a, i, at) {
      assert Entered(b, i, clock);
    }
    NamesKept(b, a);
  }

  /** Closing a record: the slot goes back and exactly one run is added for it. */
  lemma ClosedRecords(b: Books, k: nat, r: RequestRecord, outcome: Outcome, clock: real)
    requires Kept(b, clock) && OnlyRequests(b) && k < |b.ledger.requests| && b.ledger.requests[k].state.Dispatched?
    requires r.id == b.ledger.requests[k].id && !Open(r)
    ensures var a := Closed(b, k, r, outcome);
      && a.inflight == CountIf(a.ledger.requests, IsOpen())
      && |a.ledger.operationRuns| == a.sent - a.inflight
      && CountIf(a.ledger.requests, IsFinished())
         == CountIf(b.ledger.requests, IsFinished()) + (if r.state.Finished? then 1 else 0)
      && OnlyRequests(a)
  {
    var a := Closed(b, k, r, outcome);
    CountUpdated(b.ledger.requests, k, r, IsOpen());
    CountUpdated(b.ledger.requests, k, r, IsFinished());
    RunIdsSnoc(b.ledger.operationRuns, OperationRun(r.id, outcome));
    assert a.ledger.requests[k].id == r.id;
    NamesKept(b, a);
  }

  lemma ClosedRuns(b: Books, k: nat, r: RequestRecord, outcome: Outcome, clock: real, i: nat)
    requires Kept(b, clock) && k < |b.ledger.requests| && b.ledger.requests[k].state.Dispatched?
    requires r.id == b.ledger.requests[k].id && i < |b.ledger.requests|
    ensures var a := Closed(b, k, r, outcome);
      && (i != k ==> a.ledger.requests[i] == b.ledger.requests[i] && a.ledger.requests[i].id != r.id)
      && RunIds(a.ledger.operationRuns)[a.ledger.requests[i].id]
         == RunIds(b.ledger.operationRuns)[a.ledger.requests[i].id] + if i == k then 1 else 0
  {
    assert Entered(b, i, clock) && Entered(b, k, clock);
    RunIdsSnoc(b.ledger.operationRuns, OperationRun(r.id, outcome));
    if i != k && b.ledger.requests[i].id == r.id {
      RequestIdInjective(b.run, i, k);
    }
  }

  lemma StoppedKept(b: Books, k: nat, at: real, outcome: Outcome, clock: real)
    requires Kept(b, clock) && OnlyRequests(b) && clock <= at
    requires k < |b.ledger.requests| && b.ledger.requests[k].state.Dispatched?
    ensures Kept(Stopped(b, k, at, outcome), at) && OnlyRequests(Stopped(b, k, at, outcome))
  {
    var a := Stopped(b, k, at, outcome);
    ClosedRecords(b, k, a.ledger.requests[k], outcome, clock);
    forall i | 0 <= i < |a.ledger.requests| ensures Entered(a, i, at) {
      assert Entered(b, i, clock);
      ClosedRuns(b, k, a.ledger.requests[k], outcome, clock, i);
    }
  }

  lemma FailedAdded(evaluations: map<string, Evaluation>, id: string, e: Evaluation)
    requires id !in evaluations
    ensures |evaluations[id := e]| == |evaluations| + 1
    ensures |FailedIds(evaluations[id := e])| == |FailedIds(evaluations)| + if e.ok then 0 else 1
  {
    assert evaluations[id := e].Keys == evaluations.Keys + {id};
    var was, now := FailedIds(evaluations), FailedIds(evaluations[id := e]);
    assert id !in was;
    if e.ok {
      assert now == was;
    } else {
      assert now == was + {id};
    }
  }

  /** A finished request that is neither judged nor given up yet is the one thing missing from the count. */
  lemma NotedCounted(c: Books, k: nat, j: Judgement)
    requires OnlyRequests(c) && k < |c.ledger.requests| && c.ledger.requests[k].id !in c.ledger.evaluations
    requires c.inflight == CountIf(c.ledger.requests, IsOpen()) && c.sent == |c.ledger.requests|
    requires |c.ledger.operationRuns| == c.sent - c.inflight
    requires c.completed == |c.ledger.evaluations| && c.errors == |FailedIds(c.ledger.evaluations)|
    requires c.completed + |c.failures| + 1 == CountIf(c.ledger.requests, IsFinished())
    ensures Counted(Noted(c, k, j)) && OnlyRequests(Noted(c, k, j))
  {
    if j.Judged? {
      FailedAdded(c.ledger.evaluations, c.ledger.requests[k].id, j.evaluation);
    }
    NamesKept(c, Noted(c, k, j));
  }

  lemma EndedCounted(b: Books, k: nat, at: real, outcome: Outcome, facets: map<string, string>, j: Judgement,
                     clock: real)
    requires Kept(b, clock) && OnlyRequests(b)
    requires k < |b.ledger.requests| && b.ledger.requests[k].state.Dispatched?
    ensures var a := Ended(b, k, at, outcome, facets, j); Counted(a) && OnlyRequests(a)
  {
    var r := FinishRecord(b.ledger.requests[k], at, facets);
    assert Entered(b, k, clock);
    ClosedRecords(b, k, r, outcome, clock);
    NotedCounted(Closed(b, k, r, outcome), k, j);
  }

  lemma EndedEntered(b: Books, k: nat, at: real, outcome: Outcome, facets: map<string, string>, j: Judgement,
                     clock: real, i: nat)
    requires Kept(b, clock) && clock <= at && i < |b.ledger.requests|
    requires k < |b.ledger.requests| && b.ledger.requests[k].state.Dispatched?
    ensures Entered(Ended(b, k, at, outcome, facets, j), i, at)
  {
    var r := FinishRecord(b.ledger.requests[k], at, facets);
    assert Entered(b, i, clock);
    ClosedRuns(b, k, r, outcome, clock, i);
  }

  lemma EndedKept(b: Books, k: nat, at: real, outcome: Outcome, facets: map<string, string>, j: Judgement, clock: real)
    requires Kept(b, clock) && OnlyRequests(b) && clock <= at
    requires k < |b.ledger.requests| && b.ledger.requests[k].state.Dispatched?
    ensures var a := Ended(b, k, at, outcome, facets, j); Kept(a, at) && OnlyRequests(a)
  {
    var a := Ended(b, k, at, outcome, facets, j);
    EndedCounted(b, k, at, outcome, facets, j, clock);
    forall i | 0 <= i < |a.ledger.requests| ensures Entered(a, i, at) {
      EndedEntered(b, k, at, outcome, facets, j, clock, i);
    }
  }

  /** Ending a request changes its own record only, and counts nothing back. */
  lemma EndedChanges(b: Books, k: nat, at: real, outcome: Outcome, facets: map<string, string>, j: Judgement)
    requires k < |b.ledger.requests|
    ensures var a, r := Ended(b, k, at, outcome, facets, j), FinishRecord(b.ledger.requests[k], at, facets);
      && a.ledger.requests == b.ledger.requests[k := r] && !Open(r)
      && a.inflight == b.inflight - 1 && a.completed >= b.completed && a.errors >= b.errors
  {
  }

  lemma SettledKept(b: Books, k: nat, clock: real)
    requires Kept(b, clock) && OnlyRequests(b)
    requires k < |b.ledger.requests| && !Open(b.ledger.requests[k])
    ensures Kept(Settled(b, k), clock) && OnlyRequests(Settled(b, k))
  {
    var a := Settled(b, k);
    forall i | 0 <= i < |a.ledger.requests| ensures Entered(a, i, clock) {
      assert Entered(b, i, clock);
    }
    NamesKept(b, a);
  }

  // ----- What kept books mean -----

  lemma {:induction false} RunIdsContains(runs: seq<OperationRun>, id: string)
    requires id in RunIds(runs)
    ensures exists o <- runs :: o.id == id
  {
    if runs[|runs| - 1].id == id {
      assert runs[|runs| - 1] in runs;
    } else {
      RunIdsContains(runs[..|runs| - 1], id);
      var o :| o in runs[..|runs| - 1] && o.id == id;
      assert o in runs;
    }
  }

  /** Books that are kept can always be reduced, over any window. */
  lemma KeptReduces(b: Books, clock: real, span: Span)
    requires Kept(b, clock)
    ensures Ordered(b.ledger.requests) && CanReduce(b.ledger, span)
  {
    forall r <- b.ledger.requests ensures EndsAfterDispatch(r) && !Missing(b.ledger, r, span.start, span.end) {
      var k :| 0 <= k < |b.ledger.requests| && b.ledger.requests[k] == r;
      assert Entered(b, k, clock);
      if r.state.Finished? {
        RunIdsContains(b.ledger.operationRuns, r.id);
      }
    }
  }

  /** Once every admitted request has been dispatched, the reservations are the sweep's count of the requests in
      flight now. */
  lemma {:induction false} InflightIsOpen(records: seq<RequestRecord>, t: real)
    requires forall r <- records :: Timely(r, t) && !r.state.Arrived?
    ensures CountIf(records, IsOpen()) == CountAt(records, t)
  {
    if records == [] {
    } else {
      assert Timely(records[0], t);
      InflightIsOpen(records[1..], t);
    }
  }
}
