/** The ledger a load run leaves behind: one record per request, its operation run and its verdict. */
module Records {
  import opened Wrappers

  datatype RequestState = Arrived | Dispatched | Finished | Dropped | Interrupted

  datatype RequestRecord = RequestRecord(
    id: string, caseId: string, scheduledAt: real, arrivedAt: real,
    dispatchedAt: Option<real>, finishedAt: Option<real>,
    state: RequestState, reason: Option<string>, operationRunId: Option<string>, facets: map<string, string>)

  datatype Evaluation = Evaluation(ok: bool, errorKind: Option<string>)

  /** What a call took, and whatever else its runner measured. */
  datatype Outcome = Outcome(durationMs: real, metrics: map<string, real>)

  datatype OperationRun = OperationRun(id: string, outcome: Outcome)

  datatype Ledger = Ledger(
    requests: seq<RequestRecord>, operationRuns: seq<OperationRun>, evaluations: map<string, Evaluation>)
  {
    /** The verdict on a request's operation run, if it has been judged. */
    function Verdict(r: RequestRecord): Option<Evaluation> {
      if r.operationRunId.Some? && r.operationRunId.value in evaluations
      then Some(evaluations[r.operationRunId.value]) else None
    }

    predicate JudgedOk(r: RequestRecord) {
      Verdict(r).Some? && Verdict(r).value.ok
    }
  }
}
