/** Running a plan over a dataset, each detector reading the results of those it depends on. */
module DetectorBatch {
  import opened Wrappers
  import opened DetectorPlan

  /** A detector's completed execution; a failed one is a result too. */
  datatype Execution =
    | Succeeded(id: string, findings: seq<string>)
    | Failed(id: string, findings: seq<string>, message: string)

  datatype Lookup = Found(execution: Execution) | OutsideExecution | Undeclared(id: string) | Missing(id: string)

  /** The result a running detector reads for one of its declared dependencies. */
  function DependencyResult(definition: Option<Detector>, completed: map<string, Execution>, id: string): Lookup {
    match definition
    case None => OutsideExecution
    case Some(d) =>
      if id !in d.needs then Undeclared(id)
      else if id !in completed then Missing(id)
      else Found(completed[id])
  }

  /** What a detector does with the results it can see. */
  type Detect = (Detector, string -> Lookup) -> Execution

  /** What is completed after the first `n` detectors of the plan. */
  ghost function CompletedAfter(plan: seq<Detector>, detect: Detect, n: nat): map<string, Execution>
    requires n <= |plan|
  {
    if n == 0 then map[]
    else
      var before := CompletedAfter(plan, detect, n - 1);
      before[plan[n - 1].id := detect(plan[n - 1], id => DependencyResult(Some(plan[n - 1]), before, id))]
  }

  method RunBatch(plan: seq<Detector>, detect: Detect) returns (completed: map<string, Execution>)
    ensures completed == CompletedAfter(plan, detect, |plan|)
  {
    completed := map[];
    for i := 0 to |plan|
      invariant completed == CompletedAfter(plan, detect, i)
    {
      var detector, results := plan[i], completed;
      var execution := detect(detector, id => DependencyResult(Some(detector), results, id));
      completed := completed[detector.id := execution];
    }
  }

  /** A running detector is refused what it did not declare, and handed what has been recorded of what it did. */
  lemma LookupIs(definition: Option<Detector>, completed: map<string, Execution>, id: string)
    ensures var r := DependencyResult(definition, completed, id);
      && (r.OutsideExecution? <==> definition.None?)
      && (r.Undeclared? <==> definition.Some? && id !in definition.value.needs)
      && (r.Missing? <==> definition.Some? && id in definition.value.needs && id !in completed)
      && (r.Found? <==> definition.Some? && id in definition.value.needs && id in completed)
      && (r.Found? ==> r.execution == completed[id])
  {
  }

  lemma {:induction false} CompletedIds(plan: seq<Detector>, detect: Detect, n: nat)
    requires n <= |plan|
    ensures CompletedAfter(plan, detect, n).Keys == Ids(plan[..n])
  {
    if n == 0 {
    } else {
      CompletedIds(plan, detect, n - 1);
      assert plan[..n] == plan[..n - 1] + [plan[n - 1]];
    }
  }

  /** A result once recorded stays: no later detector of an ordered plan has the same id. */
  lemma {:induction false} CompletedStays(registry: Registry, plan: seq<Detector>, detect: Detect, n: nat, later: nat,
                                          id: string)
    requires Ordered(registry, plan) && n <= later <= |plan| && id in CompletedAfter(plan, detect, n)
    ensures id in CompletedAfter(plan, detect, later)
    ensures CompletedAfter(plan, detect, later)[id] == CompletedAfter(plan, detect, n)[id]
    decreases later
  {
    if n == later {
    } else {
      CompletedStays(registry, plan, detect, n, later - 1, id);
      CompletedIds(plan, detect, n);
      var k :| 0 <= k < n && plan[..n][k].id == id;
      assert plan[k].id != plan[later - 1].id;
    }
  }

  /** A lookup that finds the final result of everything the detector declared, and refuses anything else. */
  ghost predicate FindsFinal(d: Detector, completed: map<string, Execution>, results: string -> Lookup) {
    forall id :: results(id) == if id in d.needs && id in completed then Found(completed[id]) else Undeclared(id)
  }

  lemma FoundByLookup(registry: Registry, plan: seq<Detector>, detect: Detect, k: nat, results: string -> Lookup)
    requires Ordered(registry, plan) && k < |plan|
    requires forall id :: results(id) == DependencyResult(Some(plan[k]), CompletedAfter(plan, detect, k), id)
    ensures FindsFinal(plan[k], CompletedAfter(plan, detect, |plan|), results)
    ensures forall id <- plan[k].needs :: id in CompletedAfter(plan, detect, |plan|)
  {
    forall id {:trigger results(id)}
      ensures id in plan[k].needs ==> id in CompletedAfter(plan, detect, |plan|)
      ensures results(id) == if id in plan[k].needs && id in CompletedAfter(plan, detect, |plan|)
                             then Found(CompletedAfter(plan, detect, |plan|)[id]) else Undeclared(id)
    {
      DependenciesAreFound(registry, plan, detect, k, id);
    }
    forall id <- plan[k].needs ensures id in CompletedAfter(plan, detect, |plan|) {
      DependenciesAreFound(registry, plan, detect, k, id);
    }
  }

  lemma RecordedAt(plan: seq<Detector>, detect: Detect, k: nat) returns (results: string -> Lookup)
    requires k < |plan|
    ensures forall id :: results(id) == DependencyResult(Some(plan[k]), CompletedAfter(plan, detect, k), id)
    ensures plan[k].id in CompletedAfter(plan, detect, k + 1)
    ensures CompletedAfter(plan, detect, k + 1)[plan[k].id] == detect(plan[k], results)
  {
    var before := CompletedAfter(plan, detect, k);
    results := id => DependencyResult(Some(plan[k]), before, id);
  }

  /** Running a plan records for each of its detectors, and for nothing else, what it makes of the final results of
      those it declared. */
  lemma BatchRecords(registry: Registry, plan: seq<Detector>, detect: Detect, k: nat)
    returns (results: string -> Lookup)
    requires Ordered(registry, plan) && k < |plan|
    ensures FindsFinal(plan[k], CompletedAfter(plan, detect, |plan|), results)
    ensures forall id <- plan[k].needs :: id in CompletedAfter(plan, detect, |plan|)
    ensures CompletedAfter(plan, detect, |plan|).Keys == Ids(plan) && plan[k].id in CompletedAfter(plan, detect, |plan|)
    ensures CompletedAfter(plan, detect, |plan|)[plan[k].id] == detect(plan[k], results)
  {
    results := RecordedAt(plan, detect, k);
    FoundByLookup(registry, plan, detect, k, results);
    CompletedIds(plan, detect, |plan|);
    assert plan[..|plan|] == plan;
    CompletedStays(registry, plan, detect, k + 1, |plan|, plan[k].id);
  }

  /** In an ordered plan a detector always finds every dependency it declared, and what it finds is
      that dependency's final result; anything else it asks for is refused as undeclared. */
  lemma DependenciesAreFound(registry: Registry, plan: seq<Detector>, detect: Detect, n: nat, id: string)
    requires Ordered(registry, plan) && n < |plan|
    ensures DependencyResult(Some(plan[n]), CompletedAfter(plan, detect, n), id)
         == if id in plan[n].needs && id in CompletedAfter(plan, detect, |plan|)
            then Found(CompletedAfter(plan, detect, |plan|)[id]) else Undeclared(id)
    ensures id in plan[n].needs ==> id in CompletedAfter(plan, detect, |plan|)
  {
    if id in plan[n].needs {
      assert NeedsMet(plan[..n], plan[n]);
      CompletedIds(plan, detect, n);
      CompletedStays(registry, plan, detect, n, |plan|, id);
    }
  }
}
