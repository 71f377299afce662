# Models of the trace, perf and eval engines, with proofs

A Dafny model of the stateful cores of three Python harnesses, and proofs of what their code and
documentation promise. `dafny verify dfyconfig.toml` checks everything.

**Trace facts and detectors.** `FactTransforms` defines what a fact is worth: evaluation of the owning
transforms, where a transform's `compute` is an interaction tree that asks for facts and then answers or
fails. `TransformContexts` is the evaluator with its four tables (`pending`, `active`, `completed`,
`done`), memoised `Get` and all-or-nothing `Materialize`. `TransformOwners` builds the producer table.
`DetectorPlan` and `DetectorBatch` are the planner and the loop that runs a plan.

**Load runs.** `LoadPlans` and `ArrivalTimes` are the declarative plan, its target and the inversion of
its integrated rate. `LoadControllers` executes a plan; `ControllerWindows` says what all its runs keep.
`RequestBooks`, `Pacing` and `Schedulers` are the scheduler, cut into steps at its `await`s, with the
object itself in `SchedulerDriver` and whole interleaved runs in `SchedulerRuns`. `InflightSweep` and
`Distributions` (both on `Sorting`) and `Reduction` reduce the ledger over windows and slices,
`WindowAssembly` says which windows those are, and `ClosingInstant` when none may lose an event. Times and
rates are reals, a rate may be infinite, and the clock never runs backwards.

**Evaluations.** `RateGates` is the adaptive concurrency gate and `GateProtocol` any number of workers
calling through it; `Attempts` retries one call under it. `Worksheets` holds the cells, `Checkpoints` saves
and loads them as records, and `Reconciler`, `ReconcileSteps` and `ReconcileRuns` fill the gaps under any
interleaving, failure, crash and restart; `ReconcileProgress` says that runs end and when they can always be
completed, `ReconcileCells` when a filled cell can change; `ReconcileEngine` is the object that writes the cells.

**Exact pieces.** `LineFit` is the least-squares line over the reals; `SeriesIds` (on `Strings`) prints
series ids and parses ids and references back.

**In plain terms.** `FactLaws`, `LoadLaws`, `SchedulerLaws`, `StatisticsLaws`, `WindowLaws`, `ReconcileLaws`,
`CheckpointLaws` and `SeriesLaws` say what the definitions the other modules share come to, in fields, numbers and
texts only.

## How the model is read

- An object whose methods update fields is a class; each method is tied to a function on the value of its
  fields (`View`), and the theorems are about that function. `started`, `log`, `clock`, `calls` and `failed`
  are histories kept only for the proofs.
- A stretch between two `await`s is one step. A fire's first stretch precedes every later move of the
  driver, because the driver yields right after creating it (`scheduler.py:190`); `Enabled` says so.
- Clock readings, case choices, Poisson gaps, results of calls and verdicts are parameters of the steps.
- Square roots are a parameter with the property of being one.

## Findings

- `arrival_time` divides by the stage's starting rate when the slope is below `1e-12`. Its own promise to
  invert the integral therefore fails for a nearly flat ramp, and a ramp from rest to a very low rate divides
  by zero even for volume zero (`NearlyFlatRampDivides`). `ArrivalInverts` gives the exact condition.
- The gate never comes to a standstill exactly when both its first limit and `min_limit` are at least one
  (`NeverStuckIffLimits`). The constructor checks neither, and `GateRegistry(sut_limit=0)` makes a gate that no
  call ever enters.
- `split_series` inverts `series_id` exactly for names without `{`, stripped keys without `,`, `}` and `=`,
  and values without `,` and `}` that do not begin or end with a quote (`SplitInvertsPrint`).
- Filled cells never change before a restart exactly when no metric name is repeated or there are no rows
  (`CellsNeverChangeIff`). `Experiment.metrics` may repeat a name; `SomeCellChanges` builds the run in which a
  failed call then overwrites a score already there. Confluence, dependency order and completion hold either way.
- `is_complete` overlooks unanswered rows whose provision key is missing: every cell is there exactly when it
  answers yes and there is no such row (`AllOkIffComplete`). A checkpoint can hold one (`OrphanIsOverlooked`); no
  worksheet reached from `build` does.
- Windows are half-open, so an event at the very instant the last window is closed is in none of them.
  `BriefRun` is an ordinary run that loses one so; over all plans and runs nothing is lost exactly when the
  last window is closed strictly later than the run ended (`NothingLostIffLater`), as the engine's scrapes let
  it do.
- A controller's windows are the planned stages exactly when no call falls in a warmup stage with as many
  requests in flight as its cap (`AsPlannedIffUncapped`, `RunUncappedIffUnmet`); the cap of the hold never matters.
- A gate's limit stays within its bounds exactly when it begins there (`LimitKeptIff`). `GateRegistry` passes its
  `sut_limit` on unchecked, so a limit above the default maximum of 64 is kept until an error halves it.
- Without a drive state stages and drain leave a gap between them if the measurement outlasts the plan and
  something finishes later still (`UndrivenTiles`); the engine always passes a drive state.

## Model

| member | source | states |
|---|---|---|
| FactTransforms.CycleIffEndless | sdks/python/trace_harness/transform.py:51-75 | A request is reported cyclic if and only if plain recursive evaluation of it never comes to an end |
| FactTransforms.AnswerIsPlain | sdks/python/trace_harness/transform.py:51-75 | Any other answer, value or error, is the answer of plain un-memoised recursion, and of nothing else |
| FactTransforms.EvalFinishes | sdks/python/trace_harness/transform.py:51-75 | Evaluation that does not report a cycle is matched by plain recursion of some finite depth |
| FactTransforms.PlainDeeper | sdks/python/trace_harness/transform.py:51-75 | Plain recursion that has come to an answer keeps it at every greater depth |
| FactTransforms.PlainNeverCyclic | sdks/python/trace_harness/transform.py:63-64 | Plain recursion itself never answers with a cycle, so that report comes only from the active-set check |
| TransformOwners.ClaimsExact | sdks/python/trace_harness/transform.py:37-46 | The claims are exactly the declared outputs of the transforms that apply, on every node |
| TransformOwners.RegisterExact | sdks/python/trace_harness/transform.py:37-46 | The producer table is built exactly when no fact is claimed twice or has a value already, and then maps each claim to its transform |
| TransformOwners.RegisterBlames | sdks/python/trace_harness/transform.py:42-46 | A refusal names the first claim on a fact that is there, owned, or claimed before |
| TransformOwners.AssignOwners | sdks/python/trace_harness/transform.py:37-46 | The nested loops build that table or fail on the first conflicting claim |
| TransformOwners.OwnersGiveValidGraph | sdks/python/trace_harness/transform.py:30-46 | A table built without conflict makes evaluation well defined |
| TransformContexts.TransformContext.Get | sdks/python/trace_harness/transform.py:51-75 | Returns exactly what evaluation from the active invocations yields; memo grows by what was used; each new invocation is started once and nothing remembered is started again |
| TransformContexts.TransformContext.Invoke | sdks/python/trace_harness/transform.py:60-75 | Running an owner under the cycle check answers what evaluation does and restores the active set |
| TransformContexts.TransformContext.ComputeGuarded | sdks/python/trace_harness/transform.py:65-74 | The invocation is active while it computes and unmarked however that ends |
| TransformContexts.TransformContext.Compute | sdks/python/trace_harness/transform.py:67-67 | A computation driven through `Get` gives what evaluation of its tree gives, or the first error it meets |
| TransformContexts.TransformContext.Materialize | sdks/python/trace_harness/transform.py:77-92 | All or nothing: on an error facts and done are unchanged and the working tables empty; on success done grows by exactly the demand and each new invocation ran once; in either case no invocation ran twice and no fact is overwritten |
| TransformContexts.TransformContext.Resolve | sdks/python/trace_harness/transform.py:79-83 | One request of a batch is refused for a foreign node and else answered as evaluation answers it |
| TransformContexts.TransformContext.MaterializeAll | sdks/python/trace_harness/transform.py:77-92 | Any sequence of materializations of one context leaves done as `AfterBatches` says, the facts those of what is done, and answers each batch as if it were the only one |
| TransformContexts.ConsistentCommits | sdks/python/trace_harness/transform.py:84-89 | Whatever is pending is new to the facts, so the commit-time conflict check can never fire, and committing leaves the tables telling the truth |
| TransformContexts.TransformContext.Commit | sdks/python/trace_harness/transform.py:87-89 | Committing moves every pending output into the facts and every completed invocation into done |
| TransformContexts.TransformContext.Rollback | sdks/python/trace_harness/transform.py:90-92 | Whatever a failed materialization had pending is dropped |
| TransformContexts.RecallIsEval | sdks/python/trace_harness/transform.py:54-58 | What is read from facts or pending outputs is what evaluation would yield, whatever is active |
| TransformContexts.FactsAreEvaluated | sdks/python/trace_harness/transform.py:51-92 | Every committed fact equals plain recursive evaluation through the owning transforms |
| TransformContexts.DemandedKeyReads | sdks/python/trace_harness/transform.py:75-75 | Once what a key demands is done, reading it gives its evaluated value, null if its owner left it out |
| TransformContexts.BatchSucceeds | sdks/python/trace_harness/transform.py:77-83 | A batch succeeds exactly when each of its requests would succeed on its own |
| TransformContexts.AfterSuccess | sdks/python/trace_harness/transform.py:77-92 | After successful batches exactly the demand of all their requests is done |
| TransformContexts.OrderIrrelevant | sdks/python/trace_harness/transform.py:77-92 | Splitting, merging, repeating or reordering the same requests changes neither success nor the resulting facts |
| FactLaws.PlainReads | sdks/python/trace_harness/transform.py:51-64 | A fact that is there is read, one that nobody produces is null, and one whose owner is being computed is a cycle |
| FactLaws.SomeTalk | sdks/python/trace_harness/transform.py:67-67 | Every computation asks its questions in turn, hears their answers and comes to an end or stops at a question that raises |
| FactLaws.OwnedReads | sdks/python/trace_harness/transform.py:60-75 | After that talk a request for an owned fact is refused as undeclared exactly if some output is not among those the transform produces; else it reads the output, or null where there is none, whichever of the produced ones are missing |
| FactLaws.FactsWritten | sdks/python/trace_harness/transform.py:70-89 | A finished owner leaves exactly its outputs among the facts, null ones included, and an unfinished one none |
| FactLaws.RequestAnswers | sdks/python/trace_harness/transform.py:79-83 | One request is refused for a node that is not the trace's own object, and answers as evaluation does otherwise |
| FactLaws.BatchAnswers | sdks/python/trace_harness/transform.py:77-92 | A batch answers with its first request that fails, and succeeds if there is none |
| DetectorPlan.Register | sdks/python/trace_harness/detectors.py:84-121 | The registry is accepted exactly when ids are nonempty and distinct, and then holds every definition |
| DetectorPlan.PlanDetectors | sdks/python/trace_harness/detectors.py:84-121 | Accepts exactly sound registries with a known selection; the plan is the dependency closure, each id once and after all it requires; an ordered registry comes back unchanged; an error names a real fault |
| DetectorPlan.Planner.VisitAll | sdks/python/trace_harness/detectors.py:84-121 | Visiting names in turn leaves the closure of them in dependency order, or blames one of them |
| DetectorPlan.Planner.Visit | sdks/python/trace_harness/detectors.py:84-121 | A visit adds the definition after everything it needs, only things below it, and nothing twice |
| DetectorPlan.PathDescends | sdks/python/trace_harness/detectors.py:84-121 | Along a dependency path the positions in the order strictly decrease |
| DetectorPlan.OrderedHasNoCycle | sdks/python/trace_harness/detectors.py:84-121 | What has been put in order lies on no cycle |
| DetectorPlan.RejectionIsRight | sdks/python/trace_harness/detectors.py:84-121 | A rejected registry really has an unknown requirement or a cycle |
| DetectorPlan.FullOrderIsSound | sdks/python/trace_harness/detectors.py:84-121 | A registry ordered in full has no unknown requirement and no cycle anywhere |
| DetectorPlan.ItemsAre | sdks/python/trace_harness/detectors.py:84-121 | A definition is registered as it is, a plain function under its name with no needs |
| DetectorBatch.RunBatch | sdks/python/trace_harness/batch.py:357-386 | The loop records each detector's execution, computed from those recorded before it |
| DetectorBatch.CompletedStays | sdks/python/trace_harness/batch.py:357-386 | A recorded execution is never replaced by a later detector of the plan |
| DetectorBatch.DependenciesAreFound | sdks/python/trace_harness/detectors.py:46-55 | In a plan every declared dependency is found and is that detector's final execution; anything else is refused |
| DetectorBatch.LookupIs | sdks/python/trace_harness/detectors.py:46-55 | A running detector is refused what it did not declare, and handed what has been recorded of what it did |
| DetectorBatch.BatchRecords | sdks/python/trace_harness/batch.py:357-386 | Running a plan records for each of its detectors, and nothing else, what it makes of the final results of those it declared |
| LoadPlans.ComputePlannedStages | sdks/python/perf_harness/drive/load.py:92-103 | The doubling loop gives the explicit stages, or a doubling warmup and one hold |
| LoadPlans.ComputeTarget | sdks/python/perf_harness/drive/load.py:118-133 | The loop over stages gives the planned rate and cap at any time |
| LoadPlans.DoublingRates | sdks/python/perf_harness/drive/load.py:96-101 | The k-th warmup stage runs at the rate doubled k times, below the goal, and one more doubling reaches it |
| LoadPlans.TargetWithinPeak | sdks/python/perf_harness/drive/load.py:114-133 | The planned cap always lies between one and the peak |
| LoadLaws.PlansAccepted | sdks/python/perf_harness/drive/load.py:19-90 | Which stages and plans are accepted |
| LoadLaws.PlannedStagesAre | sdks/python/perf_harness/drive/load.py:92-103 | The stages are those given; else one hold, before which a finite rate above one is approached by doubling from one, stage by stage of the warmup's length, unless there is no warmup |
| LoadLaws.PeakIsReached | sdks/python/perf_harness/drive/load.py:114-116 | The peak is the cap of the plan or of a stage, and none is larger |
| LoadLaws.TargetInStage | sdks/python/perf_harness/drive/load.py:118-133 | In a stage that is no ramp the target is its rate and cap; on a ramp both lie between those before and its own in proportion to the time spent, the cap rounded down and at least one |
| LoadLaws.TargetPastEnd | sdks/python/perf_harness/drive/load.py:133-133 | After the end the target stays that of the last stage |
| ArrivalTimes.ArrivalTime | sdks/python/perf_harness/drive/load.py:135-150 | The loop that inverts the integrated rate, tolerance and division by zero included |
| ArrivalTimes.CumulativeIsIntegral | sdks/python/perf_harness/drive/load.py:118-150 | The cumulative volume grows between two times by the area under the target's rate |
| ArrivalTimes.RateBeforeIsTarget | sdks/python/perf_harness/drive/load.py:118-133 | The rate integrated is the rate `target` gives |
| ArrivalTimes.CumulativeMonotone | sdks/python/perf_harness/drive/load.py:135-150 | The cumulative volume never decreases |
| ArrivalTimes.ArrivalInverts | sdks/python/perf_harness/drive/load.py:135-150 | The arrival lies within the plan and exactly the volume has arrived by then, if and only if its leg is exactly or not nearly flat; beyond the total volume there is none |
| ArrivalTimes.ExactMeans | sdks/python/perf_harness/drive/load.py:143-146 | The guard in plain numbers: equal rates at both ends, or a slope of at least 1e-12, or volume zero and no start from rest |
| ArrivalTimes.PlanInverts | sdks/python/perf_harness/drive/load.py:135-150 | Without nearly flat ramps every volume below the total is inverted exactly |
| ArrivalTimes.ArrivalsIncrease | sdks/python/perf_harness/drive/load.py:135-150 | A larger volume arrives strictly later |
| ArrivalTimes.NearlyFlatRampDivides | sdks/python/perf_harness/drive/load.py:143-146 | A valid plan whose first arrival is a division by zero |
| LoadControllers.LoadController.constructor | sdks/python/perf_harness/drive/controller.py:12-23 | Opens the first window of the planned stages at time zero |
| LoadControllers.LoadController.Target | sdks/python/perf_harness/drive/controller.py:55-64 | The rate and cap of the current stage, interpolated on a ramp from the stage before |
| LoadLaws.ControllerTarget | sdks/python/perf_harness/drive/controller.py:55-64 | The same proportion from whatever stage the controller came from, also one cut short |
| LoadControllers.LoadController.Advance | sdks/python/perf_harness/drive/controller.py:66-111 | Brings the windows to a time, through every stage that has ended and every capped warmup |
| LoadLaws.AdvanceCharges | sdks/python/perf_harness/drive/controller.py:66-111 | The window current before an advance is charged as limited from the last reading on if the load was limited then, each window it opens in full if it is limited now, and no other |
| LoadControllers.LoadController.Close | sdks/python/perf_harness/drive/controller.py:78-111 | Closes a window with its reason and opens the next, skipping to the next hold after a capped warmup |
| LoadControllers.LoadController.Abort | sdks/python/perf_harness/drive/controller.py:113-117 | Ends at once, leaving the current window incomplete |
| LoadLaws.AbortEnds | sdks/python/perf_harness/drive/controller.py:113-117 | The current window ends then, or with its stage if that is earlier, incomplete; all else stays, and a load that has ended altogether |
| ControllerWindows.AdvancedTiled | sdks/python/perf_harness/drive/controller.py:66-111 | Advancing keeps the windows tiling time: adjoining, complete stages at full length, only a capped warmup short and followed by the next hold, limited time within the window |
| ControllerWindows.AbortedTiled | sdks/python/perf_harness/drive/controller.py:113-117 | Aborting keeps the tiling and ends no later than planned |
| ControllerWindows.RunsTile | sdks/python/perf_harness/drive/controller.py:66-117 | Every reachable state of every nondecreasing run tiles time, ends by the planned duration and remembers where a ramp comes from |
| ControllerWindows.IndicesIncrease | sdks/python/perf_harness/drive/controller.py:66-111 | Stages run in order and none twice |
| ControllerWindows.BelowCapsNoneCapped | sdks/python/perf_harness/drive/controller.py:66-111 | An advance that sees no warmup stage still to come at its cap cuts none short, whatever happens in the hold |
| ControllerWindows.PlannedStarts | sdks/python/perf_harness/drive/controller.py:66-111 | Without a capped warmup the n-th window is the n-th stage at its planned time |
| ControllerWindows.TargetFollowsPlan | sdks/python/perf_harness/drive/controller.py:55-64 | In a state brought forward to an instant with no capped warmup the target is the plan's, during the plan and after it |
| ControllerWindows.RunReaches | sdks/python/perf_harness/drive/controller.py:66-111 | Every run of advances, whatever was in flight, tiles time and is brought forward to its last instant |
| ControllerWindows.UncappedIffUnseen | sdks/python/perf_harness/drive/controller.py:66-111 | An advance leaves no window ended by the cap exactly when there was none and no warmup stage is met at its cap on the way |
| ControllerWindows.RunUncappedIffUnseen | sdks/python/perf_harness/drive/controller.py:66-111 | In any run of advances no window was ended by the cap exactly when no call saw a warmup stage at its cap |
| ControllerWindows.SeenIffMeets | sdks/python/perf_harness/drive/controller.py:66-111 | Of the stages an advance passes only the one its instant falls in can be seen at its cap |
| ControllerWindows.RunUncappedIffUnmet | sdks/python/perf_harness/drive/controller.py:66-111 | So whether a run keeps to its plan can be told from plan and calls alone: exactly if no call falls, by the planned times, in a warmup stage with as many in flight as its cap |
| ControllerWindows.BelowCapsAheadUncapped | sdks/python/perf_harness/drive/controller.py:66-111 | It is enough that before each call the requests in flight are below the caps of the warmup stages still to come |
| ControllerWindows.RunFollowsPlan | sdks/python/perf_harness/drive/controller.py:55-111 | After any run of advances in which no warmup was ended by its cap the controller's target is the plan's, during the plan and after it |
| ControllerWindows.RunsAgree | sdks/python/perf_harness/drive/controller.py:66-111 | Any two such runs that end at one instant have the same boundaries: by steps or at once |
| ControllerWindows.AsPlannedIffUncapped | sdks/python/perf_harness/drive/controller.py:66-111 | The windows are the stages at the prefix sums of their durations exactly when no warmup was ended by its cap |
| ControllerWindows.RunIsPlanned | sdks/python/perf_harness/drive/controller.py:66-111 | That holds in every state of every run of advances, and then the end of the run is the planned one |
| ControllerWindows.BoundariesDetermined | sdks/python/perf_harness/drive/controller.py:66-111 | Two states brought forward to one instant without a capped warmup have the same boundaries |
| ControllerWindows.PrefixIsDuration | sdks/python/perf_harness/drive/load.py:105-108 | The planned end is the sum of the stage durations |
| Pacing.RetimedPaced | sdks/python/perf_harness/drive/scheduler.py:171-178 | A change of rate keeps the next send one interval of the new rate after the last |
| Pacing.RefreshedPaced | sdks/python/perf_harness/drive/scheduler.py:179-181 | Leaving a full period keeps that distance |
| Pacing.SentPaced | sdks/python/perf_harness/drive/scheduler.py:182-189 | A send keeps consecutive admissions spaced by the interval of the later one's rate |
| Pacing.AdmissionsTakeTime | sdks/python/perf_harness/drive/scheduler.py:171-191 | After the first, each admission in an interval takes up one interval of the fastest rate |
| Pacing.NoBurst | sdks/python/perf_harness/drive/scheduler.py:171-191 | An interval of length L under a maximum rate R admits at most 1 + R * L requests |
| RequestBooks.RequestIdInjective | sdks/python/perf_harness/drive/scheduler.py:131-137 | Request ids of one run are distinct |
| RequestBooks.AdmittedKept | sdks/python/perf_harness/drive/scheduler.py:127-145 | Admitting a request keeps ledger and counters in agreement |
| RequestBooks.StartedKept | sdks/python/perf_harness/drive/scheduler.py:61-66 | So does dispatching it |
| RequestBooks.EndedKept | sdks/python/perf_harness/drive/scheduler.py:87-115 | So does finishing it, whether it is judged or the judge fails; exactly one operation run is added |
| RequestBooks.StoppedKept | sdks/python/perf_harness/drive/scheduler.py:71-98 | So does interrupting it, with its own operation run |
| RequestBooks.SettledKept | sdks/python/perf_harness/drive/scheduler.py:117-125 | So does forgetting an ended fire |
| RequestBooks.KeptReduces | sdks/python/perf_harness/metric/reduce.py:74-78 | A kept ledger can be reduced over any window: no operation run is missing and no request finishes before it is dispatched |
| RequestBooks.InflightIsOpen | sdks/python/perf_harness/observe/base.py:35-48 | Once all admitted requests are dispatched, the reservations are the requests in flight now |
| SchedulerDriver.Driver.constructor | sdks/python/perf_harness/drive/scheduler.py:49-58 | Starts with an empty ledger and a controller at the first stage |
| SchedulerDriver.Driver.Perform | sdks/python/perf_harness/drive/scheduler.py:61-241 | The driver, whatever stretch it runs next, moves as the steps say and keeps every invariant |
| SchedulerDriver.Driver.Turn | sdks/python/perf_harness/drive/scheduler.py:148-198 | One turn of the loop: advance, failures, end, breaker, pace, send |
| SchedulerDriver.Driver.Serve | sdks/python/perf_harness/drive/scheduler.py:171-191 | Follows the rate and room and sends a request if one is due, which is when `SchedulerLaws.SendsExactlyWhenDue` says |
| SchedulerDriver.Driver.Offer | sdks/python/perf_harness/drive/scheduler.py:127-145 | Takes a request unless the stage has ended or filled up meanwhile |
| SchedulerDriver.Driver.FireStart | sdks/python/perf_harness/drive/scheduler.py:61-66 | A fire's first stretch marks the dispatch and advances the controller |
| SchedulerDriver.Driver.FireEnd | sdks/python/perf_harness/drive/scheduler.py:80-115 | A fire's end gives the slot back, records the call, and enters the verdict or the judge's failure |
| SchedulerDriver.Driver.FireStop | sdks/python/perf_harness/drive/scheduler.py:71-98 | A cancelled fire gives the slot back and records the actual call |
| SchedulerDriver.Driver.Settle | sdks/python/perf_harness/drive/scheduler.py:117-125 | The done callback forgets the fire |
| SchedulerDriver.Driver.WindDown | sdks/python/perf_harness/drive/scheduler.py:199-206 | Freezes the measured start and end, the reason and the requests in flight before draining |
| SchedulerDriver.Driver.CleanUp | sdks/python/perf_harness/drive/scheduler.py:209-220 | Freezes the load facts if the loop did not, then marks what is to be cancelled |
| SchedulerDriver.Driver.Leave | sdks/python/perf_harness/drive/scheduler.py:221-241 | Takes the final census, says whether fires were cut, and records the cooldown window with the way it ended |
| SchedulerRuns.NextSane | sdks/python/perf_harness/drive/scheduler.py:61-243 | Every step of driver or fires keeps ledger, controller, pace, bounds and phase in agreement |
| SchedulerRuns.RunsSane | sdks/python/perf_harness/drive/scheduler.py:61-243 | So they agree in every reachable state of every interleaving |
| SchedulerRuns.LedgerConserved | sdks/python/perf_harness/drive/scheduler.py:61-145 | Always: in flight are the open requests; sent is in flight plus judged plus lost to a judge plus interrupted; one operation run per ended request and none for an open one; completed and errors are the evaluations and the failed ones |
| SchedulerRuns.LeftIsOver | sdks/python/perf_harness/drive/scheduler.py:209-241 | On leaving nothing is in flight, every request is finished or interrupted, and the stop counts the latter |
| SchedulerRuns.AdmissionIsSafe | sdks/python/perf_harness/drive/scheduler.py:127-191 | A request is admitted exactly in a turn that finds no failure, no end and no tripped breaker, with one due and room under the cap at both readings; the admission seen is recorded |
| SchedulerRuns.ShutForGood | sdks/python/perf_harness/drive/scheduler.py:107-112 | Once a judge has failed, the controller has ended or the loop was left, no request is ever admitted again |
| SchedulerRuns.InflightWithinPeak | sdks/python/perf_harness/drive/load.py:114-116 | In flight never exceeds the plan's peak, though ramps lower the cap, and each admission saw fewer than the cap |
| SchedulerRuns.BreakerWasRight | sdks/python/perf_harness/drive/scheduler.py:160-170 | The snapshot of a breaker stop meets the minimum count and the threshold |
| SchedulerRuns.TurnsEndForAReason | sdks/python/perf_harness/drive/scheduler.py:156-170 | A turn leaves the loop for a failure, else the planned end, else the breaker, and for nothing else |
| SchedulerRuns.RunsBelow | sdks/python/perf_harness/drive/controller.py:55-64 | No admission of a run sees a rate above the plan's maximum, on a ramp neither |
| SchedulerRuns.RunsHaveNoBurst | sdks/python/perf_harness/drive/scheduler.py:171-191 | With constant arrivals no interval of any run admits more than one request and the plan's maximum rate allow |
| SchedulerLaws.SendsExactlyWhenDue | sdks/python/perf_harness/drive/scheduler.py:148-191 | With constant arrivals a turn of any run sends a request exactly if no judge has failed, the plan has not ended, the errors are below the threshold, there is room at both readings before the stage ends, and the time since the last request times the present rate is at least one: the first goes at once, an infinite rate keeps none back, a rate of zero all |
| SchedulerLaws.SentRecord | sdks/python/perf_harness/drive/scheduler.py:127-145 | A request sent takes a slot and enters the ledger with its case and facets, dated when it became due, or this turn if the slots had been full |
| SchedulerLaws.SentPace | sdks/python/perf_harness/drive/scheduler.py:182-189 | It puts the next one an interval of the present rate later, or the drawn gap if arrivals are not constant |
| SchedulerLaws.UnsentPace | sdks/python/perf_harness/drive/scheduler.py:171-181 | A turn that sends nothing keeps what is due unless the rate changed or room came back |
| SchedulerLaws.RateChangePace | sdks/python/perf_harness/drive/scheduler.py:171-178 | A change of rate moves what is due to an interval of the new rate after the last request, not into the past |
| SchedulerLaws.TrippedMeans | sdks/python/perf_harness/drive/scheduler.py:160-164 | The breaker trips exactly at enough judged requests of which at least the given part failed |
| SchedulerLaws.BreakerStops | sdks/python/perf_harness/drive/scheduler.py:160-170 | A turn that finds that, and nothing to go before, stops the load there and then with a snapshot of what it saw |
| SchedulerLaws.DeadlineStops | sdks/python/perf_harness/drive/scheduler.py:157-206 | At its planned end the load stops for that reason, with what is in flight then |
| SchedulerLaws.CleanupStops | sdks/python/perf_harness/drive/scheduler.py:209-220 | Cleaning up before that stops it at once as aborted, not later than its stage, and waits for what is active |
| SchedulerLaws.LeavingRecords | sdks/python/perf_harness/drive/scheduler.py:221-241 | On leaving the cooldown runs from the end of the measurement, is complete exactly if nothing was cut, and says why if something was |
| SchedulerLaws.WhatCanHappen | sdks/python/perf_harness/drive/scheduler.py:61-241 | What each step waits for: a request to be dispatched, to be under way or to have ended, the driver for none being made |
| SchedulerLaws.DecimalIsWorth | sdks/python/perf_harness/drive/scheduler.py:131-131 | The number in a request id is its decimal number |
| SchedulerRuns.MeasurementWithin | sdks/python/perf_harness/drive/scheduler.py:199-217 | Once the loop is left, what was measured runs from the first hold, or from the end if none began, to the controller's end, within the planned duration |
| SchedulerRuns.FactsAreFrozen | sdks/python/perf_harness/drive/scheduler.py:199-220 | Once the loop is left neither draining nor cleanup ever rewrites what was measured, the stages, or why and with how many in flight it stopped |
| SchedulerRuns.MeasurementIsItsStages | sdks/python/perf_harness/engine.py:404-413 | The measurement window counts what the stage windows from the first hold on count together |
| SchedulerRuns.RecordsInOrder | sdks/python/perf_harness/drive/scheduler.py:61-143 | In every reachable state each request is scheduled, arrives, is dispatched and finishes in that order, and has the times its state says |
| SchedulerRuns.LeftReduces | sdks/python/perf_harness/engine.py:436-449 | What a run leaves tiles its whole time with stage windows and a cooldown closed then or later, can be reduced over each, and counts every event exactly once but those at the closing instant; all of them if and only if there is none then |
| SchedulerRuns.NothingLost | sdks/python/perf_harness/engine.py:437-438 | With the cooldown kept open past the end of the run every event is counted exactly once |
| ClosingInstant.BriefRun | sdks/python/perf_harness/engine.py:437-449 | A run that ends by its deadline and drains with nothing to cancel, whose only request finishes at the very instant the cooldown is closed |
| ClosingInstant.NothingLostIffLater | sdks/python/perf_harness/engine.py:437-449 | Over every plan, run and count, nothing is lost with the last window closed a delay after the run exactly when the delay is positive |
| WindowAssembly.Assemble | sdks/python/perf_harness/engine.py:401-480 | The windows of a run in their order: the measurement, the stages or what was driven, the cooldown, the drain and the observation |
| WindowAssembly.AssembleStages | sdks/python/perf_harness/engine.py:414-430 | The loop over the planned stages clips each at the end of the measurement and leaves out what begins later |
| WindowAssembly.FindDrainEnd | sdks/python/perf_harness/engine.py:451-451 | The drain lasts until the latest finish |
| WindowAssembly.ClippedTile | sdks/python/perf_harness/engine.py:414-430 | The clipped stages tile the time up to the end of the measurement |
| WindowAssembly.DrainIsLatest | sdks/python/perf_harness/engine.py:451-451 | No request finishes after the end of the drain |
| WindowAssembly.UndrivenTiles | sdks/python/perf_harness/engine.py:414-463 | Without a drive stages and drain tile the time from zero exactly unless something finishes after a measurement that outlasted the plan; no finish after the measurement is left out |
| WindowAssembly.DrivenSpans | sdks/python/perf_harness/engine.py:431-449 | With a drive the windows after the measurement are the controller's and the cooldown |
| WindowAssembly.RunIsCounted | sdks/python/perf_harness/engine.py:401-492 | For every run of the scheduler: over its assembled and reduced stage and cooldown windows each count adds up to the requests it happened to, once the cooldown is kept open past the end |
| WindowAssembly.AggregateRun | sdks/python/perf_harness/engine.py:401-492 | Assembles the windows and reduces over each, with caveats from the same windows; possible exactly when no operation run is missing |
| WindowAssembly.ReduceLeft | sdks/python/perf_harness/engine.py:401-492 | For every run of the scheduler that has left this succeeds, and over its windows no request is lost or counted twice |
| WindowLaws.DrivenMeasurement | sdks/python/perf_harness/engine.py:401-435 | The measurement runs from the first hold to the end of the load, complete if the load met its deadline and some hold its length, limited for as long as its holds were |
| WindowLaws.HoldLimitedAdds | sdks/python/perf_harness/engine.py:435-435 | Limited time adds up over hold windows only |
| WindowLaws.DrivenRest | sdks/python/perf_harness/engine.py:436-480 | Then come the driven windows, the last kept open to the end of the cooldown if that is known, a cooldown by itself otherwise, and the observation, complete if nothing was cut short |
| WindowLaws.UndrivenMeasurement | sdks/python/perf_harness/engine.py:401-413 | Without a drive the measurement starts at zero and is complete if it lasted as planned |
| WindowLaws.UndrivenOrder | sdks/python/perf_harness/engine.py:414-480 | Between measurement and observation come stages, cooldown and drain |
| WindowLaws.StageIsClipped | sdks/python/perf_harness/engine.py:414-430 | Each stage begun before the end of the measurement has a window up to that end, at its planned level |
| WindowLaws.ClippedAreStarted | sdks/python/perf_harness/engine.py:417-418 | No window begins at or after that end |
| WindowLaws.UndrivenDrain | sdks/python/perf_harness/engine.py:451-463 | A drain is there exactly if something finished later, and lasts until just after the latest |
| WindowLaws.HandedOver | sdks/python/perf_harness/drive/scheduler.py:199-241 | What a scheduler hands over: its windows at their planned levels, its cooldown, whether it met its deadline and cut anything |
| WindowLaws.LimitedSpansAre | sdks/python/perf_harness/metric/reduce.py:92-97 | The caveats look at the limited time of those same windows |
| InflightSweep.Sweep | sdks/python/perf_harness/metric/reduce.py:122-142 | The sweep's peak is the largest count just before the window or at any instant in it, and its end count is what is open when the window ends |
| InflightSweep.EventsCountAt | sdks/python/perf_harness/metric/reduce.py:122-139 | The events up to an instant account for exactly the requests in flight at it |
| InflightSweep.PrefixMaxIsPeak | sdks/python/perf_harness/metric/reduce.py:139-142 | The largest running sum over sorted events is the naive maximum over all instants |
| InflightSweep.WindowsHandOver | sdks/python/perf_harness/metric/reduce.py:122-142 | Adjacent windows hand over exactly |
| Reduction.ReduceRequests | sdks/python/perf_harness/metric/reduce.py:60-172 | All statistics of a slice over a window, told from the records by the `StatisticsLaws` rows below; fails exactly when a finished request's operation run is missing |
| Reduction.LatencyIsRight | sdks/python/perf_harness/metric/reduce.py:76-81 | The latency distribution is over as many durations as requests finished, and its percentiles are their nearest ranks in order |
| Reduction.ErrorRateIsShare | sdks/python/perf_harness/metric/reduce.py:157-158 | The error rate is a share between zero and one, and times the finished requests it is the number in the error buckets |
| Reduction.OutcomesComplete | sdks/python/perf_harness/metric/reduce.py:75-78 | If no operation run is missing, each finished request contributes exactly one outcome |
| Distributions.PercentileIsNearestRank | sdks/python/perf_harness/metric/reduce.py:175-178 | A percentile is the least of the values that at least that fraction of them do not exceed |
| Distributions.NearestRankUnique | sdks/python/perf_harness/metric/reduce.py:175-178 | There is one such value, whatever the order of the values |
| Distributions.PercentilesAscend | sdks/python/perf_harness/metric/reduce.py:175-178 | A larger fraction gives no smaller percentile |
| Distributions.MeanWithin | sdks/python/perf_harness/metric/reduce.py:110-118 | The mean lies between any bounds of the values |
| Distributions.DistributionIsRight | sdks/python/perf_harness/metric/reduce.py:110-118 | The three percentiles of a summary are nearest ranks in order |
| StatisticsLaws.CountsAre | sdks/python/perf_harness/metric/reduce.py:68-98 | Each of the eight counts is the number of records of the slice with the times, state and verdict it stands for |
| StatisticsLaws.RunsThere | sdks/python/perf_harness/metric/reduce.py:74-78 | Statistics can be had exactly if each finished request of the slice dispatched in the window has an operation run |
| StatisticsLaws.InflightIs | sdks/python/perf_harness/metric/reduce.py:119-142 | In flight at the end are those dispatched before it and not finished before; the peak is the largest number just before the window or at an instant in it |
| StatisticsLaws.RatesAre | sdks/python/perf_harness/metric/reduce.py:143-167 | Throughput, arrival, dispatch and success rate times the length of the window are the numbers finished, due, dispatched, and finished with a good verdict in it |
| StatisticsLaws.ErrorRateIs | sdks/python/perf_harness/metric/reduce.py:157-157 | The error rate times the requests dispatched in the window and finished is how many of them had no good verdict |
| StatisticsLaws.BucketsAre | sdks/python/perf_harness/metric/reduce.py:144-148 | Each bucket holds the finished requests whose verdict is missing or names that kind of error |
| StatisticsLaws.CaveatsAre | sdks/python/perf_harness/metric/reduce.py:94-105 | Each caveat is there exactly on its own grounds: saturation or a limited window that meets this one, drops, interrupted or unjudged requests, fewer than thirty |
| StatisticsLaws.LatencyIs | sdks/python/perf_harness/metric/reduce.py:74-81 | The latency is the distribution, mean and nearest ranks, of the durations of the last runs of the finished requests dispatched in the window |
| StatisticsLaws.MetricIs | sdks/python/perf_harness/metric/reduce.py:104-118 | Every other measured number has the distribution of its values over those runs, where there are any |
| StatisticsLaws.LagIs | sdks/python/perf_harness/metric/reduce.py:109-118 | The scheduler's lag is the distribution of how many milliseconds late each request due in the window arrived |
| StatisticsLaws.SumsAdd | sdks/python/perf_harness/metric/reduce.py:113-113 | A sum does not depend on how the numbers are grouped |
| StatisticsLaws.SlicesThereAre | sdks/python/perf_harness/engine.py:481-492 | A window has a slice for each case and each facet value that any request has, and no other |
| Reduction.CollectBreakdown | sdks/python/perf_harness/metric/reduce.py:74-148 | Each finished request that did not succeed falls into one bucket |
| Reduction.TilingConserves | sdks/python/perf_harness/metric/reduce.py:68-98 | Windows that tile a stretch count every event in it once, for each count |
| Reduction.SlicesConserve | sdks/python/perf_harness/metric/reduce.py:68-73 | Slices along an axis add up to the requests that carry a label on it, whatever is counted |
| Reduction.Aggregate | sdks/python/perf_harness/engine.py:481-492 | Every window gets its whole, its slice for each case and its slice for each value of each facet, all with full statistics; possible exactly when no operation run is missing |
| Reduction.WindowsConserve | sdks/python/perf_harness/engine.py:481-492 | Summed over tiling windows each count is the number of requests whose event lies in the stretch |
| Reduction.CasesConserve | sdks/python/perf_harness/engine.py:483-487 | Within a window the case slices add up to the whole for every count |
| Reduction.FacetsConserve | sdks/python/perf_harness/engine.py:488-492 | Within a window a facet's slices add up to the requests that carry the facet |
| Reduction.InflightConserves | sdks/python/perf_harness/metric/reduce.py:122-142 | The requests in flight when a window ends are those of its case slices together |
| Reduction.WindowsHandOverInflight | sdks/python/perf_harness/metric/reduce.py:122-142 | A window starts with exactly what the one before it left in flight |
| Reduction.ErrorsConserve | sdks/python/perf_harness/metric/reduce.py:143-148 | The error buckets hold as many requests as finished without success |
| RateGates.RateGate.TryAcquire | sdks/python/eval_harness/schedule/ratelimit.py:36-46 | One pass of the entry loop sleeps exactly before the end of the pause, enters exactly if that is over and fewer are in flight than the limit, and else waits |
| RateGates.RateGate.Release | sdks/python/eval_harness/schedule/ratelimit.py:48-51 | Gives a slot back |
| RateGates.RateGate.OnSuccess | sdks/python/eval_harness/schedule/ratelimit.py:53-58 | Raises the limit by one after a full round of successes |
| RateGates.RateGate.OnError | sdks/python/eval_harness/schedule/ratelimit.py:60-63 | Halves the limit and pauses entries |
| RateGates.SuccessesGrow | sdks/python/eval_harness/schedule/ratelimit.py:53-58 | s successes reach the largest limit they pay for, up to the maximum, and leave the rest as the streak |
| RateGates.LimitReached | sdks/python/eval_harness/schedule/ratelimit.py:53-58 | A limit is reached exactly when that many successes have come in |
| RateGates.ErrorsHalve | sdks/python/eval_harness/schedule/ratelimit.py:60-63 | k errors give the limit halved k times, but not below the minimum |
| GateProtocol.RunsSound | sdks/python/eval_harness/schedule/ratelimit.py:36-63 | Under every interleaving the count, the limit, the lock and the waiters stay in agreement |
| GateProtocol.GateCountsHolders | sdks/python/eval_harness/schedule/reconcile.py:215-242 | In flight are exactly the holders, limit and count stay within the widest bounds the arguments set, and the clip at zero never acts |
| GateProtocol.LimitKeptIff | sdks/python/eval_harness/schedule/ratelimit.py:18-63 | The limit stays between minimum and maximum in every run exactly when it begins there |
| GateProtocol.SomeoneMoves | sdks/python/eval_harness/schedule/ratelimit.py:36-51 | While anyone is inside someone can move, and every waiter has a holder |
| GateProtocol.ReleaseWakesAll | sdks/python/eval_harness/schedule/ratelimit.py:48-51 | A release wakes every waiter |
| GateProtocol.PauseRespected | sdks/python/eval_harness/schedule/ratelimit.py:38-46 | No call enters before the pause after an error is over, whatever happens in between |
| GateProtocol.EntersIffRoom | sdks/python/eval_harness/schedule/ratelimit.py:36-46 | In every reachable state a worker whose turn it is enters exactly if the pause is over and there are fewer holders than the limit, sleeps exactly before that, and else waits |
| GateProtocol.PauseIsLastError | sdks/python/eval_harness/schedule/ratelimit.py:60-63 | The pause in force is that of the last error, if there was one |
| GateProtocol.LimitMoves | sdks/python/eval_harness/schedule/ratelimit.py:53-63 | The limit rises by one with the success that completes a round, halves with an error within the minimum, and nothing else moves it |
| GateProtocol.MovingCanStep | sdks/python/eval_harness/schedule/ratelimit.py:36-51 | Whoever is on its way has a step to take, and nobody else |
| GateProtocol.NeverStuckIffLimits | sdks/python/eval_harness/schedule/ratelimit.py:18-63 | No run ever comes to a standstill exactly when the first limit and the minimum are at least one |
| Worksheets.Worksheet.constructor | sdks/python/eval_harness/worksheet/worksheet.py:129-165 | Builds the rows of every arm and case over shared provisions |
| Worksheets.BuiltIsPending | sdks/python/eval_harness/worksheet/worksheet.py:129-165 | Exactly the rows of every arm with every case and the provisions they share, all pending |
| ReconcileLaws.BuiltRowIs | sdks/python/eval_harness/worksheet/worksheet.py:129-165 | Each arm has a row for each case, with the fields of both and all cells pending; of rows with one key the last stands |
| ReconcileLaws.BuiltSheetIs | sdks/python/eval_harness/worksheet/worksheet.py:129-146 | Beside its rows a worksheet is built from the experiment's own fields, with every provision pending |
| Worksheets.Worksheet.ProvisionsPending | sdks/python/eval_harness/worksheet/worksheet.py:169-172 | Exactly the provisions that are not there |
| Worksheets.Worksheet.RowsNeedingSolve | sdks/python/eval_harness/worksheet/worksheet.py:174-185 | Exactly the rows with a provision and no answer |
| Worksheets.Worksheet.ScoresNeedingFill | sdks/python/eval_harness/worksheet/worksheet.py:187-197 | Exactly the missing scores of answered rows, whose missing cells become explicit |
| Worksheets.Worksheet.IsComplete | sdks/python/eval_harness/worksheet/worksheet.py:199-202 | No gap of any kind; score cells are filled in only when the other gaps are none |
| Worksheets.CompleteMeans | sdks/python/eval_harness/worksheet/worksheet.py:169-202 | Complete is: every provision there, every answered row with all its scores, every other row without any provision under its key |
| Worksheets.FillGapsAre | sdks/python/eval_harness/worksheet/worksheet.py:187-197 | Missing are the scores of answered rows without a cell, or with one that did not succeed |
| Worksheets.DefaultsArePending | sdks/python/eval_harness/worksheet/worksheet.py:187-197 | Looking for them gives answered rows a pending cell for each score they lack and changes nothing else |
| Worksheets.AllOkIffComplete | sdks/python/eval_harness/worksheet/worksheet.py:174-202 | Every provision, answer and metric cell is there exactly when the worksheet is complete and no unanswered row lacks a provision |
| Checkpoints.OrphanIsOverlooked | sdks/python/eval_harness/worksheet/worksheet.py:178-182 | A worksheet that counts as complete with an unanswered row, which a checkpoint can hold |
| Worksheets.AskingChangesNothing | sdks/python/eval_harness/worksheet/worksheet.py:187-202 | Asking whether a worksheet is complete does not change the answer |
| Worksheets.Worksheet.SetProvisionOk | sdks/python/eval_harness/worksheet/worksheet.py:206-208 | Enters a provision |
| Worksheets.Worksheet.SetProvisionFailed | sdks/python/eval_harness/worksheet/worksheet.py:210-212 | Enters a provision's failure |
| Worksheets.Worksheet.SetScore | sdks/python/eval_harness/worksheet/worksheet.py:214-215 | Enters a score |
| Worksheets.Worksheet.SetScoreFailed | sdks/python/eval_harness/worksheet/worksheet.py:217-218 | Enters a score's failure |
| Checkpoints.ResultBack | sdks/python/eval_harness/model/sample.py:43-62 | Reading a metric result's record gives it back |
| Checkpoints.SolveBack | sdks/python/eval_harness/worksheet/checkpoint.py:45-74 | Reading an answer cell's record gives it back |
| Checkpoints.ScoresBack | sdks/python/eval_harness/worksheet/checkpoint.py:53-79 | Reading the score cells' records gives them back |
| Checkpoints.RowBack | sdks/python/eval_harness/worksheet/checkpoint.py:31-94 | Reading a row's record gives the row back |
| Checkpoints.CheckpointBack | sdks/python/eval_harness/worksheet/checkpoint.py:97-157 | A checkpoint gives back the worksheet saved, in whatever order its parts were written |
| CheckpointLaws.SavedRecords | sdks/python/eval_harness/worksheet/checkpoint.py:31-118 | A checkpoint is one meta record with each provision once, then one record for each row, with the documented field names and values |
| CheckpointLaws.RowReads | sdks/python/eval_harness/worksheet/checkpoint.py:65-94 | What a row record must hold, and what its missing fields read as |
| CheckpointLaws.SeedReads | sdks/python/eval_harness/worksheet/checkpoint.py:80-94 | The same for what identifies a row, with its defaults |
| CheckpointLaws.SolveReads | sdks/python/eval_harness/worksheet/checkpoint.py:65-74 | The same for an answer cell |
| CheckpointLaws.ScoreReads | sdks/python/eval_harness/worksheet/checkpoint.py:75-79 | The same for a score cell: a missing, null or empty result is none |
| CheckpointLaws.ResultReads | sdks/python/eval_harness/model/sample.py:53-62 | The same for a metric result |
| CheckpointLaws.RowsAreEntered | sdks/python/eval_harness/worksheet/checkpoint.py:126-136 | The rows are what the row records put, in turn |
| CheckpointLaws.EnteredStands | sdks/python/eval_harness/worksheet/checkpoint.py:126-136 | The last record of a key stands |
| CheckpointLaws.EnteredRefused | sdks/python/eval_harness/worksheet/checkpoint.py:126-136 | One unreadable record is enough to refuse all |
| CheckpointLaws.MetaFound | sdks/python/eval_harness/worksheet/checkpoint.py:126-138 | The last meta record stands |
| CheckpointLaws.MetaReads | sdks/python/eval_harness/worksheet/checkpoint.py:137-157 | What the meta record must hold, and what its missing fields read as |
| Checkpoints.ArtifactsBack | sdks/python/eval_harness/worksheet/checkpoint.py:97-118 | Reading the artifacts' records gives them back in order |
| Checkpoints.Save | sdks/python/eval_harness/worksheet/checkpoint.py:97-118 | The records written are the worksheet's, artifacts included, and read back as it |
| Checkpoints.Load | sdks/python/eval_harness/worksheet/checkpoint.py:121-157 | The loading loop reads the last meta record and every row, and fails without a meta record or on an unreadable row |
| Attempts.Attempt | sdks/python/eval_harness/schedule/reconcile.py:215-242 | Calls until the first success, at most n times, and reports the last error; around each call it enters the gate, tells it how the call went, pauses twice as long each time if another try follows, and leaves |
| Attempts.AttemptsAreLegal | sdks/python/eval_harness/schedule/reconcile.py:215-242 | Under a gate those calls are a legal series of moves of one worker that ends outside: every slot is given back, once, after the gate was told how the call went |
| Attempts.AttemptCallsAre | sdks/python/eval_harness/schedule/reconcile.py:215-242 | What one attempt does at the gate, and that a failed one to be followed by another pauses before it leaves |
| Attempts.CallsInTurn | sdks/python/eval_harness/schedule/reconcile.py:223-242 | A series of attempts does so one after the other |
| Attempts.MovesAreSteps | sdks/python/eval_harness/schedule/ratelimit.py:36-63 | Each of the moves is a step the gate's protocol allows that worker and puts it where the series says |
| ReconcileEngine.Engine.Perform | sdks/python/eval_harness/schedule/reconcile.py:133-211 | The engine, whatever stretch it runs next, moves as the steps say and keeps every invariant |
| ReconcileEngine.Engine.Begin | sdks/python/eval_harness/schedule/reconcile.py:133-146 | A run starts with exactly the provisions that are missing |
| ReconcileEngine.Engine.Provision | sdks/python/eval_harness/schedule/reconcile.py:148-159 | One provision's outcome goes into its cell |
| ReconcileEngine.Engine.StartRow | sdks/python/eval_harness/schedule/reconcile.py:161-185 | A row starts by stopping, solving or scoring what its cells still need |
| ReconcileEngine.Engine.SolveRow | sdks/python/eval_harness/schedule/reconcile.py:165-184 | An answer's outcome goes into its cell and decides what is left to score |
| ReconcileEngine.Engine.ScoreOne | sdks/python/eval_harness/schedule/reconcile.py:198-211 | The cell becomes the metric's score of the sample if it applies and the call succeeds, its abstention if it does not apply, the error if the call fails, and a failure if the metric is unknown |
| ReconcileEngine.Engine.Flush | sdks/python/eval_harness/worksheet/checkpoint.py:160-192 | A checkpoint is written all at once |
| ReconcileSteps.CompleteIsFilled | sdks/python/eval_harness/worksheet/worksheet.py:199-202 | A complete worksheet whose cells hold what producers return can only be the fully filled one |
| ReconcileSteps.UnscoredHolds | sdks/python/eval_harness/schedule/reconcile.py:180-185 | The list to score holds exactly the missing ones |
| ReconcileSteps.UnscoredOnce | sdks/python/eval_harness/schedule/reconcile.py:180-185 | With distinct names it holds each of them once |
| ReconcileRuns.NextSound | sdks/python/eval_harness/schedule/reconcile.py:133-211 | Every step, failure, save, crash and restart keeps cells canonical and checkpoints recoverable |
| ReconcileRuns.NeverRefused | sdks/python/eval_harness/worksheet/checkpoint.py:97-157 | Whatever was saved when, a process that restarts after a crash can always read the checkpoint it finds |
| ReconcileRuns.Confluent | sdks/python/eval_harness/schedule/reconcile.py:133-211 | Any two complete worksheets reached from one experiment are identical |
| ReconcileLaws.RunsFillRight | sdks/python/eval_harness/schedule/reconcile.py:148-211 | In every reachable worksheet each filled cell holds what its producer returns: provisions by key, answers by seed and provision, scores `score(sample)` where the metric applies and `na` where not, on a sample with the row's fields and answer; and in a complete one each cell is filled |
| ReconcileLaws.CrashGoesBack | sdks/python/eval_harness/worksheet/checkpoint.py:160-192 | A process that starts after a crash has exactly the worksheet last saved, or one built anew before the first save |
| ReconcileLaws.DiscardStartsAnew | sdks/python/eval_harness/worksheet/worksheet.py:129-165 | Discarding starts anew and leaves the checkpoint alone |
| ReconcileLaws.WhatCanHappen | sdks/python/eval_harness/schedule/reconcile.py:133-211 | A run begins when none is under way and the hash is the experiment's; calls come back well or badly in any order; the process may crash at any time |
| ReconcileLaws.AnswersCanCome | sdks/python/eval_harness/schedule/reconcile.py:161-180 | A row that is being answered has its provision, so its call may come back at any time |
| ReconcileRuns.DependencyOrder | sdks/python/eval_harness/schedule/reconcile.py:144-186 | Always: a score only with its answer, an answer only with its provision, complete exactly when every cell is there |
| ReconcileCells.FilledCellsStay | sdks/python/eval_harness/schedule/reconcile.py:161-211 | With distinct metric names a filled cell never changes until a restart |
| ReconcileCells.SomeCellChanges | sdks/python/eval_harness/schedule/reconcile.py:161-211 | With a repeated name and any row some run from the built worksheet overwrites a score with a failure |
| ReconcileCells.CellsNeverChangeIff | sdks/python/eval_harness/schedule/reconcile.py:161-211 | Filled cells never change before a restart, in any run of any producers, exactly when no metric is repeated or there are no rows |
| ReconcileRuns.SuccessfulRunCompletes | sdks/python/eval_harness/schedule/reconcile.py:133-211 | A run in which every call succeeds ends complete |
| ReconcileProgress.StepsTakeWork | sdks/python/eval_harness/schedule/reconcile.py:133-211 | Every step of the fill takes away from a work measure: provisions to settle, rows to start, answers and scores to enter |
| ReconcileProgress.NeverStalls | sdks/python/eval_harness/schedule/reconcile.py:133-211 | Every run under way has a step to take, and one whose call succeeds |
| ReconcileProgress.RunsEnd | sdks/python/eval_harness/schedule/reconcile.py:133-211 | A run takes no more steps than there was work, whatever fails and is saved in between |
| ReconcileProgress.RunToEnd | sdks/python/eval_harness/schedule/reconcile.py:133-211 | From any reachable state a run under way can be brought to its end by calls that succeed |
| ReconcileProgress.AlwaysCompletable | sdks/python/eval_harness/schedule/reconcile.py:133-211 | Every run, whatever failed or crashed in it, can be continued from where it stands to a complete worksheet by calls that succeed, with no crash and nothing discarded, if every metric is known |
| ReconcileProgress.CompletableIffKnown | sdks/python/eval_harness/schedule/reconcile.py:133-211 | Every run can be continued so exactly when every metric is known or there are no rows |
| ReconcileRuns.CompleteIffNothingFailed | sdks/python/eval_harness/schedule/reconcile.py:133-211 | A finished run is complete exactly if no cell's last try in it failed |
| ReconcileRuns.UnknownMetricNeverCompletes | sdks/python/eval_harness/schedule/reconcile.py:198-202 | With an unknown metric no worksheet with rows is ever complete |
| ReconcileRuns.CompleteStaysQuiet | sdks/python/eval_harness/schedule/reconcile.py:133-186 | Running a complete worksheet calls no producer and changes nothing |
| ReconcileCells.ListedOnceIffDistinct | sdks/python/eval_harness/schedule/reconcile.py:180-185 | No row's list holds a name twice exactly when the experiment's names are distinct |
| ReconcileCells.RepeatedNameOverwrites | sdks/python/eval_harness/schedule/reconcile.py:180-211 | A name listed twice is scored twice, and a failure then overwrites the score |
| LineFit.CountIsLength | sdks/python/perf_harness/analysis/base.py:34-34 | The count in the equations is the number of points |
| LineFit.DenominatorPositive | sdks/python/perf_harness/analysis/base.py:39-39 | The determinant is positive exactly when two x differ |
| LineFit.FitRefuses | sdks/python/perf_harness/analysis/base.py:32-41 | There is no fit exactly for fewer than two distinct x; the zero branch is dead |
| LineFit.FitIsNormal | sdks/python/perf_harness/analysis/base.py:42-43 | The residuals of the fit sum to zero, plain and weighted by x |
| LineFit.FitIsBest | sdks/python/perf_harness/analysis/base.py:29-43 | Every other line has a strictly larger sum of squared errors |
| Strings.SplitJoin | sdks/python/perf_harness/metric/family.py:177-177 | Splitting undoes joining parts without the separator |
| Strings.StripTrimmed | sdks/python/perf_harness/metric/family.py:177-179 | Stripping leaves exactly the trimmed texts alone |
| SeriesLaws.JoinSplit | sdks/python/perf_harness/metric/family.py:177-177 | Joining what was split gives the text back |
| SeriesLaws.StripCuts | sdks/python/perf_harness/metric/family.py:177-179 | Stripping takes droppable characters off both ends, all that are there and nothing else |
| SeriesLaws.OrderIsByCharacters | sdks/python/perf_harness/metric/family.py:92-92 | Keys are ordered at the first character where they differ |
| SeriesIds.ParseLabels | sdks/python/perf_harness/metric/family.py:176-179 | The loop that fills the label dictionary |
| SeriesIds.ParsedIsClean | sdks/python/perf_harness/metric/family.py:168-213 | Whatever is parsed has a clean name and clean labels |
| SeriesIds.SplitInvertsPrint | sdks/python/perf_harness/metric/family.py:84-180 | Splitting gives back what was printed exactly for clean names and labels |
| SeriesIds.IdsAreInjective | sdks/python/perf_harness/metric/family.py:84-93 | Two clean series have one id exactly when they are the same |
| SeriesIds.ParseInvertsPrint | sdks/python/perf_harness/metric/family.py:194-213 | Name, labels and statistic are recovered exactly for clean series, where a bare name also needs a plain statistic |
| SeriesIds.SplitOffInvertsAppend | sdks/python/perf_harness/metric/family.py:183-191 | The statistic comes off again exactly when there is an id and a statistic without dots |
| SeriesIds.RegroupingKeepsApart | sdks/python/perf_harness/engine.py:528-541 | Regrouping merges two sampled series only if names and overlaid labels agree, never when none overrides a probe's label |
| SeriesLaws.IdIs | sdks/python/perf_harness/metric/family.py:84-93 | An id is the bare name, or `name{key="value",...}` with its keys in order |
| SeriesLaws.LabelRead | sdks/python/perf_harness/metric/family.py:176-179 | The last piece that enters a label gives its value, stripped of blanks and then of quotes |
| SeriesLaws.LabelUnread | sdks/python/perf_harness/metric/family.py:176-179 | A label no piece enters is not there |
| SeriesLaws.SplitMeans | sdks/python/perf_harness/metric/family.py:168-180 | How any text splits, with or without braces, closed or not |
| SeriesLaws.ParseMeans | sdks/python/perf_harness/metric/family.py:194-213 | How any reference with a brace parses, with a statistic only right behind the closing one |
| SeriesLaws.ParseBareMeans | sdks/python/perf_harness/metric/family.py:212-213 | Without one the statistic is what is behind the last dot |
| SeriesLaws.SplitOffMeans | sdks/python/perf_harness/metric/family.py:183-191 | A statistic splits off at the last dot unless there is nothing before it or behind it |
| SeriesLaws.RegroupedIs | sdks/python/perf_harness/engine.py:528-541 | A sampled series is reported under family and name, its labels over the probe's |

## Left out

- HTTP, SSE, subprocess, Kubernetes and Prometheus access, runners, probes and their sampling: foreign calls.
- Configuration, interpolation, CLI and report rendering.
- Time series summaries.
- Floating-point rounding; times, rates and sums are reals. The `1e-12` tolerance of `arrival_time` is modelled.
- Poisson arrivals are admitted and accounted for, but outside the spacing bound.
- A second cancellation while the scheduler is cleaning up, and interrupts of the process inside a fire.
- Cancellation of a worker inside the gate's `acquire` or `release`; abandoning a call under way is modelled.
- Computes that swallow the errors of `get`, write facts or read facts otherwise.
- Runtime choice of exception text, detector findings streams and batch storage.
- Real identity of worksheet rows and provisions: they are values under their keys, so aliasing and dictionary order are not captured; gap queries return sets.
- JSON text and file replacement; a save is one atomic step on records. No step adds an artifact; those a worksheet has are saved and loaded.
- Checkpoints.Load: refuses a field whose value has another type than the one written, where the code reads it unchecked and would fail later or not at all; dates are texts.
- Attempts.Attempt: runs one worker's calls in a row; how those of many workers interleave at the gate is `GateProtocol`.
- ReconcileRuns.Confluent: takes a stored answer found by `fetch` to be the answer `solve` would give, as any reuse must.
- Ids and names of windows, and the reuse of drive state after its last window's end was moved.
- SchedulerRuns.RunsHaveNoBurst: speaks of the instants at which the loop turned, from which the recorded arrival differs by the time the turn takes.
