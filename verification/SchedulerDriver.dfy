/** The scheduler as the object it is: counters, records and pacing updated in place, one method per
    stretch of code between two points where control can change hands. */
module SchedulerDriver {
  import opened Wrappers
  import opened Records
  import opened RequestBooks
  import opened Reduction
  import opened LoadPlans
  import opened LoadControllers
  import opened Pacing
  import opened Schedulers
  import opened SchedulerRuns

  class Driver {
    const plan: LoadPlan
    const run: string
    const controller: LoadController
    var requests: seq<RequestRecord>
    var operationRuns: seq<OperationRun>
    var evaluations: map<string, Evaluation>
    var inflight: int
    var sent: int
    var completed: int
    var errors: int
    var failures: seq<nat>
    var active: set<nat>
    var due: Due
    var lastDispatch: Option<real>
    var lastRate: Option<Rate>
    var wasFull: bool
    var phase: Phase
    var measured: Option<real>
    var measuredFrom: Option<real>
    var stop: Stop
    var remaining: set<nat>
    var cooldown: Option<Cooldown>
    ghost var clock: real
    ghost var log: seq<Admission>

    ghost function Books(): Books
      reads this
    {
      RequestBooks.Books(run, Ledger(requests, operationRuns, evaluations), inflight, sent, completed, errors,
        failures, active)
    }

    ghost function Pace(): Pace
      reads this
    {
      Pacing.Pace(due, lastDispatch, lastRate, wasFull)
    }

    ghost function View(): State
      reads this, controller
    {
      State(plan, clock, controller.View(), Books(), Pace(), log, phase, measured, measuredFrom, stop, remaining,
        cooldown)
    }

    constructor (plan: LoadPlan, run: string)
      requires plan.Valid()
      ensures View() == Begin(plan, run) && fresh(controller)
    {
      this.plan, this.run := plan, run;
      controller := new LoadController(plan);
      requests, operationRuns, evaluations := [], [], map[];
      inflight, sent, completed, errors := 0, 0, 0, 0;
      failures, active := [], {};
      due, lastDispatch, lastRate, wasFull := At(0.0), None, None, false;
      phase, measured, measuredFrom, stop, remaining, cooldown := Looping, None, None, NOT_STOPPED, {}, None;
      clock, log := 0.0, [];
    }

    /** The event loop: run whichever stretch comes next. The driver stays sane. */
    method Perform(step: Step)
      requires Sane(View()) && Enabled(View(), step)
      modifies this, controller
      ensures View() == Next(old(View()), step)
      ensures Sane(View())
    {
      NextSane(View(), step);
      if step.Turn? || step.CleansUp? || step.Leaves? {
        Drive(step);
      } else {
        Fire(step);
      }
    }

    method Drive(step: Step)
      requires View().Shaped() && Enabled(View(), step) && (step.Turn? || step.CleansUp? || step.Leaves?)
      modifies this, controller
      ensures View() == Next(old(View()), step)
    {
      match step
      case Turn(elapsed, offered, arrived, caseId, facets, gap) => Turn(elapsed, offered, arrived, caseId, facets, gap);
      case CleansUp(at) => CleanUp(at);
      case Leaves(at) => Leave(at);
    }

    method Fire(step: Step)
      requires View().Shaped() && Enabled(View(), step) && !step.Turn? && !step.CleansUp? && !step.Leaves?
      modifies this, controller
      ensures View() == Next(old(View()), step)
    {
      match step
      case FireStarts(k, at) => FireStart(k, at);
      case FireEnds(k, at, outcome, facets, judgement) => FireEnd(k, at, outcome, facets, judgement);
      case FireStops(k, at, outcome) => FireStop(k, at, outcome);
      case FireSettles(k) => Settle(k);
    }

    /** One turn of the loop. */
    method Turn(elapsed: real, offered: real, arrived: real, caseId: string, facets: map<string, string>, gap: real)
      requires View().Shaped() && Enabled(View(), Step.Turn(elapsed, offered, arrived, caseId, facets, gap))
      modifies this, controller
      ensures View() == Schedulers.Turned(old(View()), Step.Turn(elapsed, offered, arrived, caseId, facets, gap))
    {
      Arrive(elapsed);
      if failures != [] {
        CleanUp(offered);
      } else if controller.end.Some? {
        WindDown(StopReason.Deadline, None);
      } else if plan.abortOnErrorRate.Some? && completed >= plan.breakerMinN
             && ErrorShare(errors, completed) >= plan.abortOnErrorRate.value {
        var snapshot := Snapshot(elapsed, completed, errors, ErrorShare(errors, completed),
          plan.abortOnErrorRate.value);
        controller.Abort(elapsed);
        WindDown(StopReason.ErrorRate, Some(snapshot));
      } else {
        Serve(Step.Turn(elapsed, offered, arrived, caseId, facets, gap));
      }
    }

    /** Bring the controller forward to this turn. */
    method Arrive(elapsed: real)
      requires View().Shaped()
      modifies this`clock, controller
      ensures View() == Schedulers.Arrive(old(View()), elapsed) && View().Shaped()
    {
      var _, cap := controller.Target(elapsed);
      controller.Advance(elapsed, inflight, inflight >= cap && IsDue(due, elapsed));
      clock := elapsed;
    }

    method WindDown(reason: StopReason, snapshot: Option<Snapshot>)
      modifies this`measured, this`measuredFrom, this`stop, this`phase
      ensures measured == controller.end && measuredFrom == MeasuredFrom(controller.View())
      ensures stop == Stop(reason, snapshot, inflight, 0, false) && phase == Draining
    {
      measured := controller.end;
      measuredFrom := if controller.holdStart.Some? then controller.holdStart else measured;
      stop := Stop(reason, snapshot, inflight, 0, false);
      phase := Draining;
    }

    /** Send a request if the rate and the room make one due. */
    method Serve(step: Step)
      requires View().Shaped() && step.Turn? && clock == step.elapsed
      modifies this
      ensures View() == Served(old(View()), step)
    {
      var rate, full := Repace(step.elapsed);
      if !full && rate != Finite(0.0) && IsDue(due, step.elapsed) {
        Offer(step, rate);
      }
    }

    /** Follow the present rate and room. */
    method Repace(elapsed: real) returns (rate: Rate, full: bool)
      requires View().Shaped() && clock == elapsed
      modifies this`due, this`lastRate, this`wasFull
      ensures Pace() == Repaced(old(View())) && rate == TargetOf(controller.View(), elapsed).0
        && full == Full(View(), elapsed)
    {
      var cap: int;
      rate, cap := controller.Target(elapsed);
      Retime(elapsed, rate);
      full := inflight >= cap;
      if wasFull && !full {
        due := Postponed(due, elapsed);
      }
      wasFull := full;
    }

    method Retime(elapsed: real, rate: Rate)
      modifies this`due, this`lastRate
      ensures Pace() == Retimed(old(Pace()), elapsed, rate)
    {
      if lastRate != Some(rate) {
        due := if lastDispatch.None? then At(elapsed) else Postponed(After(lastDispatch.value, rate), elapsed);
        lastRate := Some(rate);
      }
    }

    /** Take the request, unless the stage has ended or filled up meanwhile. */
    method Offer(step: Step, rate: Rate)
      requires View().Shaped() && step.Turn? && due.At? && clock == step.elapsed
        && rate == TargetOf(controller.View(), clock).0
      modifies this`requests, this`inflight, this`sent, this`active, this`clock, this`log, this`lastDispatch, this`due
      ensures View() == Offered(old(View()), step)
    {
      var _, cap := controller.Target(step.offered);
      if step.offered >= controller.Deadline() || inflight >= cap {
        clock := step.offered;
      } else {
        Accept(step, rate, cap);
      }
    }

    method Accept(step: Step, rate: Rate, cap: int)
      requires View().Shaped() && step.Turn? && due.At? && clock == step.elapsed
      requires rate == TargetOf(controller.View(), clock).0 && cap == TargetOf(controller.View(), step.offered).1
      modifies this`requests, this`inflight, this`sent, this`active, this`clock, this`log, this`lastDispatch, this`due
      ensures View() == Taken(old(View()), step)
    {
      var next := if plan.constantArrivals then After(step.elapsed, rate) else At(step.elapsed + step.gap);
      Take(Admission(step.elapsed, rate, cap, inflight), step.arrived, step.caseId, step.facets, next);
    }

    method Take(e: Admission, arrived: real, caseId: string, facets: map<string, string>, next: Due)
      requires due.At?
      modifies this`requests, this`inflight, this`sent, this`active, this`clock, this`log, this`lastDispatch, this`due
      ensures Books() == Admitted(old(Books()), old(due).time, arrived, caseId, facets)
      ensures Pace() == Pacing.Sent(old(Pace()), e.at, next)
      ensures log == old(log) + [e] && clock == arrived
    {
      Admit(arrived, caseId, facets);
      Space(e.at, next);
      log := log + [e];
      clock := arrived;
    }

    /** No catching up: the next send is due an interval after this one. */
    method Space(elapsed: real, next: Due)
      modifies this`lastDispatch, this`due
      ensures Pace() == Pacing.Sent(old(Pace()), elapsed, next)
    {
      lastDispatch := Some(elapsed);
      due := next;
    }

    /** Reserve a slot before there is a fire to use it. */
    method Admit(arrived: real, caseId: string, facets: map<string, string>)
      requires due.At?
      modifies this`requests, this`inflight, this`sent, this`active
      ensures Books() == Admitted(old(Books()), due.time, arrived, caseId, facets)
    {
      var n := |requests|;
      requests := requests + [NewRecord(RequestId(run, n), due.time, arrived, caseId, facets)];
      inflight, sent := inflight + 1, sent + 1;
      active := active + {n};
    }

    method FireStart(k: nat, at: real)
      requires View().Shaped() && InState(Books(), k, RequestState.Arrived)
      modifies this, controller
      ensures View() == old(View()).(books := Started(old(Books()), k, at), clock := at,
                                     control := Advanced(old(controller.View()), at, old(inflight), false))
      ensures k < |old(requests)| && requests == old(requests)[k := old(requests)[k].(
        dispatchedAt := Some(at), state := RequestState.Dispatched, operationRunId := Some(old(requests)[k].id))]
    {
      requests := requests[k := StartRecord(requests[k], at)];
      controller.Advance(at, inflight, false);
      clock := at;
    }

    method FireEnd(k: nat, at: real, outcome: Outcome, facets: map<string, string>, judgement: Judgement)
      requires InState(Books(), k, RequestState.Dispatched)
      modifies this`requests, this`inflight, this`operationRuns, this`failures, this`evaluations, this`completed,
        this`errors, this`clock
      ensures View() == old(View()).(books := Ended(old(Books()), k, at, outcome, facets, judgement), clock := at)
      ensures k < |old(requests)| && requests == old(requests)[k := old(requests)[k].(
        finishedAt := Some(at), state := RequestState.Finished, facets := old(requests)[k].facets + facets)]
      ensures operationRuns == old(operationRuns) + [OperationRun(old(requests)[k].id, outcome)]
      ensures inflight == old(inflight) - 1
      ensures judgement.Judged? ==>
        && evaluations == old(evaluations)[old(requests)[k].id := judgement.evaluation]
        && completed == old(completed) + 1 && errors == old(errors) + (if judgement.evaluation.ok then 0 else 1)
        && failures == old(failures)
      ensures judgement.JudgeFailed? ==>
        && evaluations == old(evaluations) && completed == old(completed) && errors == old(errors)
        && failures == old(failures) + [k]
    {
      Close(k, FinishRecord(requests[k], at, facets), outcome);
      Judge(k, judgement);
      clock := at;
    }

    /** Give the slot back and put the call on record. */
    method Close(k: nat, record: RequestRecord, outcome: Outcome)
      requires k < |requests|
      modifies this`requests, this`inflight, this`operationRuns
      ensures Books() == RequestBooks.Closed(old(Books()), k, record, outcome)
    {
      requests := requests[k := record];
      inflight := inflight - 1;
      operationRuns := operationRuns + [OperationRun(record.id, outcome)];
    }

    /** Enter the verdict, or publish that the judge failed. */
    method Judge(k: nat, judgement: Judgement)
      requires k < |requests|
      modifies this`failures, this`evaluations, this`completed, this`errors
      ensures Books() == Noted(old(Books()), k, judgement)
    {
      if judgement.JudgeFailed? {
        failures := failures + [k];
      } else {
        evaluations := evaluations[requests[k].id := judgement.evaluation];
        completed := completed + 1;
        errors := errors + if judgement.evaluation.ok then 0 else 1;
      }
    }

    method FireStop(k: nat, at: real, outcome: Outcome)
      requires InState(Books(), k, RequestState.Dispatched)
      modifies this`requests, this`inflight, this`operationRuns, this`clock
      ensures View() == old(View()).(books := Stopped(old(Books()), k, at, outcome), clock := at)
      ensures k < |old(requests)| && requests == old(requests)[k := old(requests)[k].(
        finishedAt := Some(at), state := RequestState.Interrupted, reason := Some("cancelled"))]
      ensures operationRuns == old(operationRuns) + [OperationRun(old(requests)[k].id, outcome)]
      ensures inflight == old(inflight) - 1
    {
      Close(k, StopRecord(requests[k], at), outcome);
      clock := at;
    }

    method Settle(k: nat)
      modifies this`active
      ensures View() == old(View()).(books := Settled(old(Books()), k))
      ensures active == old(active) - {k}
    {
      active := active - {k};
    }

    /** Freeze the load facts before cancelling what is still active. */
    method CleanUp(at: real)
      requires View().Shaped()
      modifies this`measured, this`measuredFrom, this`stop, this`remaining, this`phase, this`clock, controller
      ensures View() == CleanedUp(old(View()), at)
    {
      Freeze(at);
      remaining := active;
      phase := Cleaning;
      clock := at;
    }

    method Freeze(at: real)
      requires View().Shaped()
      modifies this`measured, this`measuredFrom, this`stop, controller
      ensures View() == Froze(old(View()), at)
    {
      if measured.None? {
        controller.Abort(at);
        measured := controller.end;
        measuredFrom := if controller.holdStart.Some? then controller.holdStart else measured;
        stop := Stop(StopReason.Aborted, None, inflight, 0, false);
      }
    }

    method Leave(at: real)
      requires measured.Some?
      modifies this`stop, this`cooldown, this`phase, this`clock
      ensures var interrupted := CountIf(requests, IsInterrupted());
        && stop == old(stop).(interrupted := interrupted, forceCancelled := interrupted > 0)
        && cooldown == Some(Cooldown(measured.value, at, interrupted == 0, DrainEndOf(interrupted, old(stop).reason)))
      ensures phase == Left && clock == at
    {
      var interrupted := CountIf(requests, IsInterrupted());
      cooldown := Some(Cooldown(measured.value, at, interrupted == 0, DrainEndOf(interrupted, stop.reason)));
      stop := stop.(interrupted := interrupted, forceCancelled := interrupted > 0);
      phase := Left;
      clock := at;
    }
  }
}
