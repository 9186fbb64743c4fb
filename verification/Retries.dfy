/** How often a task is executed, and what survives from one attempt to the next. */
module Retries {
  import opened Text
  import opened Items
  import opened Models
  import opened QueryPlanner
  import opened Normalizer
  import opened Execution
  import opened ScopeGuard
  import opened Workflow
  import opened Gateway
  import opened SqliteQueue
  import opened Repositories
  import opened Delivery
  import opened Outcomes

  // ---------- the retry budget ----------

  function Larger(a: int, b: int): int { if a < b then b else a }

  ghost predicate WithinBudget(s: Settings, jobs: Jobs) {
    forall i :: i in jobs ==> jobs[i].attempts <= Larger(0, s.maxAttempts - 1)
  }

  lemma StepWithinBudget(s: Settings, w: World, step: Step)
    requires WithinBudget(s, w.jobs)
    ensures WithinBudget(s, Next(s, w, step).jobs)
  {
    if step.Work? && step.pick.Some? && step.pick.value in w.tasks {
      TurnWithinBudget(s, w, step.turn, step.pick.value);
    }
  }

  lemma TurnWithinBudget(s: Settings, w: World, turn: Turn, item: Item)
    requires WithinBudget(s, w.jobs) && item in w.tasks
    ensures WithinBudget(s, RunOnce(s, turn, w, Some(item)).jobs)
  {
    var t := w.tasks[item];
    SettleWithinBudget(s, turn, w.(jobs := Take(w.jobs, Some(item), turn.started)), t.(status := Running),
        ExecuteTask(turn.env, t));
  }

  lemma SettleWithinBudget(s: Settings, turn: Turn, w: World, t: Payload, ran: Result<Report>)
    requires WithinBudget(s, w.jobs)
    ensures WithinBudget(s, Settle(s, turn, w, t, ran).jobs)
  {
  }

  lemma {:induction false} RunsStayWithinBudget(s: Settings, w: World, steps: seq<Step>)
    requires WithinBudget(s, w.jobs)
    ensures WithinBudget(s, Reached(s, w, steps).jobs)
  {
    if steps != [] {
      var front := steps[..|steps| - 1];
      RunsStayWithinBudget(s, w, front);
      StepWithinBudget(s, Reached(s, w, front), steps[|steps| - 1]);
    }
  }

  /** The executions a row may still use up. */
  function Left(s: Settings, j: Job): nat {
    if Live(j.state) then Larger(0, Larger(1, s.maxAttempts) - j.attempts) else 0
  }

  ghost function TotalLeft(s: Settings, jobs: Jobs): nat {
    if jobs == map[] then 0
    else
      var i :| i in jobs;
      Left(s, jobs[i]) + TotalLeft(s, jobs - {i})
  }

  lemma {:induction false} TotalLeftSplit(s: Settings, jobs: Jobs, i: Item)
    requires i in jobs
    ensures TotalLeft(s, jobs) == Left(s, jobs[i]) + TotalLeft(s, jobs - {i})
    decreases |jobs|
  {
    var k :| k in jobs && TotalLeft(s, jobs) == Left(s, jobs[k]) + TotalLeft(s, jobs - {k});
    if k != i {
      TotalLeftSplit(s, jobs - {k}, i);
      TotalLeftSplit(s, jobs - {i}, k);
      assert jobs - {k} - {i} == jobs - {i} - {k};
    }
  }

  lemma TotalLeftPut(s: Settings, jobs: Jobs, i: Item, j: Job)
    requires i in jobs
    ensures TotalLeft(s, jobs[i := j]) == TotalLeft(s, jobs) - Left(s, jobs[i]) + Left(s, j)
  {
    TotalLeftSplit(s, jobs, i);
    TotalLeftSplit(s, jobs[i := j], i);
    assert jobs[i := j] - {i} == jobs - {i};
  }

  lemma TimesOneMore(n: nat, m: nat)
    ensures (n + 1) * m == n * m + m
  {
  }

  lemma {:induction false} TotalLeftBound(s: Settings, jobs: Jobs)
    ensures TotalLeft(s, jobs) <= |jobs| * Larger(1, s.maxAttempts)
    decreases |jobs|
  {
    if jobs != map[] {
      var i :| i in jobs && TotalLeft(s, jobs) == Left(s, jobs[i]) + TotalLeft(s, jobs - {i});
      TotalLeftBound(s, jobs - {i});
      var n, each := |jobs - {i}|, Larger(1, s.maxAttempts);
      assert jobs.Keys == (jobs - {i}).Keys + {i};
      assert |jobs.Keys| == |(jobs - {i}).Keys| + 1;
      assert |jobs| == n + 1;
      TimesOneMore(n, each);
      assert |jobs| * each == n * each + each;
      assert Left(s, jobs[i]) <= each;
    }
  }

  lemma SettleSpends(s: Settings, turn: Turn, w: World, t: Payload, ran: Result<Report>)
    requires t.item in w.jobs && w.jobs[t.item].state.JobRunning?
    requires w.jobs[t.item].attempts <= Larger(0, s.maxAttempts - 1)
    ensures var after := Settle(s, turn, w, t, ran).jobs;
            && t.item in after && after == w.jobs[t.item := after[t.item]]
            && Left(s, after[t.item]) < Left(s, w.jobs[t.item])
  {
  }

  /** Every turn that takes a job uses up some of what is left. */
  lemma TurnSpends(s: Settings, turn: Turn, w: World, item: Item, saved: Report -> Saved)
    requires Agrees(w, saved) && WithinBudget(s, w.jobs) && IsPick(w.jobs, turn.started, Some(item))
    ensures TotalLeft(s, RunOnce(s, turn, w, Some(item)).jobs) < TotalLeft(s, w.jobs)
  {
    var taken, t := Take(w.jobs, Some(item), turn.started), w.tasks[item];
    var after := RunOnce(s, turn, w, Some(item)).jobs;
    if !t.status.Cancelled? {
      SettleSpends(s, turn, w.(jobs := taken), t.(status := Running), ExecuteTask(turn.env, t));
    }
    assert after == w.jobs[item := after[item]];
    TotalLeftPut(s, w.jobs, item, after[item]);
  }

  predicate Creates(step: Step) {
    step.Create? && Decide(step.parse, step.profile, step.request, step.generated).Queue?
  }

  /** The turns of a run that took a job. */
  function Turns(steps: seq<Step>): nat {
    if steps == [] then 0
    else
      var last := steps[|steps| - 1];
      Turns(steps[..|steps| - 1]) + if last.Work? && last.pick.Some? then 1 else 0
  }

  /** Without new tasks the worker takes boundedly many jobs: what the turns took and what is left
      over never exceed what was there. */
  lemma {:induction false} RunsDrain(s: Settings, w: World, steps: seq<Step>, saved: Report -> Saved)
    requires Agrees(w, saved) && WithinBudget(s, w.jobs) && AllowedRun(s, w, steps)
    requires forall i :: 0 <= i < |steps| ==> !Creates(steps[i])
    requires forall i :: 0 <= i < |steps| && steps[i].Work? ==> steps[i].turn.saved == saved
    ensures Turns(steps) + TotalLeft(s, Reached(s, w, steps).jobs) <= TotalLeft(s, w.jobs)
              <= |w.jobs| * Larger(1, s.maxAttempts)
  {
    TotalLeftBound(s, w.jobs);
    if steps != [] {
      var front, last := steps[..|steps| - 1], steps[|steps| - 1];
      AllowedPrefix(s, w, steps);
      RunsDrain(s, w, front, saved);
      RunsAgree(s, w, front, saved);
      RunsStayWithinBudget(s, w, front);
      if last.Work? && last.pick.Some? {
        TurnSpends(s, last.turn, Reached(s, w, front), last.pick.value, saved);
      }
    }
  }

  // ---------- the stored request ----------

  predicate SameRequest(t: Payload, u: Payload) { t.item == u.item && t.request == u.request && t.note == u.note }

  lemma SettleRequest(s: Settings, turn: Turn, w: World, t: Payload, ran: Result<Report>)
    ensures var tasks := Settle(s, turn, w, t, ran).tasks;
            t.item in tasks && tasks == w.tasks[t.item := tasks[t.item]]
            && (if ran.Raised? then SameRequest(tasks[t.item], t) else tasks[t.item].request == None)
  {
  }

  /** The request survives a turn if and only if the task is skipped as cancelled, or its attempt is
      refused by a check or meets an unreadable row, which is when the execution raises; a run that
      reports, even one that is to be retried, stores a task without its request. */
  lemma RequestSurvivesIff(s: Settings, turn: Turn, w: World, item: Item)
    requires item in w.tasks && w.tasks[item].item == item && w.tasks[item].request.Some?
    ensures var t, after := w.tasks[item], RunOnce(s, turn, w, Some(item)).tasks;
            && item in after && after == w.tasks[item := after[item]]
            && (SameRequest(after[item], t) <==> t.status.Cancelled? || AttemptRaises(turn.env, t))
            && (AttemptRaises(turn.env, t) <==> ExecuteTask(turn.env, t).Raised?)
  {
    var t := w.tasks[item];
    AttemptIff(turn.env, t);
    if t.status.Cancelled? {
      assert w.tasks == w.tasks[item := t];
    } else {
      SettleRequest(s, turn, w.(jobs := Take(w.jobs, Some(item), turn.started)), t.(status := Running),
          ExecuteTask(turn.env, t));
    }
  }

  predicate Recreates(step: Step, item: Item) {
    Creates(step) && Decide(step.parse, step.profile, step.request, step.generated).payload.item == item
  }

  /** Nothing creates the item anew, and each of its attempts is refused by a check or meets an unreadable
      row, and so raises. */
  ghost predicate OnlyRaises(s: Settings, w: World, steps: seq<Step>, item: Item) {
    && (forall i :: 0 <= i < |steps| ==> !Recreates(steps[i], item))
    && (forall i :: 0 <= i < |steps| && steps[i].Work? && steps[i].pick == Some(item) ==>
          RaisesOn(Reached(s, w, steps[..i]).tasks, steps[i].turn.env, item))
  }

  predicate RaisesOn(tasks: Tasks, env: Env, item: Item) {
    item in tasks ==> AttemptRaises(env, tasks[item])
  }

  lemma OnlyRaisesPrefix(s: Settings, w: World, steps: seq<Step>, item: Item)
    requires OnlyRaises(s, w, steps, item) && steps != []
    ensures var front, last := steps[..|steps| - 1], steps[|steps| - 1];
            && OnlyRaises(s, w, front, item) && !Recreates(last, item)
            && (last.Work? && last.pick == Some(item) ==> RaisesOn(Reached(s, w, front).tasks, last.turn.env, item))
  {
    var front := steps[..|steps| - 1];
    forall i | 0 <= i < |front| && front[i].Work? && front[i].pick == Some(item)
      ensures RaisesOn(Reached(s, w, front[..i]).tasks, front[i].turn.env, item)
    {
      assert front[..i] == steps[..i];
    }
  }

  /** A step on another item leaves this one's stored task alone. */
  lemma OtherStepsKeep(s: Settings, w: World, step: Step, item: Item)
    requires item in w.tasks && !Recreates(step, item) && forall i :: i in w.tasks ==> w.tasks[i].item == i
    requires step.Cancel? ==> step.item != item
    requires step.Work? ==> step.pick != Some(item)
    ensures item in Next(s, w, step).tasks && Next(s, w, step).tasks[item] == w.tasks[item]
  {
    if step.Work? && step.pick.Some? && step.pick.value in w.tasks && !w.tasks[step.pick.value].status.Cancelled? {
      var t := w.tasks[step.pick.value];
      SettleRequest(s, step.turn, w.(jobs := Take(w.jobs, step.pick, step.turn.started)), t.(status := Running),
          ExecuteTask(step.turn.env, t));
    }
  }

  lemma StepKeepsRequest(s: Settings, w: World, step: Step, item: Item)
    requires item in w.tasks && !Recreates(step, item) && forall i :: i in w.tasks ==> w.tasks[i].item == i
    requires step.Work? && step.pick == Some(item) ==>
        ExecuteTask(step.turn.env, w.tasks[item]).Raised? || w.tasks[item].request.None?
    ensures item in Next(s, w, step).tasks && Next(s, w, step).tasks[item].request == w.tasks[item].request
    ensures (step.Work? && step.pick == Some(item) ==> ExecuteTask(step.turn.env, w.tasks[item]).Raised?) ==>
              SameRequest(Next(s, w, step).tasks[item], w.tasks[item])
  {
    if step.Work? && step.pick == Some(item) {
      var t := w.tasks[item];
      if !t.status.Cancelled? {
        SettleRequest(s, step.turn, w.(jobs := Take(w.jobs, step.pick, step.turn.started)), t.(status := Running),
            ExecuteTask(step.turn.env, t));
      }
    } else if step != Cancel(item) {
      OtherStepsKeep(s, w, step, item);
    }
  }

  /** Any number of exceptions later, whatever else happens, the stored task still asks for the same. */
  lemma {:induction false} ExceptionsKeepRequest(s: Settings, w: World, steps: seq<Step>, item: Item,
      saved: Report -> Saved)
    requires Agrees(w, saved) && AllowedRun(s, w, steps) && item in w.tasks && OnlyRaises(s, w, steps, item)
    requires forall i :: 0 <= i < |steps| && steps[i].Work? ==> steps[i].turn.saved == saved
    ensures item in Reached(s, w, steps).tasks && SameRequest(Reached(s, w, steps).tasks[item], w.tasks[item])
  {
    if steps != [] {
      var front := steps[..|steps| - 1];
      AllowedPrefix(s, w, steps);
      OnlyRaisesPrefix(s, w, steps, item);
      ExceptionsKeepRequest(s, w, front, item, saved);
      RunsAgree(s, w, front, saved);
      if steps[|steps| - 1].Work? {
        AttemptIff(steps[|steps| - 1].turn.env, Reached(s, w, front).tasks[item]);
      }
      StepKeepsRequest(s, Reached(s, w, front), steps[|steps| - 1], item);
    }
  }

  lemma SamePlans(t: Payload, u: Payload)
    requires SameRequest(t, u)
    ensures WorkerPlans(t) == WorkerPlans(u)
  {
  }

  /** The plan list counted when the task was created is the one every later attempt rebuilds, as
      long as the attempts before it raised. */
  lemma RetriesRebuildPlans(s: Settings, w: World, steps: seq<Step>, saved: Report -> Saved,
                            parse: AddressParser, p: Profile, r: Request, generated: string)
    requires Decide(parse, p, r, generated).Queue? && Agrees(w, saved) && AllowedRun(s, w, steps)
    requires var d := Decide(parse, p, r, generated).payload;
             d.item in w.tasks && w.tasks[d.item] == d && OnlyRaises(s, w, steps, d.item)
    requires forall i :: 0 <= i < |steps| && steps[i].Work? ==> steps[i].turn.saved == saved
    ensures var d, tasks := Decide(parse, p, r, generated), Reached(s, w, steps).tasks;
            d.payload.item in tasks && WorkerPlans(tasks[d.payload.item]) == Ok(d.plans)
  {
    var d := Decide(parse, p, r, generated);
    ExceptionsKeepRequest(s, w, steps, d.payload.item, saved);
    SamePlans(Reached(s, w, steps).tasks[d.payload.item], d.payload);
    WorkerRebuildsPlans(parse, p, r, generated);
  }

  // ---------- the lost request ----------

  lemma NoRequestSucceeds(env: Env, t: Payload)
    requires t.request.None?
    ensures ExecuteTask(env, t) == Ok(NOTHING_FOUND)
  {
    assert WorkerSeeds(t) == [];
    NoSeedsSucceed(env, t.item.taskId, Baseline, 30, 1, 100);
  }

  /** The step creates the item anew, cancels it or takes it. */
  predicate Touches(step: Step, item: Item) {
    Recreates(step, item) || step == Cancel(item) || (step.Work? && step.pick == Some(item))
  }

  /** Retrying, without a request, and with a row: what the next turn will find. */
  ghost predicate AwaitsEmpty(w: World, item: Item) {
    && item in w.tasks && item in w.jobs && w.tasks[item].item == item
    && w.tasks[item].request.None? && w.tasks[item].status.Retrying?
  }

  /** The retry after a report: status retrying, request gone. */
  lemma ReportIsRetried(s: Settings, turn: Turn, w: World, t: Payload, r: Report)
    requires Recoverable(r) && MayRetry(s, w.jobs, t.item) && t.item in w.jobs
    ensures AwaitsEmpty(Settle(s, turn, w, t, Ok(r)), t.item)
  {
  }

  lemma FirstTurn(s: Settings, turn: Turn, w: World, item: Item)
    requires item in w.tasks && item in w.jobs && w.tasks[item].item == item
    requires !w.tasks[item].status.Cancelled? && MayRetry(s, w.jobs, item)
    requires AttemptFails(turn.env, w.tasks[item])
    ensures AwaitsEmpty(RunOnce(s, turn, w, Some(item)), item)
  {
    var t := w.tasks[item];
    AttemptIff(turn.env, t);
    ReportIsRetried(s, turn, w.(jobs := Take(w.jobs, Some(item), turn.started)), t.(status := Running),
        ExecuteTask(turn.env, t).value);
  }

  lemma SettleNothingFound(s: Settings, turn: Turn, w: World, t: Payload)
    ensures var after := Settle(s, turn, w, t, Ok(NOTHING_FOUND));
            && after.tasks == w.tasks[t.item := ResultPayload(t.item, NOTHING_FOUND)]
            && after.results == w.results[t.item := turn.saved(NOTHING_FOUND)]
            && after.jobs == MarkDone(w.jobs, t.item, turn.finished)
  {
  }

  /** The task is stored as a success that planned, found and saved nothing, and its row is done. */
  ghost predicate EndsEmpty(w: World, after: World, item: Item, saved: Report -> Saved) {
    && after.tasks == w.tasks[item := ResultPayload(item, NOTHING_FOUND)]
    && after.results == w.results[item := saved(NOTHING_FOUND)]
    && item in after.jobs && after.jobs[item].state.JobDone?
  }

  lemma LaterTurn(s: Settings, turn: Turn, w: World, item: Item)
    requires item in w.tasks && item in w.jobs && w.tasks[item].item == item
    requires !w.tasks[item].status.Cancelled? && w.tasks[item].request.None?
    ensures var after := RunOnce(s, turn, w, Some(item));
            EndsEmpty(w, after, item, turn.saved)
  {
    var t := w.tasks[item];
    NoRequestSucceeds(turn.env, t);
    SettleNothingFound(s, turn, w.(jobs := Take(w.jobs, Some(item), turn.started)), t.(status := Running));
  }

  lemma StepWaits(s: Settings, w: World, step: Step, item: Item, saved: Report -> Saved)
    requires Agrees(w, saved) && Delivery.Allowed(w, step) && AwaitsEmpty(w, item) && !Touches(step, item)
    requires step.Work? ==> step.turn.saved == saved
    ensures Agrees(Next(s, w, step), saved) && AwaitsEmpty(Next(s, w, step), item)
  {
    StepAgrees(s, w, step, saved);
    OtherStepsKeep(s, w, step, item);
  }

  /** From the state after the first `n` steps on. */
  lemma {:induction false} WaitsWithoutRequest(s: Settings, w: World, steps: seq<Step>, n: nat, item: Item,
      saved: Report -> Saved)
    requires AllowedRun(s, w, steps) && n <= |steps| && forall i :: n <= i < |steps| ==> !Touches(steps[i], item)
    requires Agrees(Reached(s, w, steps[..n]), saved) && AwaitsEmpty(Reached(s, w, steps[..n]), item)
    requires forall i :: 0 <= i < |steps| && steps[i].Work? ==> steps[i].turn.saved == saved
    ensures AwaitsEmpty(Reached(s, w, steps), item) && Agrees(Reached(s, w, steps), saved)
    decreases |steps|
  {
    if n == |steps| {
      assert steps[..n] == steps;
    } else {
      var front := steps[..|steps| - 1];
      assert front[..n] == steps[..n];
      AllowedPrefix(s, w, steps);
      WaitsWithoutRequest(s, w, front, n, item, saved);
      StepWaits(s, Reached(s, w, front), steps[|steps| - 1], item, saved);
    }
  }

  /** The turn executes the item, the attempt is admitted, every fetch fails, one of them recoverably,
      and retries are left. */
  ghost predicate FailsRecoverably(s: Settings, turn: Turn, w: World, item: Item) {
    && IsPick(w.jobs, turn.started, Some(item)) && MayRetry(s, w.jobs, item)
    && item in w.tasks && !w.tasks[item].status.Cancelled? && AttemptFails(turn.env, w.tasks[item])
  }

  lemma SettleRetriesWithout(s: Settings, turn: Turn, w: World, t: Payload, ran: Result<Report>)
    requires t.request.Some? && (ran.Ok? ==> Terminal(ran.value.status))
    ensures var after := Settle(s, turn, w, t, ran).tasks;
            && t.item in after
            && (after[t.item].status.Retrying? && after[t.item].request.None? <==>
                  ran.Ok? && Recoverable(ran.value) && MayRetry(s, w.jobs, t.item))
  {
  }

  /** A turn leaves a task to be retried without its request if and only if the attempt is admitted, every
      fetch of its plans fails, one of them recoverably, and retries are left. */
  lemma RetriedWithoutRequestIff(s: Settings, turn: Turn, w: World, item: Item)
    requires item in w.tasks && w.tasks[item].item == item && w.tasks[item].request.Some?
    ensures var t, after := w.tasks[item], RunOnce(s, turn, w, Some(item)).tasks;
            && item in after
            && (after[item].status.Retrying? && after[item].request.None? <==>
                  !t.status.Cancelled? && AttemptFails(turn.env, t) && MayRetry(s, w.jobs, item))
  {
    var t := w.tasks[item];
    AttemptIff(turn.env, t);
    if !t.status.Cancelled? {
      if ExecuteTask(turn.env, t).Ok? {
        ExecutionStatus(turn.env, t);
      }
      var taken := w.(jobs := Take(w.jobs, Some(item), turn.started));
      assert MayRetry(s, taken.jobs, item) <==> MayRetry(s, w.jobs, item);
      SettleRetriesWithout(s, turn, taken, t.(status := Running), ExecuteTask(turn.env, t));
    }
  }

  lemma AfterFirstTurn(s: Settings, turn: Turn, w: World, item: Item)
    requires Agrees(w, turn.saved) && FailsRecoverably(s, turn, w, item)
    ensures var retried := Next(s, w, Work(turn, Some(item)));
            Agrees(retried, turn.saved) && AwaitsEmpty(retried, item)
  {
    TurnAgrees(s, turn, w, Some(item));
    FirstTurn(s, turn, w, item);
  }

  /** Step `n` of the run takes the item and fails recoverably; the later ones do not touch it. */
  ghost predicate FailsOnceAt(s: Settings, w: World, steps: seq<Step>, n: nat, item: Item) {
    && n < |steps| && steps[n].Work? && steps[n].pick == Some(item)
    && FailsRecoverably(s, steps[n].turn, Reached(s, w, steps[..n]), item)
    && forall i :: n < i < |steps| ==> !Touches(steps[i], item)
  }

  lemma AwaitsAfterTurn(s: Settings, w: World, steps: seq<Step>, n: nat, item: Item, saved: Report -> Saved)
    requires Agrees(w, saved) && AllowedRun(s, w, steps) && FailsOnceAt(s, w, steps, n, item)
    requires forall i :: 0 <= i < |steps| && steps[i].Work? ==> steps[i].turn.saved == saved
    ensures Agrees(Reached(s, w, steps[..n + 1]), saved) && AwaitsEmpty(Reached(s, w, steps[..n + 1]), item)
  {
    forall i | 0 <= i < n ensures Delivery.Allowed(Reached(s, w, steps[..n][..i]), steps[..n][i]) {
      assert steps[..n][..i] == steps[..i];
    }
    RunsAgree(s, w, steps[..n], saved);
    AfterFirstTurn(s, steps[n].turn, Reached(s, w, steps[..n]), item);
    OneStepMore(s, w, steps, n);
  }

  lemma OneStepMore(s: Settings, w: World, steps: seq<Step>, n: nat)
    requires n < |steps|
    ensures Reached(s, w, steps[..n + 1]) == Next(s, Reached(s, w, steps[..n]), steps[n])
  {
    assert steps[..n + 1][..n] == steps[..n];
  }

  /** In any run, a task all of whose queries failed recoverably, and which is therefore retried, is
      reported as a success that found nothing at its next turn, whatever the provider would have
      answered, unless it is created anew or cancelled in between. */
  lemma RetriedReportBecomesEmptySuccess(s: Settings, w: World, steps: seq<Step>, n: nat, item: Item,
      saved: Report -> Saved, next: Turn)
    requires Agrees(w, saved) && AllowedRun(s, w, steps) && FailsOnceAt(s, w, steps, n, item)
    requires forall i :: 0 <= i < |steps| && steps[i].Work? ==> steps[i].turn.saved == saved
    ensures var before := Reached(s, w, steps);
            AwaitsEmpty(before, item) && EndsEmpty(before, RunOnce(s, next, before, Some(item)), item, next.saved)
  {
    AwaitsAfterTurn(s, w, steps, n, item, saved);
    WaitsWithoutRequest(s, w, steps, n + 1, item, saved);
    LaterTurn(s, next, Reached(s, w, steps), item);
  }
}
