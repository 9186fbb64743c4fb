/** How a turn leaves a task, told on the stored fields, and how often a failing task is executed. */
module Endings {
  import opened Text
  import opened Items
  import opened Models
  import opened QueryPlanner
  import opened Execution
  import opened Workflow
  import opened Gateway
  import opened SqliteQueue
  import opened Repositories
  import opened Delivery
  import opened Outcomes
  import opened Retries

  /** The attempt raises, or fails in a way that is retried. */
  predicate Misses(env: Env, t: Payload) { AttemptRaises(env, t) || AttemptFails(env, t) }

  // ---------- one turn ----------

  /** Settling an execution that raised, or that failed recoverably: with attempts to spare the task is
      retrying and its row queued until the delay has passed; otherwise both are failed. */
  lemma MissSettles(s: Settings, turn: Turn, w: World, t: Payload, ran: Result<Report>)
    requires t.item in w.jobs && (ran.Raised? || Recoverable(ran.value))
    ensures var v, was, retried := Settle(s, turn, w, t, ran), w.jobs[t.item],
        w.jobs[t.item].attempts + 1 < s.maxAttempts;
            && t.item in v.tasks && v.tasks == w.tasks[t.item := v.tasks[t.item]]
            && v.tasks[t.item].status == (if retried then Retrying else FailedStatus)
            && t.item in v.jobs && v.jobs == w.jobs[t.item := v.jobs[t.item]] && v.results == w.results
            && RowAfterMiss(was, v.jobs[t.item], retried, s.retryDelay, turn.finished)
  {
  }

  predicate RowAfterMiss(was: Job, row: Job, retried: bool, delay: int, now: int) {
    && row.createdAt == was.createdAt && row.updatedAt == now
    && (retried ==> row.state == JobQueued && row.attempts == was.attempts + 1
                    && row.availableAt == now + if delay < 0 then 0 else delay)
    && (!retried ==> row.state == JobFailed && row.attempts == was.attempts && row.availableAt == was.availableAt)
  }

  /** What is stored about the failure: the exception, or the report with the message of its first error, or
      that error's code, or the default text. */
  lemma ReasonIsStored(s: Settings, turn: Turn, w: World, t: Payload, ran: Result<Report>)
    requires t.item in w.jobs && (ran.Raised? || Recoverable(ran.value))
    ensures var v := Settle(s, turn, w, t, ran);
            && t.item in v.tasks && t.item in v.jobs
            && (ran.Raised? ==>
                  && v.tasks[t.item].errors == [TaskError("unknown", "", ran.message, true, None)]
                  && v.jobs[t.item].lastError == ran.message)
            && (ran.Ok? ==>
                  && v.tasks[t.item].errors == ran.value.errors != []
                  && v.tasks[t.item].report == Some(ran.value)
                  && IsReason(v.jobs[t.item].lastError, ran.value.errors[0]))
  {
  }

  predicate IsReason(reason: string, e: TaskError) {
    && (e.message != "" ==> reason == e.message)
    && (e.message == "" && e.code.Some? && e.code.value != "" ==> reason == e.code.value)
    && (e.message == "" && (e.code.None? || e.code.value == "") ==> reason == "recoverable task failure")
  }

  /** A turn whose attempt raises or fails recoverably retries if and only if the attempts of the row plus one
      stay below the maximum. */
  lemma TurnRetriesIff(s: Settings, turn: Turn, w: World, item: Item)
    requires item in w.tasks && w.tasks[item].item == item && item in w.jobs
    requires !w.tasks[item].status.Cancelled? && Misses(turn.env, w.tasks[item])
    ensures var v, was := RunOnce(s, turn, w, Some(item)), w.jobs[item];
            && item in v.tasks && v.tasks == w.tasks[item := v.tasks[item]]
            && item in v.jobs && v.jobs == w.jobs[item := v.jobs[item]] && v.results == w.results
            && (v.tasks[item].status.Retrying? <==> was.attempts + 1 < s.maxAttempts)
            && (v.tasks[item].status.FailedStatus? <==> was.attempts + 1 >= s.maxAttempts)
            && RowAfterMiss(was, v.jobs[item], was.attempts + 1 < s.maxAttempts, s.retryDelay, turn.finished)
  {
    var t, taken := w.tasks[item], w.(jobs := Take(w.jobs, Some(item), turn.started));
    AttemptIff(turn.env, t);
    MissSettles(s, turn, taken, t.(status := Running), ExecuteTask(turn.env, t));
  }

  /** Any other attempt ends the task with what it reports, saves its results and marks its row done. */
  lemma TurnEnds(s: Settings, turn: Turn, w: World, item: Item)
    requires item in w.tasks && w.tasks[item].item == item && item in w.jobs
    requires !w.tasks[item].status.Cancelled? && !Misses(turn.env, w.tasks[item])
    ensures ExecuteTask(turn.env, w.tasks[item]).Ok?
    ensures var v, r := RunOnce(s, turn, w, Some(item)), ExecuteTask(turn.env, w.tasks[item]).value;
            && item in v.tasks && v.tasks == w.tasks[item := v.tasks[item]]
            && v.tasks[item].status == r.status && v.tasks[item].errors == r.errors
            && v.tasks[item].report == Some(r) && v.tasks[item].item == item
            && item in v.jobs && v.jobs == w.jobs[item := v.jobs[item]] && v.jobs[item].state == JobDone
            && v.jobs[item].attempts == w.jobs[item].attempts && v.results == w.results[item := turn.saved(r)]
  {
    AttemptIff(turn.env, w.tasks[item]);
  }

  // ---------- runs ----------

  /** The turns of a run that execute the item. */
  function Executions(steps: seq<Step>, item: Item): nat {
    if steps == [] then 0
    else
      var last := steps[|steps| - 1];
      Executions(steps[..|steps| - 1], item) + if last.Work? && last.pick == Some(item) then 1 else 0
  }

  /** Nothing creates or cancels the item, and each of its attempts raises or fails recoverably. */
  ghost predicate OnlyMisses(s: Settings, w: World, steps: seq<Step>, item: Item) {
    steps != [] ==>
      && OnlyMisses(s, w, steps[..|steps| - 1], item)
      && MissesAt(Reached(s, w, steps[..|steps| - 1]), steps[|steps| - 1], item)
  }

  predicate MissesAt(w: World, step: Step, item: Item) {
    && !Recreates(step, item) && step != Cancel(item)
    && (step.Work? && step.pick == Some(item) && item in w.tasks ==> Misses(step.turn.env, w.tasks[item]))
  }

  /** After `n` missed attempts, the first of them at `a` attempts already made: failed if there was one and
      they reached the maximum, waiting otherwise. */
  ghost predicate MissedTimes(s: Settings, w: World, item: Item, a: nat, n: nat) {
    && item in w.tasks && item in w.jobs
    && if n > 0 && a + n >= s.maxAttempts
       then && w.tasks[item].status.FailedStatus? && w.jobs[item].state.JobFailed?
            && (n == 1 || a + n == s.maxAttempts)
       else && (w.tasks[item].status.Queued? || w.tasks[item].status.Retrying?) && w.jobs[item].state.JobQueued?
            && w.jobs[item].attempts == a + n
  }

  /** A step on other items leaves this one's task and row alone. */
  lemma OthersLeave(s: Settings, w: World, step: Step, item: Item)
    requires item in w.tasks && item in w.jobs && forall i :: i in w.tasks ==> w.tasks[i].item == i
    requires !Recreates(step, item) && step != Cancel(item) && !(step.Work? && step.pick == Some(item))
    ensures var v := Next(s, w, step);
            item in v.tasks && v.tasks[item] == w.tasks[item] && item in v.jobs && v.jobs[item] == w.jobs[item]
  {
    OtherStepsKeep(s, w, step, item);
    if step.Work? && step.pick.Some? && step.pick.value in w.tasks && !w.tasks[step.pick.value].status.Cancelled? {
      var t := w.tasks[step.pick.value];
      SettleOthers(s, step.turn, w.(jobs := Take(w.jobs, step.pick, step.turn.started)), t.(status := Running),
          ExecuteTask(step.turn.env, t), item);
    }
  }

  lemma SettleOthers(s: Settings, turn: Turn, w: World, t: Payload, ran: Result<Report>, item: Item)
    requires item in w.jobs && item != t.item
    ensures var v := Settle(s, turn, w, t, ran).jobs; item in v && v[item] == w.jobs[item]
  {
  }

  lemma MissedOnce(s: Settings, w: World, step: Step, item: Item, a: nat, n: nat, saved: Report -> Saved)
    requires Agrees(w, saved) && Delivery.Allowed(w, step) && MissesAt(w, step, item) && MissedTimes(s, w, item, a, n)
    ensures MissedTimes(s, Next(s, w, step), item, a, n + if step.Work? && step.pick == Some(item) then 1 else 0)
  {
    if step.Work? && step.pick == Some(item) {
      TurnRetriesIff(s, step.turn, w, item);
    } else {
      OthersLeave(s, w, step, item);
    }
  }

  lemma {:induction false} MissesCount(s: Settings, w: World, steps: seq<Step>, item: Item, saved: Report -> Saved)
    requires Agrees(w, saved) && AllowedRun(s, w, steps) && OnlyMisses(s, w, steps, item)
    requires forall i :: 0 <= i < |steps| && steps[i].Work? ==> steps[i].turn.saved == saved
    requires item in w.jobs && MissedTimes(s, w, item, w.jobs[item].attempts, 0)
    ensures MissedTimes(s, Reached(s, w, steps), item, w.jobs[item].attempts, Executions(steps, item))
  {
    if steps != [] {
      var front := steps[..|steps| - 1];
      AllowedPrefix(s, w, steps);
      MissesCount(s, w, front, item, saved);
      RunsAgree(s, w, front, saved);
      MissedOnce(s, Reached(s, w, front), steps[|steps| - 1], item, w.jobs[item].attempts, Executions(front, item),
          saved);
    }
  }

  /** A task whose attempts all raise or fail recoverably, from its first one on, is failed if and only if it
      has been executed max(1, max_attempts) times, and never executed more often; until then it waits. */
  lemma FailsAfterExactly(s: Settings, w: World, steps: seq<Step>, item: Item, saved: Report -> Saved)
    requires Agrees(w, saved) && AllowedRun(s, w, steps) && OnlyMisses(s, w, steps, item)
    requires forall i :: 0 <= i < |steps| && steps[i].Work? ==> steps[i].turn.saved == saved
    requires item in w.tasks && item in w.jobs && w.tasks[item].status.Queued? && w.jobs[item].attempts == 0
    ensures var v, n := Reached(s, w, steps), Executions(steps, item);
            var most := if s.maxAttempts < 1 then 1 else s.maxAttempts;
            && n <= most && item in v.tasks && item in v.jobs
            && (n == most ==> v.tasks[item].status.FailedStatus? && v.jobs[item].state.JobFailed?)
            && (n < most ==> (v.tasks[item].status.Queued? || v.tasks[item].status.Retrying?)
                             && v.jobs[item].state.JobQueued? && v.jobs[item].attempts == n)
  {
    MissesCount(s, w, steps, item, saved);
  }
}
