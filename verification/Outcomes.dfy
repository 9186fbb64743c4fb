/** How an attempt ends, told from the stored task and from what the provider answers to its plans. */
module Outcomes {
  import opened Text
  import opened Models
  import opened QueryPlanner
  import opened Normalizer
  import opened Execution
  import opened Workflow
  import opened Gateway
  import opened Delivery

  // ---------- the loop over plans ----------

  predicate FetchFails(provider: Provider, plan: Plan) { provider(plan).Failed? }

  predicate FetchFailsRecoverably(provider: Provider, plan: Plan) {
    provider(plan).Failed? && provider(plan).recoverable
  }

  predicate RowsUnreadable(provider: Provider, plan: Plan) {
    provider(plan).Rows? && Unreadable(provider(plan).rows)
  }

  predicate AllFail(provider: Provider, plans: seq<Plan>) {
    forall i :: 0 <= i < |plans| ==> FetchFails(provider, plans[i])
  }

  predicate OneRecoverable(provider: Provider, plans: seq<Plan>) {
    exists i :: 0 <= i < |plans| && FetchFailsRecoverably(provider, plans[i])
  }

  predicate OneUnreadable(provider: Provider, plans: seq<Plan>) {
    exists i :: 0 <= i < |plans| && RowsUnreadable(provider, plans[i])
  }

  predicate OneErrorRecoverable(errors: seq<TaskError>) {
    exists i :: 0 <= i < |errors| && errors[i].recoverable
  }

  lemma OneMore(provider: Provider, front: seq<Plan>, last: Plan)
    ensures AllFail(provider, front + [last]) <==> AllFail(provider, front) && FetchFails(provider, last)
    ensures OneRecoverable(provider, front + [last]) <==>
        OneRecoverable(provider, front) || FetchFailsRecoverably(provider, last)
    ensures OneUnreadable(provider, front + [last]) <==>
        OneUnreadable(provider, front) || RowsUnreadable(provider, last)
  {
    var plans := front + [last];
    assert plans[|front|] == last && forall i :: 0 <= i < |front| ==> plans[i] == front[i];
  }

  lemma OneErrorMore(errors: seq<TaskError>, e: TaskError)
    ensures OneErrorRecoverable(errors + [e]) <==> OneErrorRecoverable(errors) || e.recoverable
  {
    var more := errors + [e];
    assert more[|errors|] == e && forall i :: 0 <= i < |errors| ==> more[i] == errors[i];
  }

  /** What the loop comes to: it raises exactly for unreadable rows; otherwise nothing is completed exactly
      if all fetches failed, and an error is recoverable exactly if some fetch failed recoverably. */
  lemma {:induction false} RunIff(h: Hash, taskId: string, plans: seq<Plan>, provider: Provider)
    ensures Run(h, taskId, plans, provider).Raised? <==> OneUnreadable(provider, plans)
    ensures Run(h, taskId, plans, provider).Ok? ==>
              var p := Run(h, taskId, plans, provider).value;
              && (p.completed == 0 <==> AllFail(provider, plans))
              && (OneErrorRecoverable(p.errors) <==> OneRecoverable(provider, plans))
              && (p.errors == [] ==> !OneRecoverable(provider, plans))
  {
    if plans != [] {
      var front, last := plans[..|plans| - 1], plans[|plans| - 1];
      assert plans == front + [last];
      RunIff(h, taskId, front, provider);
      OneMore(provider, front, last);
      if Run(h, taskId, front, provider).Ok? {
        CollectIff(h, taskId, Run(h, taskId, front, provider).value, last, provider(last));
      }
    }
  }

  lemma CollectIff(h: Hash, taskId: string, p: Progress, plan: Plan, fetched: Fetched)
    ensures Collect(h, taskId, p, plan, fetched).Raised? <==> fetched.Rows? && Unreadable(fetched.rows)
    ensures Collect(h, taskId, p, plan, fetched).Ok? ==>
              var q := Collect(h, taskId, p, plan, fetched).value;
              && (q.completed == 0 <==> p.completed == 0 && fetched.Failed?)
              && (OneErrorRecoverable(q.errors) <==>
                  OneErrorRecoverable(p.errors) || (fetched.Failed? && fetched.recoverable))
              && (q.errors == [] <==> p.errors == [] && fetched.Rows?)
  {
    match fetched
    case Failed(message, recoverable, code) => OneErrorMore(p.errors, ErrorOf(plan, message, recoverable, code));
    case Rows(rows) => NormalizeRaisesIff(h, taskId, plan, rows);
  }

  /** A run over plans ends in a failure that is retried if and only if all fetches fail, one of them
      recoverably. */
  lemma ExecuteFailsIff(h: Hash, taskId: string, plans: seq<Plan>, provider: Provider)
    ensures Execute(h, taskId, plans, provider).Raised? <==> OneUnreadable(provider, plans)
    ensures Execute(h, taskId, plans, provider).Ok? && Recoverable(Execute(h, taskId, plans, provider).value) <==>
              AllFail(provider, plans) && OneRecoverable(provider, plans)
  {
    RunIff(h, taskId, plans, provider);
    if AllFail(provider, plans) {
      FailedRowsAreReadable(provider, plans);
    }
    if Run(h, taskId, plans, provider).Ok? {
      var r := Execute(h, taskId, plans, provider).value;
      assert HasRecoverableError(r) <==> OneErrorRecoverable(r.errors);
    }
  }

  lemma FailedRowsAreReadable(provider: Provider, plans: seq<Plan>)
    requires AllFail(provider, plans)
    ensures !OneUnreadable(provider, plans)
  {
    forall i | 0 <= i < |plans| ensures !RowsUnreadable(provider, plans[i]) {
      assert FetchFails(provider, plans[i]);
    }
  }

  // ---------- the whole attempt ----------

  /** The safety checks let the attempt through, with these plans. */
  predicate Admitted(env: Env, t: Payload) {
    ValidateSeeds(env.rules, WorkerSeeds(t)).None? && WorkerPlans(t).Ok? && EnforcePlanQuota(WorkerPlans(t).value).None?
  }

  /** The attempt is refused by a check, or a provider row cannot be read. */
  predicate AttemptRaises(env: Env, t: Payload) {
    !Admitted(env, t) || OneUnreadable(env.provider, WorkerPlans(t).value)
  }

  /** The attempt is admitted, all fetches of its plans fail, and one of them recoverably. */
  predicate AttemptFails(env: Env, t: Payload) {
    Admitted(env, t) && AllFail(env.provider, WorkerPlans(t).value)
        && OneRecoverable(env.provider, WorkerPlans(t).value)
  }

  lemma AdmittedRuns(env: Env, t: Payload)
    ensures ExecuteTask(env, t).Ok? ==> Admitted(env, t)
    ensures Admitted(env, t) ==>
        ExecuteTask(env, t) == Execute(env.hash, t.item.taskId, WorkerPlans(t).value, env.provider)
  {
  }

  /** An attempt raises, or fails in a way that is retried, if and only if its inputs say so. */
  lemma AttemptIff(env: Env, t: Payload)
    ensures ExecuteTask(env, t).Raised? <==> AttemptRaises(env, t)
    ensures ExecuteTask(env, t).Ok? && Recoverable(ExecuteTask(env, t).value) <==> AttemptFails(env, t)
  {
    AdmittedRuns(env, t);
    if Admitted(env, t) {
      ExecuteFailsIff(env.hash, t.item.taskId, WorkerPlans(t).value, env.provider);
    }
  }
}
