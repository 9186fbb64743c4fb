/** From any run of creations, cancellations and worker turns to what a client can read back. */
module EndToEnd {
  import opened Text
  import opened Items
  import opened QueryPlanner
  import opened Normalizer
  import opened Execution
  import opened ScopeGuard
  import opened Workflow
  import opened Gateway
  import opened SqliteQueue
  import opened Repositories
  import opened Delivery
  import I = Interleaving
  import A = Agreement

  /** Queries add up, and the evidence is partitioned over the assets and over the services. */
  ghost predicate SoundReport(r: Report) {
    && r.quota.completed + r.quota.failed == r.quota.planned
    && DistinctIds(r.evidences)
    && Partitions(ListsOf(AssetIds(), r.assets), IdsOf(r.evidences))
    && Partitions(ListsOf(ServiceIds(), r.services), IdsOf(r.evidences))
  }

  ghost predicate SoundTask(t: Payload) { t.report.Some? ==> SoundReport(t.report.value) }

  ghost predicate SoundTasks(tasks: Tasks) {
    forall i :: i in tasks ==> SoundTask(tasks[i])
  }

  lemma ExecutionIsSound(env: Env, t: Payload)
    requires Injective(env.hash) && ExecuteTask(env, t).Ok?
    ensures SoundReport(ExecuteTask(env, t).value)
  {
    if t.request.Some? {
      var r := t.request.value;
      DiscoveryPartitionsEvidence(env, t.item.taskId, WorkerSeeds(t), r.strategy, r.maxQueryPlans, 1, r.resultLimit);
    } else {
      DiscoveryPartitionsEvidence(env, t.item.taskId, WorkerSeeds(t), Baseline, 30, 1, 100);
    }
  }

  lemma SettleIsSound(s: Settings, turn: Turn, w: World, t: Payload, ran: Result<Report>)
    requires SoundTasks(w.tasks) && SoundTask(t) && (ran.Ok? ==> SoundReport(ran.value))
    ensures SoundTasks(Settle(s, turn, w, t, ran).tasks)
  {
  }

  /** Digests of the step, if any, are taken with an injective hash, and its lists cut by `saved`. */
  ghost predicate Clean(step: Step, saved: Report -> Saved) {
    step.Work? ==> step.turn.saved == saved && Injective(step.turn.env.hash)
  }

  lemma CancelIsSound(tasks: Tasks, item: Item)
    requires SoundTasks(tasks)
    ensures SoundTasks(AfterCancel(tasks, item))
  {
    if CancelOutcome(tasks, item).Accepted? {
      assert SoundTask(tasks[item]);
    }
  }

  lemma StepIsSound(s: Settings, w: World, step: Step, saved: Report -> Saved)
    requires SoundTasks(w.tasks) && Clean(step, saved)
    ensures SoundTasks(Next(s, w, step).tasks)
  {
    match step
    case Create(_, _, _, _, _) =>
    case Cancel(item) => CancelIsSound(w.tasks, item);
    case Work(turn, pick) =>
      if pick.Some? && pick.value in w.tasks && !w.tasks[pick.value].status.Cancelled? {
        TurnIsSound(s, turn, w, pick.value);
      }
  }

  lemma TurnIsSound(s: Settings, turn: Turn, w: World, item: Item)
    requires SoundTasks(w.tasks) && Injective(turn.env.hash) && item in w.tasks && !w.tasks[item].status.Cancelled?
    ensures SoundTasks(RunOnce(s, turn, w, Some(item)).tasks)
  {
    var t := w.tasks[item];
    assert SoundTask(t);
    if ExecuteTask(turn.env, t).Ok? {
      ExecutionIsSound(turn.env, t);
    }
    SettleIsSound(s, turn, w.(jobs := Take(w.jobs, Some(item), turn.started)), t.(status := Running),
        ExecuteTask(turn.env, t));
  }

  lemma {:induction false} RunsAreSound(s: Settings, w: World, steps: seq<Step>, saved: Report -> Saved)
    requires SoundTasks(w.tasks) && forall i :: 0 <= i < |steps| ==> Clean(steps[i], saved)
    ensures SoundTasks(Reached(s, w, steps).tasks)
  {
    if steps != [] {
      var front := steps[..|steps| - 1];
      RunsAreSound(s, w, front, saved);
      StepIsSound(s, Reached(s, w, front), steps[|steps| - 1], saved);
    }
  }

  /** After any run from empty stores, a task shown as a (partial) success has a report whose evidence
      is partitioned, and paging through its results, with any limits, shows exactly `saved(report)`:
      the lists that `saved`, the cut into JSON items, makes of that report. */
  lemma SuccessCanBeReadBack(s: Settings, steps: seq<Step>, saved: Report -> Saved, item: Item, t: ResultType,
      limit: int, maxPageLimit: int)
    requires AllowedRun(s, EMPTY_WORLD, steps) && forall i :: 0 <= i < |steps| ==> Clean(steps[i], saved)
    requires var tasks := Reached(s, EMPTY_WORLD, steps).tasks;
             item in tasks && (tasks[item].status.Success? || tasks[item].status.PartialSuccess?)
    ensures var w := Reached(s, EMPTY_WORLD, steps);
            && w.tasks[item].report.Some? && SoundReport(w.tasks[item].report.value) && item in w.results
            && Walk(ItemsOf(w.results[item], t), None, limit, maxPageLimit) ==
                Ok(ItemsOf(saved(w.tasks[item].report.value), t))
  {
    var w := Reached(s, EMPTY_WORLD, steps);
    RunsAgree(s, EMPTY_WORLD, steps, saved);
    RunsAreSound(s, EMPTY_WORLD, steps, saved);
    assert ResultsFit(w, item, saved) && SoundTask(w.tasks[item]);
    WalkShowsEverything(ItemsOf(w.results[item], t), None, limit, maxPageLimit);
  }

  // ---------- one command at a time ----------

  ghost predicate SoundHand(h: I.Hand) {
    match h
    case Taken(_) => true
    case Loaded(t) => SoundTask(t)
    case Marked(t) => SoundTask(t)
    case Ran(t, ran) => SoundTask(t) && (ran.Ok? ==> SoundReport(ran.value))
    case Writing(_, writes) => forall j :: 0 <= j < |writes| && writes[j].PutTask? ==> SoundTask(writes[j].p)
  }

  /** Every report stored, held by a worker, or held by a pending cancellation is sound. */
  ghost predicate SoundPlant(w: I.Plant) {
    && SoundTasks(w.stores.tasks)
    && (forall k :: k in w.hands ==> SoundHand(w.hands[k]))
    && (forall q :: q in w.cancels ==> SoundTask(q))
  }

  /** Digests are taken with an injective hash, and tasks are created without a report. */
  ghost predicate CleanCommand(c: I.Command) {
    (c.Advance? ==> Injective(c.turn.env.hash)) && (c.StoreTask? ==> c.p.report.None?)
  }

  lemma WritesAreSound(s: Settings, turn: Turn, mayRetry: bool, t: Payload, ran: Result<Report>)
    requires SoundTask(t) && (ran.Ok? ==> SoundReport(ran.value))
    ensures SoundHand(I.Writing(t.item, I.WritesFor(s, turn, mayRetry, t, ran)))
  {
  }

  lemma ProceedIsSound(s: Settings, w: I.Plant, k: nat, turn: Turn)
    requires SoundPlant(w) && k in w.hands && Injective(turn.env.hash)
    ensures SoundPlant(I.Proceed(s, w, k, turn))
  {
    assert SoundHand(w.hands[k]);
    match w.hands[k]
    case Taken(item) => if item in w.stores.tasks { assert SoundTask(w.stores.tasks[item]); }
    case Loaded(t) =>
    case Marked(t) => if ExecuteTask(turn.env, t).Ok? { ExecutionIsSound(turn.env, t); }
    case Ran(t, ran) => WritesAreSound(s, turn, MayRetry(s, w.stores.jobs, t.item), t, ran);
    case Writing(item, writes) =>
      if writes != [] {
        assert forall j :: 0 <= j < |writes[1..]| ==> writes[1..][j] == writes[j + 1];
      }
  }

  lemma CommandIsSound(s: Settings, w: I.Plant, c: I.Command)
    requires SoundPlant(w) && CleanCommand(c)
    ensures SoundPlant(I.Apply(s, w, c))
  {
    if c.Advance? && c.worker in w.hands {
      ProceedIsSound(s, w, c.worker, c.turn);
    } else if c.CancelLoad? && c.item in w.stores.tasks {
      assert SoundTask(w.stores.tasks[c.item]);
    }
  }

  lemma {:induction false} CommandsAreSound(s: Settings, w: I.Plant, cs: seq<I.Command>)
    requires SoundPlant(w) && forall i :: 0 <= i < |cs| ==> CleanCommand(cs[i])
    ensures SoundPlant(I.After(s, w, cs))
  {
    if cs != [] {
      CommandsAreSound(s, w, cs[..|cs| - 1]);
      CommandIsSound(s, I.After(s, w, cs[..|cs| - 1]), cs[|cs| - 1]);
    }
  }

  /** The same after any run of proper commands of any number of workers, once nothing is half done. */
  lemma CommandsCanBeReadBack(s: Settings, cs: seq<I.Command>, saved: Report -> Saved, item: Item, t: ResultType,
                              limit: int, maxPageLimit: int)
    requires A.PossibleRun(s, A.Resting(EMPTY_WORLD), cs, saved) && A.ProperRun(s, A.Resting(EMPTY_WORLD), cs)
    requires forall i :: 0 <= i < |cs| ==> CleanCommand(cs[i])
    requires A.AtRest(I.After(s, A.Resting(EMPTY_WORLD), cs))
    requires var tasks := I.After(s, A.Resting(EMPTY_WORLD), cs).stores.tasks;
             item in tasks && (tasks[item].status.Success? || tasks[item].status.PartialSuccess?)
    ensures var w := I.After(s, A.Resting(EMPTY_WORLD), cs).stores;
            && w.tasks[item].report.Some? && SoundReport(w.tasks[item].report.value) && item in w.results
            && Walk(ItemsOf(w.results[item], t), None, limit, maxPageLimit) ==
                Ok(ItemsOf(saved(w.tasks[item].report.value), t))
  {
    var w := I.After(s, A.Resting(EMPTY_WORLD), cs).stores;
    A.CommandsAgree(s, EMPTY_WORLD, cs, saved);
    CommandsAreSound(s, A.Resting(EMPTY_WORLD), cs);
    assert ResultsFit(w, item, saved) && SoundTask(w.tasks[item]);
    WalkShowsEverything(ItemsOf(w.results[item], t), None, limit, maxPageLimit);
  }
}
