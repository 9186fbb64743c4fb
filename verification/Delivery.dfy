/** The worker: one dequeued item, one execution, and what it writes to the task store, the result
    store and the job table; with task creation and cancellation in between. */
module Delivery {
  import opened Text
  import opened Items
  import opened QueryPlanner
  import opened Execution
  import opened ScopeGuard
  import opened Workflow
  import opened Gateway
  import opened SqliteQueue
  import opened Repositories

  datatype Settings = Settings(maxAttempts: int, retryDelay: int)

  /** What one turn of the worker depends on; `saved` cuts a report into the three saved lists. */
  datatype Turn = Turn(env: Env, saved: Report -> Saved, started: int, finished: int)

  datatype World = World(tasks: Tasks, jobs: Jobs, results: map<Item, Saved>)

  datatype Outcome = Idle | NoSuchTask | Processed(item: Item, status: Status)

  predicate Terminal(s: Status) { s.Success? || s.PartialSuccess? || s.FailedStatus? || s.Cancelled? }

  // ---------- one execution ----------

  function ExecuteTask(env: Env, t: Payload): Result<Report> {
    if t.request.Some?
    then RunDiscovery(env, t.item.taskId, WorkerSeeds(t), t.request.value.strategy, t.request.value.maxQueryPlans, 1,
        t.request.value.resultLimit)
    else RunDiscovery(env, t.item.taskId, WorkerSeeds(t), Baseline, 30, 1, 100)
  }

  /** The result payload carries the report, and neither request nor authorization note. */
  function ResultPayload(item: Item, r: Report): Payload {
    Payload(item, r.status, r.errors, None, None, Some(r))
  }

  predicate HasRecoverableError(r: Report) {
    exists i :: 0 <= i < |r.errors| && r.errors[i].recoverable
  }

  predicate Recoverable(r: Report) { r.status.FailedStatus? && HasRecoverableError(r) }

  const DEFAULT_REASON := "recoverable task failure"

  function FirstErrorMessage(errors: seq<TaskError>): string {
    if errors == [] then DEFAULT_REASON
    else if errors[0].message != "" then errors[0].message
    else if errors[0].code.Some? && errors[0].code.value != "" then errors[0].code.value
    else DEFAULT_REASON
  }

  function Unexpected(message: string): TaskError { TaskError("unknown", "", message, true, None) }

  // ---------- one turn ----------

  predicate MayRetry(s: Settings, jobs: Jobs, item: Item) { AttemptsOf(jobs, item) + 1 < s.maxAttempts }

  /** The stores after an execution that raised, or that reported. */
  function Settle(s: Settings, turn: Turn, w: World, t: Payload, ran: Result<Report>): World {
    match ran
    case Raised(reason) =>
      var failed := t.(errors := [Unexpected(reason)]);
      if MayRetry(s, w.jobs, t.item)
      then World(w.tasks[t.item := failed.(status := Retrying)],
          MarkRetry(w.jobs, t.item, reason, s.retryDelay, turn.finished), w.results)
      else World(w.tasks[t.item := failed.(status := FailedStatus)], MarkFailed(w.jobs, t.item, reason, turn.finished),
          w.results)
    case Ok(report) =>
      var p, reason := ResultPayload(t.item, report), FirstErrorMessage(report.errors);
      if !Recoverable(report)
      then World(w.tasks[t.item := p], MarkDone(w.jobs, t.item, turn.finished), w.results[t.item := turn.saved(report)])
      else if MayRetry(s, w.jobs, t.item)
      then World(w.tasks[t.item := p.(status := Retrying)],
          MarkRetry(w.jobs, t.item, reason, s.retryDelay, turn.finished), w.results)
      else World(w.tasks[t.item := p], MarkFailed(w.jobs, t.item, reason, turn.finished), w.results)
  }

  function RunOnce(s: Settings, turn: Turn, w: World, pick: Option<Item>): World {
    var taken := w.(jobs := Take(w.jobs, pick, turn.started));
    if pick.None? || pick.value !in w.tasks then taken
    else
      var t := w.tasks[pick.value];
      if t.status.Cancelled? then taken.(jobs := MarkDone(taken.jobs, pick.value, turn.finished))
      else Settle(s, turn, taken, t.(status := Running), ExecuteTask(turn.env, t))
  }

  function OutcomeOf(w: World, after: World, pick: Option<Item>): Outcome {
    if pick.None? then Idle
    else if pick.value !in w.tasks || pick.value !in after.tasks then NoSuchTask
    else Processed(pick.value, after.tasks[pick.value].status)
  }

  lemma ExecutionIgnoresStatus(env: Env, t: Payload, status: Status)
    ensures ExecuteTask(env, t.(status := status)) == ExecuteTask(env, t)
  {
  }

  lemma PutTwice(tasks: Tasks, item: Item, a: Payload, b: Payload)
    ensures tasks[item := a][item := b] == tasks[item := b]
  {
  }

  /** Settling overwrites whatever was stored for the task, the running mark included. */
  lemma SettleOverwrites(s: Settings, turn: Turn, w: World, t: Payload, ran: Result<Report>)
    ensures Settle(s, turn, w.(tasks := w.tasks[t.item := t]), t, ran) == Settle(s, turn, w, t, ran)
  {
    PutTwice(w.tasks, t.item, t, Settle(s, turn, w, t, ran).tasks[t.item]);
  }

  class TaskWorker {
    const taskRepository: TaskRepository
    const resultRepository: SqliteResultRepository
    const queue: SqliteTaskQueue
    const settings: Settings

    constructor (taskRepository: TaskRepository, resultRepository: SqliteResultRepository, queue: SqliteTaskQueue,
        settings: Settings)
      ensures this.taskRepository == taskRepository && this.resultRepository == resultRepository
      ensures this.queue == queue && this.settings == settings
    {
      this.taskRepository, this.resultRepository := taskRepository, resultRepository;
      this.queue, this.settings := queue, settings;
    }

    ghost predicate Valid()
      reads resultRepository, taskRepository
    {
      resultRepository.Valid() && forall i :: i in taskRepository.tasks ==> taskRepository.tasks[i].item == i
    }

    ghost function Stores(): World
      reads taskRepository, resultRepository, queue
    {
      World(taskRepository.tasks, queue.jobs, resultRepository.saved)
    }

    method RetryOrFail(item: Item, reason: string, now: int) returns (retried: bool)
      modifies queue
      ensures var attempts := if item in old(queue.jobs) then old(queue.jobs)[item].attempts else 0;
              retried <==> attempts + 1 < settings.maxAttempts
      ensures queue.jobs == if retried then MarkRetry(old(queue.jobs), item, reason, settings.retryDelay, now)
                            else MarkFailed(old(queue.jobs), item, reason, now)
    {
      var attempts := AttemptsOf(queue.jobs, item);
      if attempts + 1 < settings.maxAttempts {
        queue.Retry(item, reason, settings.retryDelay, now);
        return true;
      }
      queue.Fail(item, reason, now);
      return false;
    }

    method Execute(env: Env, task: Payload) returns (ran: Result<Report>)
      ensures ran == ExecuteTask(env, task)
    {
      var scope := if task.request.Some? then task.request.value.acceptedScope else map[];
      var seeds := CollectSeeds(scope, Some(NoteText(task.note)));
      if task.request.Some? {
        var r := task.request.value;
        ran := RunDiscoveryFromSeeds(env, task.item.taskId, seeds, r.strategy, r.maxQueryPlans, 1, r.resultLimit);
      } else {
        ran := RunDiscoveryFromSeeds(env, task.item.taskId, seeds, Baseline, 30, 1, 100);
      }
    }

    /** The `except` branch. */
    method SettleException(turn: Turn, running: Payload, reason: string) returns (status: Status)
      requires Valid()
      modifies taskRepository, queue
      ensures Valid() && Stores() == Settle(settings, turn, old(Stores()), running, Raised(reason))
      ensures running.item in taskRepository.tasks && status == taskRepository.tasks[running.item].status
      ensures var jobs := old(queue.jobs);
              var attempts := if running.item in jobs then jobs[running.item].attempts else 0;
              status == if attempts + 1 < settings.maxAttempts then Retrying else FailedStatus
    {
      var task := running.(errors := [Unexpected(reason)]);
      if AttemptsOf(queue.jobs, task.item) + 1 < settings.maxAttempts {
        task := task.(status := Retrying);
        taskRepository.Update(task);
        queue.Retry(task.item, reason, settings.retryDelay, turn.finished);
      } else {
        task := task.(status := FailedStatus);
        taskRepository.Update(task);
        queue.Fail(task.item, reason, turn.finished);
      }
      return task.status;
    }

    /** What follows a run that reported. */
    method SettleReport(turn: Turn, running: Payload, report: Report) returns (status: Status)
      requires Valid()
      modifies taskRepository, resultRepository, queue
      ensures Valid() && Stores() == Settle(settings, turn, old(Stores()), running, Ok(report))
      ensures running.item in taskRepository.tasks && status == taskRepository.tasks[running.item].status
    {
      var result := ResultPayload(running.item, report);
      if Recoverable(report) {
        var retried := RetryOrFail(running.item, FirstErrorMessage(report.errors), turn.finished);
        if retried {
          result := result.(status := Retrying);
        }
        taskRepository.Update(result);
      } else {
        taskRepository.Update(result);
        resultRepository.SaveResults(running.item, turn.saved(report));
        queue.Done(running.item, turn.finished);
      }
      return result.status;
    }

    method RunNext(turn: Turn) returns (pick: Option<Item>, outcome: Outcome)
      requires Valid()
      modifies taskRepository, resultRepository, queue
      ensures Valid() && IsPick(old(queue.jobs), turn.started, pick)
      ensures Stores() == RunOnce(settings, turn, old(Stores()), pick)
      ensures outcome == OutcomeOf(old(Stores()), Stores(), pick)
      ensures outcome == Idle <==> pick.None?
      ensures pick.Some? && pick.value in old(taskRepository.tasks) ==>
                && pick.value in taskRepository.tasks
                && outcome == Processed(pick.value, taskRepository.tasks[pick.value].status)
    {
      pick := queue.Dequeue(turn.started);
      if pick.None? {
        return pick, Idle;
      }
      var item := pick.value;
      var loaded := taskRepository.Load(item);
      if loaded.None? {
        return pick, NoSuchTask;
      }
      if loaded.value.status.Cancelled? {
        queue.Done(item, turn.finished);
        return pick, Processed(item, Cancelled);
      }
      ghost var taken := Stores();
      var task := loaded.value.(status := Running);
      taskRepository.Update(task);
      var status := Running;
      var ran := Execute(turn.env, task);
      ExecutionIgnoresStatus(turn.env, loaded.value, Running);
      SettleOverwrites(settings, turn, taken, task, ran);
      if ran.Raised? {
        status := SettleException(turn, task, ran.message);
      } else {
        status := SettleReport(turn, task, ran.value);
      }
      return pick, Processed(item, status);
    }
  }

  // ---------- cancellation ----------

  datatype Cancelling = Missing | NotCancellable(status: Status) | Accepted

  function CancelOutcome(tasks: Tasks, item: Item): Cancelling {
    if item !in tasks then Missing
    else if Terminal(tasks[item].status) then NotCancellable(tasks[item].status)
    else Accepted
  }

  function AfterCancel(tasks: Tasks, item: Item): Tasks {
    if CancelOutcome(tasks, item).Accepted? then tasks[item := tasks[item].(status := Cancelled)] else tasks
  }

  method CancelTask(repository: TaskRepository, item: Item) returns (c: Cancelling)
    requires forall i :: i in repository.tasks ==> repository.tasks[i].item == i
    modifies repository
    ensures c == CancelOutcome(old(repository.tasks), item)
    ensures repository.tasks == AfterCancel(old(repository.tasks), item)
    ensures var tasks := old(repository.tasks);
            && (c.Missing? <==> item !in tasks)
            && (c.NotCancellable? <==>
                  item in tasks && tasks[item].status in {Success, PartialSuccess, FailedStatus, Cancelled})
            && (c.Accepted? ==> repository.tasks == tasks[item := tasks[item].(status := Cancelled)])
            && (!c.Accepted? ==> repository.tasks == tasks)
  {
    var loaded := repository.Load(item);
    if loaded.None? {
      return Missing;
    }
    if Terminal(loaded.value.status) {
      return NotCancellable(loaded.value.status);
    }
    repository.Update(loaded.value.(status := Cancelled));
    return Accepted;
  }

  // ---------- runs ----------

  datatype Step =
    | Create(parse: AddressParser, profile: Profile, request: Request, generated: string, now: int)
    | Cancel(item: Item)
    | Work(turn: Turn, pick: Option<Item>)

  function Next(s: Settings, w: World, step: Step): World {
    match step
    case Create(parse, p, r, generated, now) =>
      var d := Decide(parse, p, r, generated);
      if d.Queue? then w.(tasks := w.tasks[d.payload.item := d.payload], jobs := Enqueue(w.jobs, d.payload.item, now))
      else w
    case Cancel(item) => w.(tasks := AfterCancel(w.tasks, item))
    case Work(turn, pick) => RunOnce(s, turn, w, pick)
  }

  function Reached(s: Settings, w: World, steps: seq<Step>): World {
    if steps == [] then w else Next(s, Reached(s, w, steps[..|steps| - 1]), steps[|steps| - 1])
  }

  /** Every turn takes what the table hands out at that moment. */
  ghost predicate Allowed(w: World, step: Step) {
    step.Work? ==> IsPick(w.jobs, step.turn.started, step.pick)
  }

  ghost predicate AllowedRun(s: Settings, w: World, steps: seq<Step>) {
    forall i :: 0 <= i < |steps| ==> Allowed(Reached(s, w, steps[..i]), steps[i])
  }

  const EMPTY_WORLD := World(map[], map[], map[])

  lemma AllowedPrefix(s: Settings, w: World, steps: seq<Step>)
    requires AllowedRun(s, w, steps) && steps != []
    ensures var front := steps[..|steps| - 1];
            AllowedRun(s, w, front) && Allowed(Reached(s, w, front), steps[|steps| - 1])
  {
    var front := steps[..|steps| - 1];
    forall i | 0 <= i < |front| ensures Allowed(Reached(s, w, front[..i]), front[i]) {
      assert front[..i] == steps[..i];
    }
  }

  // ---------- the stores agree ----------

  predicate StatusFits(state: JobState, status: Status) {
    match state
    case JobQueued => status.Queued? || status.Retrying? || status.Cancelled?
    case JobRunning => false
    case JobDone => Terminal(status)
    case JobFailed => status.FailedStatus?
  }

  /** Every row has a stored task and every task a row, with matching states; a task reported as a
      success has its results saved. */
  ghost predicate Agrees(w: World, saved: Report -> Saved) {
    && w.jobs.Keys == w.tasks.Keys
    && (forall i :: i in w.tasks ==> w.tasks[i].item == i && StatusFits(w.jobs[i].state, w.tasks[i].status))
    && (forall i :: i in w.tasks ==> ResultsFit(w, i, saved))
  }

  ghost predicate ResultsFit(w: World, i: Item, saved: Report -> Saved)
    requires i in w.tasks
  {
    w.tasks[i].status.Success? || w.tasks[i].status.PartialSuccess? ==>
      w.tasks[i].report.Some? && i in w.results && w.results[i] == saved(w.tasks[i].report.value)
  }

  lemma ExecutionStatus(env: Env, t: Payload)
    requires ExecuteTask(env, t).Ok?
    ensures var r := ExecuteTask(env, t).value;
            && Terminal(r.status) && !r.status.Cancelled?
            && (r.status.FailedStatus? <==> r.errors != [] && r.quota.completed == 0)
  {
  }

  /** Replacing one task and its row by ones that fit. */
  lemma PutAgrees(w: World, p: Payload, j: Job, results: map<Item, Saved>, saved: Report -> Saved)
    requires Agrees(w, saved) && StatusFits(j.state, p.status)
    requires forall i :: i in w.results && i != p.item ==> i in results && results[i] == w.results[i]
    requires p.status.Success? || p.status.PartialSuccess? ==>
               p.report.Some? && p.item in results && results[p.item] == saved(p.report.value)
    ensures Agrees(World(w.tasks[p.item := p], w.jobs[p.item := j], results), saved)
  {
    var after := World(w.tasks[p.item := p], w.jobs[p.item := j], results);
    forall i | i in after.tasks ensures ResultsFit(after, i, saved) {
      assert i != p.item ==> ResultsFit(w, i, saved);
    }
  }

  /** One write of the task and one of its row, over a row that was just taken. */
  lemma WriteAgrees(w: World, taken: Jobs, p: Payload, jobs: Jobs, results: map<Item, Saved>, saved: Report -> Saved)
    requires Agrees(w, saved) && p.item in w.jobs && p.item in jobs && StatusFits(jobs[p.item].state, p.status)
    requires taken.Keys == w.jobs.Keys && forall i :: i in w.jobs && i != p.item ==> taken[i] == w.jobs[i]
    requires jobs.Keys == taken.Keys && forall i :: i in taken && i != p.item ==> jobs[i] == taken[i]
    requires forall i :: i in w.results && i != p.item ==> i in results && results[i] == w.results[i]
    requires p.status.Success? || p.status.PartialSuccess? ==>
               p.report.Some? && p.item in results && results[p.item] == saved(p.report.value)
    ensures Agrees(World(w.tasks[p.item := p], jobs, results), saved)
  {
    PutAgrees(w, p, jobs[p.item], results, saved);
    assert jobs == w.jobs[p.item := jobs[p.item]];
  }

  lemma ExceptionAgrees(s: Settings, turn: Turn, w: World, t: Payload, reason: string)
    requires Agrees(w, turn.saved) && t.item in w.jobs
    ensures Agrees(Settle(s, turn, w.(jobs := Take(w.jobs, Some(t.item), turn.started)), t, Raised(reason)), turn.saved)
  {
    var taken := w.(jobs := Take(w.jobs, Some(t.item), turn.started));
    var failed := t.(errors := [Unexpected(reason)]);
    if MayRetry(s, taken.jobs, t.item) {
      WriteAgrees(w, taken.jobs, failed.(status := Retrying),
          MarkRetry(taken.jobs, t.item, reason, s.retryDelay, turn.finished), w.results, turn.saved);
    } else {
      WriteAgrees(w, taken.jobs, failed.(status := FailedStatus), MarkFailed(taken.jobs, t.item, reason, turn.finished),
          w.results, turn.saved);
    }
  }

  lemma ReportAgrees(s: Settings, turn: Turn, w: World, t: Payload, r: Report)
    requires Agrees(w, turn.saved) && t.item in w.jobs && Terminal(r.status) && !r.status.Cancelled?
    ensures Agrees(Settle(s, turn, w.(jobs := Take(w.jobs, Some(t.item), turn.started)), t, Ok(r)), turn.saved)
  {
    var taken := w.(jobs := Take(w.jobs, Some(t.item), turn.started));
    var after := Settle(s, turn, taken, t, Ok(r));
    WriteAgrees(w, taken.jobs, after.tasks[t.item], after.jobs, after.results, turn.saved);
  }

  lemma TurnAgrees(s: Settings, turn: Turn, w: World, pick: Option<Item>)
    requires Agrees(w, turn.saved) && IsPick(w.jobs, turn.started, pick)
    ensures Agrees(RunOnce(s, turn, w, pick), turn.saved)
  {
    if pick.Some? {
      var t := w.tasks[pick.value];
      if t.status.Cancelled? {
        var after := RunOnce(s, turn, w, pick);
        WriteAgrees(w, Take(w.jobs, pick, turn.started), t, after.jobs, w.results, turn.saved);
        assert w.tasks[t.item := t] == w.tasks;
      } else {
        match ExecuteTask(turn.env, t)
        case Raised(reason) => ExceptionAgrees(s, turn, w, t.(status := Running), reason);
        case Ok(r) =>
          ExecutionStatus(turn.env, t);
          ReportAgrees(s, turn, w, t.(status := Running), r);
      }
    }
  }

  lemma CreateAgrees(w: World, p: Payload, now: int, saved: Report -> Saved)
    requires Agrees(w, saved) && p.status.Queued?
    ensures Agrees(w.(tasks := w.tasks[p.item := p], jobs := Enqueue(w.jobs, p.item, now)), saved)
  {
    PutAgrees(w, p, Enqueue(w.jobs, p.item, now)[p.item], w.results, saved);
  }

  lemma CancelAgrees(w: World, item: Item, saved: Report -> Saved)
    requires Agrees(w, saved)
    ensures Agrees(w.(tasks := AfterCancel(w.tasks, item)), saved)
  {
    if CancelOutcome(w.tasks, item).Accepted? {
      PutAgrees(w, w.tasks[item].(status := Cancelled), w.jobs[item], w.results, saved);
      assert w.jobs[item := w.jobs[item]] == w.jobs;
    }
  }

  lemma StepAgrees(s: Settings, w: World, step: Step, saved: Report -> Saved)
    requires Agrees(w, saved) && Allowed(w, step)
    requires step.Work? ==> step.turn.saved == saved
    ensures Agrees(Next(s, w, step), saved)
  {
    match step
    case Create(parse, p, r, generated, now) =>
      var d := Decide(parse, p, r, generated);
      if d.Queue? {
        CreateAgrees(w, d.payload, now, saved);
      }
    case Cancel(item) => CancelAgrees(w, item, saved);
    case Work(turn, pick) => TurnAgrees(s, turn, w, pick);
  }

  /** Between any two steps of any run with one worker, creations and cancellations: the stores agree. */
  lemma {:induction false} RunsAgree(s: Settings, w: World, steps: seq<Step>, saved: Report -> Saved)
    requires Agrees(w, saved) && AllowedRun(s, w, steps)
    requires forall i :: 0 <= i < |steps| && steps[i].Work? ==> steps[i].turn.saved == saved
    ensures Agrees(Reached(s, w, steps), saved)
  {
    if steps != [] {
      var front := steps[..|steps| - 1];
      AllowedPrefix(s, w, steps);
      RunsAgree(s, w, front, saved);
      StepAgrees(s, Reached(s, w, front), steps[|steps| - 1], saved);
    }
  }

  /** Where the stores agree, the worker never misses the stored task, and an idle answer at a time
      when every queued row is due means that every task has ended. */
  lemma NothingIsStranded(w: World, now: int, pick: Option<Item>, saved: Report -> Saved)
    requires Agrees(w, saved) && IsPick(w.jobs, now, pick)
    ensures pick.Some? ==> pick.value in w.tasks
    ensures pick.None? && (forall i :: i in w.jobs && w.jobs[i].state.JobQueued? ==> w.jobs[i].availableAt <= now)
            ==> forall i :: i in w.tasks ==> Terminal(w.tasks[i].status)
  {
    if pick.None? && (forall i :: i in w.jobs && w.jobs[i].state.JobQueued? ==> w.jobs[i].availableAt <= now) {
      forall i | i in w.tasks ensures Terminal(w.tasks[i].status) {
        assert !Eligible(w.jobs, i, now);
      }
    }
  }
}
