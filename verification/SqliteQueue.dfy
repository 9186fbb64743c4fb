/** The job table queue: one row per item, handed out by creation time once available. */
module SqliteQueue {
  import opened Text
  import opened Items

  datatype Job = Job(state: JobState, attempts: nat, lastError: string, availableAt: int, createdAt: int,
      updatedAt: int)

  type Jobs = map<Item, Job>

  // ---------- the statements ----------

  /** Insert, or on conflict put the row back to queued: attempts and creation time are kept. */
  function Enqueue(jobs: Jobs, item: Item, now: int): Jobs {
    jobs[item := if item in jobs then jobs[item].(state := JobQueued, availableAt := now, updatedAt := now)
                 else Job(JobQueued, 0, "", now, now, now)]
  }

  predicate Eligible(jobs: Jobs, item: Item, now: int) {
    item in jobs && jobs[item].state == JobQueued && jobs[item].availableAt <= now
  }

  /** `order by created_at limit 1` over the eligible rows; ties may go either way. */
  ghost predicate IsPick(jobs: Jobs, now: int, pick: Option<Item>) {
    match pick
    case None => forall i :: i in jobs ==> !Eligible(jobs, i, now)
    case Some(p) =>
      && Eligible(jobs, p, now)
      && forall i :: i in jobs && Eligible(jobs, i, now) ==> jobs[p].createdAt <= jobs[i].createdAt
  }

  function Take(jobs: Jobs, pick: Option<Item>, now: int): Jobs {
    if pick.Some? && pick.value in jobs
    then jobs[pick.value := jobs[pick.value].(state := JobRunning, updatedAt := now)]
    else jobs
  }

  function Max0(d: int): nat { if d < 0 then 0 else d }

  function MarkRetry(jobs: Jobs, item: Item, reason: string, delay: int, now: int): Jobs {
    if item !in jobs then jobs
    else
      var j := jobs[item];
      jobs[item := j.(state := JobQueued, attempts := j.attempts + 1, lastError := reason,
                      availableAt := now + Max0(delay), updatedAt := now)]
  }

  function MarkDone(jobs: Jobs, item: Item, now: int): Jobs {
    if item !in jobs then jobs else jobs[item := jobs[item].(state := JobDone, updatedAt := now)]
  }

  function MarkFailed(jobs: Jobs, item: Item, reason: string, now: int): Jobs {
    if item !in jobs then jobs
    else jobs[item := jobs[item].(state := JobFailed, lastError := reason, updatedAt := now)]
  }

  /** `status(...).attempts`, 0 where the worker catches the missing row. */
  function AttemptsOf(jobs: Jobs, item: Item): nat {
    if item in jobs then jobs[item].attempts else 0
  }

  // ---------- the table ----------

  class SqliteTaskQueue {
    var jobs: Jobs

    constructor ()
      ensures jobs == map[]
    {
      jobs := map[];
    }

    method EnqueueItem(item: Item, now: int)
      modifies this
      ensures jobs == Enqueue(old(jobs), item, now)
      ensures item in jobs && jobs == old(jobs)[item := jobs[item]]
      ensures jobs[item].state == JobQueued && jobs[item].availableAt == now == jobs[item].updatedAt
      ensures item in old(jobs) ==> jobs[item].attempts == old(jobs)[item].attempts
                                    && jobs[item].createdAt == old(jobs)[item].createdAt
                                    && jobs[item].lastError == old(jobs)[item].lastError
      ensures item !in old(jobs) ==>
                jobs[item].attempts == 0 && jobs[item].createdAt == now && jobs[item].lastError == ""
    {
      if item in jobs {
        jobs := jobs[item := jobs[item].(state := JobQueued, availableAt := now, updatedAt := now)];
      } else {
        jobs := jobs[item := Job(JobQueued, 0, "", now, now, now)];
      }
    }

    /** Scan the rows for the earliest created eligible one. */
    method Select(now: int) returns (pick: Option<Item>)
      ensures IsPick(jobs, now, pick)
    {
      pick := None;
      var rest := jobs.Keys;
      while rest != {}
        invariant rest <= jobs.Keys
        invariant pick.None? ==> forall i :: i in jobs && i !in rest ==> !Eligible(jobs, i, now)
        invariant pick.Some? ==> Eligible(jobs, pick.value, now)
        invariant pick.Some? ==> forall i :: i in jobs && i !in rest && Eligible(jobs, i, now) ==>
                                   jobs[pick.value].createdAt <= jobs[i].createdAt
        decreases rest
      {
        var i :| i in rest;
        rest := rest - {i};
        if jobs[i].state == JobQueued && jobs[i].availableAt <= now
           && (pick.None? || jobs[i].createdAt < jobs[pick.value].createdAt) {
          pick := Some(i);
        }
      }
    }

    method Dequeue(now: int) returns (pick: Option<Item>)
      modifies this
      ensures IsPick(old(jobs), now, pick) && jobs == Take(old(jobs), pick, now)
      ensures pick.None? ==> jobs == old(jobs)
      ensures pick.Some? ==>
                && pick.value in old(jobs)
                && jobs == old(jobs)[pick.value := old(jobs)[pick.value].(state := JobRunning, updatedAt := now)]
    {
      pick := Select(now);
      if pick.Some? {
        jobs := jobs[pick.value := jobs[pick.value].(state := JobRunning, updatedAt := now)];
      }
    }

    method Retry(item: Item, reason: string, delay: int, now: int)
      modifies this
      ensures jobs == MarkRetry(old(jobs), item, reason, delay, now)
      ensures item !in old(jobs) ==> jobs == old(jobs)
      ensures item in old(jobs) ==>
                && item in jobs && jobs == old(jobs)[item := jobs[item]]
                && jobs[item].state == JobQueued && jobs[item].attempts == old(jobs)[item].attempts + 1
                && jobs[item].lastError == reason && jobs[item].updatedAt == now
                && jobs[item].availableAt == (if delay < 0 then now else now + delay)
                && jobs[item].createdAt == old(jobs)[item].createdAt
    {
      if item in jobs {
        var j := jobs[item];
        jobs := jobs[item := j.(state := JobQueued, attempts := j.attempts + 1, lastError := reason,
                                availableAt := now + Max0(delay), updatedAt := now)];
      }
    }

    method Done(item: Item, now: int)
      modifies this
      ensures jobs == MarkDone(old(jobs), item, now)
      ensures item !in old(jobs) ==> jobs == old(jobs)
      ensures item in old(jobs) ==> jobs == old(jobs)[item := old(jobs)[item].(state := JobDone, updatedAt := now)]
    {
      if item in jobs {
        jobs := jobs[item := jobs[item].(state := JobDone, updatedAt := now)];
      }
    }

    method Fail(item: Item, reason: string, now: int)
      modifies this
      ensures jobs == MarkFailed(old(jobs), item, reason, now)
      ensures item !in old(jobs) ==> jobs == old(jobs)
      ensures item in old(jobs) ==>
                jobs == old(jobs)[item := old(jobs)[item].(state := JobFailed, lastError := reason, updatedAt := now)]
    {
      if item in jobs {
        jobs := jobs[item := jobs[item].(state := JobFailed, lastError := reason, updatedAt := now)];
      }
    }
  }

  // ---------- runs ----------

  datatype Op =
    | OpEnqueue(item: Item, now: int)
    | OpDequeue(pick: Option<Item>, now: int)
    | OpRetry(item: Item, reason: string, delay: int, now: int)
    | OpDone(item: Item, now: int)
    | OpFail(item: Item, reason: string, now: int)

  function Apply(jobs: Jobs, op: Op): Jobs {
    match op
    case OpEnqueue(item, now) => Enqueue(jobs, item, now)
    case OpDequeue(pick, now) => Take(jobs, pick, now)
    case OpRetry(item, reason, delay, now) => MarkRetry(jobs, item, reason, delay, now)
    case OpDone(item, now) => MarkDone(jobs, item, now)
    case OpFail(item, reason, now) => MarkFailed(jobs, item, reason, now)
  }

  function After(jobs: Jobs, ops: seq<Op>): Jobs {
    if ops == [] then jobs else Apply(After(jobs, ops[..|ops| - 1]), ops[|ops| - 1])
  }

  /** Every dequeue of the run is one the table allows. */
  ghost predicate ValidRun(jobs: Jobs, ops: seq<Op>) {
    forall i :: 0 <= i < |ops| && ops[i].OpDequeue? ==> IsPick(After(jobs, ops[..i]), ops[i].now, ops[i].pick)
  }

  /** Nothing in the run enqueues or retries the item again. */
  predicate Untouched(ops: seq<Op>, item: Item) {
    forall i :: 0 <= i < |ops| ==>
      !(ops[i].OpEnqueue? && ops[i].item == item) && !(ops[i].OpRetry? && ops[i].item == item)
  }

  lemma {:induction false} AvailabilityStays(jobs: Jobs, ops: seq<Op>, item: Item)
    requires item in jobs && Untouched(ops, item)
    ensures item in After(jobs, ops) && After(jobs, ops)[item].availableAt == jobs[item].availableAt
  {
    if ops != [] {
      AvailabilityStays(jobs, ops[..|ops| - 1], item);
    }
  }

  /** A job retried at `t` with delay `d` is not handed out before `t + d`, whatever happens to the
      table meanwhile, unless it is enqueued or retried again. */
  lemma RetryIsNotEarly(jobs: Jobs, item: Item, reason: string, d: int, t: int, ops: seq<Op>, i: nat)
    requires item in jobs && ValidRun(MarkRetry(jobs, item, reason, d, t), ops) && Untouched(ops, item)
    requires i < |ops| && ops[i].OpDequeue? && ops[i].pick == Some(item)
    ensures ops[i].now >= t + d
  {
    AvailabilityStays(MarkRetry(jobs, item, reason, d, t), ops[..i], item);
  }

  // ---------- what a row shows after a run ----------

  /** The retries of the item since its row exists, which begins with its first enqueue. */
  function RetriesSince(ops: seq<Op>, item: Item, known: bool): nat {
    if ops == [] then 0
    else
      var front, last := ops[..|ops| - 1], ops[|ops| - 1];
      RetriesSince(front, item, known) +
      if last.OpRetry? && last.item == item && (known || Enqueued(front, item)) then 1 else 0
  }

  predicate Enqueued(ops: seq<Op>, item: Item) {
    ops != [] && (Enqueued(ops[..|ops| - 1], item) || (ops[|ops| - 1].OpEnqueue? && ops[|ops| - 1].item == item))
  }

  /** The clock at the first enqueue of the run. */
  function FirstEnqueue(ops: seq<Op>, item: Item): int
    requires Enqueued(ops, item)
  {
    if Enqueued(ops[..|ops| - 1], item) then FirstEnqueue(ops[..|ops| - 1], item) else ops[|ops| - 1].now
  }

  /** Over any run: an item has a row if it had one or was enqueued; its attempts are what they were and the
      retries since; and it was created when it was first enqueued, whatever happened later. */
  lemma {:induction false} RowShows(jobs: Jobs, ops: seq<Op>, item: Item)
    ensures var after := After(jobs, ops);
            && (item in after <==> item in jobs || Enqueued(ops, item))
            && AttemptsOf(after, item) == AttemptsOf(jobs, item) + RetriesSince(ops, item, item in jobs)
            && (item in jobs ==> after[item].createdAt == jobs[item].createdAt)
            && (item !in jobs && Enqueued(ops, item) ==> after[item].createdAt == FirstEnqueue(ops, item))
  {
    if ops != [] {
      RowShows(jobs, ops[..|ops| - 1], item);
    }
  }
}
