/** The lease queue: a ready list, a scored set of leases and delayed retries, one hash per job and
    a dead-letter list. Each method is one atomic step here; `RedisCommands` takes it apart. */
module RedisQueue {
  import opened Text
  import opened Items

  datatype JobHash = JobHash(state: JobState, attempts: nat, lastError: string, createdAt: Option<int>, updatedAt: int)

  datatype DeadLetter = DeadLetter(item: Item, lastError: string)

  /** List elements and set members are JSON texts of items; JSON is injective, so items stand for
      their texts. Job hashes are found by the concatenated key. */
  datatype Queue = Queue(ready: seq<Item>, running: map<Item, int>, jobs: map<string, JobHash>, dlq: seq<DeadLetter>)

  const EMPTY_QUEUE := Queue([], map[], map[], [])

  /** The part of the hash key that depends on the item. */
  function JobKey(item: Item): string { item.tenantId + ":" + item.taskId }

  function HashOf(q: Queue, key: string): JobHash {
    if key in q.jobs then q.jobs[key] else JobHash(JobQueued, 0, "", None, 0)
  }

  function SetState(q: Queue, key: string, state: JobState, now: int): Queue {
    q.(jobs := q.jobs[key := HashOf(q, key).(state := state, updatedAt := now)])
  }

  // ---------- the methods as functions on queues ----------

  function Enqueue(q: Queue, item: Item, now: int): Queue {
    var h := HashOf(q, JobKey(item));
    var created := if h.createdAt.Some? then h.createdAt else Some(now);
    q.(jobs := q.jobs[JobKey(item) := h.(state := JobQueued, createdAt := created, updatedAt := now)],
       ready := q.ready + [item])
  }

  predicate Expired(running: map<Item, int>, item: Item, now: int) {
    item in running && 0 <= running[item] <= now
  }

  /** `zrangebyscore(running, 0, now)`: the expired members by ascending score; ties in any order. */
  ghost predicate IsExpiredOrder(running: map<Item, int>, now: int, order: seq<Item>) {
    && (forall i :: i in order <==> Expired(running, i, now))
    && (forall a, b :: 0 <= a < b < |order| ==>
          && order[a] != order[b]
          && (order[a] in running && order[b] in running ==> running[order[a]] <= running[order[b]]))
  }

  function RequeueOne(q: Queue, item: Item, now: int): Queue {
    SetState(q.(running := q.running - {item}, ready := q.ready + [item]), JobKey(item), JobQueued, now)
  }

  function Requeue(q: Queue, order: seq<Item>, now: int): Queue {
    if order == [] then q else RequeueOne(Requeue(q, order[..|order| - 1], now), order[|order| - 1], now)
  }

  /** A sweep puts the members it moves behind what is ready, in its order. */
  lemma {:induction false} SweepAppends(q: Queue, order: seq<Item>, now: int)
    ensures Requeue(q, order, now).ready == q.ready + order
  {
    if order != [] {
      SweepAppends(q, order[..|order| - 1], now);
      assert order == order[..|order| - 1] + [order[|order| - 1]];
    }
  }

  function Lease(q: Queue, leaseAt: int, timeout: int): (Option<Item>, Queue) {
    if q.ready == [] then (None, q)
    else
      var item := q.ready[0];
      (Some(item),
       SetState(q.(ready := q.ready[1..], running := q.running[item := leaseAt + timeout]), JobKey(item), JobRunning,
           leaseAt))
  }

  function Dequeue(q: Queue, order: seq<Item>, now: int, leaseAt: int, timeout: int): (Option<Item>, Queue) {
    Lease(Requeue(q, order, now), leaseAt, timeout)
  }

  function MarkRetry(q: Queue, item: Item, reason: string, delay: int, now: int): Queue {
    var h := HashOf(q, JobKey(item));
    var q' := q.(running := q.running - {item},
                 jobs := q.jobs[JobKey(item) := h.(state := JobQueued, attempts := h.attempts + 1,
                                                       lastError := reason, updatedAt := now)]);
    if delay <= 0 then q'.(ready := q'.ready + [item]) else q'.(running := q'.running[item := now + delay])
  }

  function MarkDone(q: Queue, item: Item, now: int): Queue {
    SetState(q.(running := q.running - {item}), JobKey(item), JobDone, now)
  }

  function MarkFailed(q: Queue, item: Item, reason: string, now: int): Queue {
    var h := HashOf(q, JobKey(item));
    q.(running := q.running - {item},
       jobs := q.jobs[JobKey(item) := h.(state := JobFailed, lastError := reason, updatedAt := now)],
       dlq := q.dlq + [DeadLetter(item, reason)])
  }

  // ---------- the class ----------

  class RedisTaskQueue {
    var ready: seq<Item>
    var running: map<Item, int>
    var jobs: map<string, JobHash>
    var dlq: seq<DeadLetter>
    const timeout: int

    function Contents(): Queue
      reads this
    {
      Queue(ready, running, jobs, dlq)
    }

    constructor (timeout: int)
      ensures Contents() == EMPTY_QUEUE && this.timeout == timeout
    {
      ready, running, jobs, dlq := [], map[], map[], [];
      this.timeout := timeout;
    }

    method HSetState(key: string, state: JobState, now: int)
      modifies this`jobs
      ensures Contents() == SetState(old(Contents()), key, state, now)
    {
      var h := if key in jobs then jobs[key] else JobHash(JobQueued, 0, "", None, 0);
      jobs := jobs[key := h.(state := state, updatedAt := now)];
    }

    method EnqueueItem(item: Item, now: int)
      modifies this
      ensures Contents() == Enqueue(old(Contents()), item, now)
      ensures var key, was := JobKey(item), old(HashOf(Contents(), JobKey(item)));
              && jobs == old(jobs)[key := jobs[key]] && jobs[key].state == JobQueued && jobs[key].updatedAt == now
              && jobs[key].attempts == was.attempts && jobs[key].lastError == was.lastError
              && jobs[key].createdAt == if was.createdAt.Some? then was.createdAt else Some(now)
      ensures ready == old(ready) + [item] && running == old(running) && dlq == old(dlq)
    {
      var key := JobKey(item);
      var h := if key in jobs then jobs[key] else JobHash(JobQueued, 0, "", None, 0);
      var created := if h.createdAt.Some? then h.createdAt else Some(now);
      jobs := jobs[key := h.(state := JobQueued, createdAt := created, updatedAt := now)];
      ready := ready + [item];
    }

    /** The expired members in score order. */
    method RangeByScore(now: int) returns (order: seq<Item>)
      ensures IsExpiredOrder(running, now, order)
    {
      order := [];
      var rest := set i | i in running && 0 <= running[i] <= now;
      while rest != {}
        invariant rest <= running.Keys
        invariant forall i :: Expired(running, i, now) <==> i in order || i in rest
        invariant forall i :: i in order ==> i in running && i !in rest
        invariant forall i, j :: i in order && j in rest ==> running[i] <= running[j]
        invariant forall a, b :: 0 <= a < b < |order| ==> order[a] != order[b] && running[order[a]] <= running[order[b]]
        decreases rest
      {
        var least := LeastOf(rest);
        order := order + [least];
        rest := rest - {least};
      }
    }

    method LeastOf(members: set<Item>) returns (least: Item)
      requires members != {} && members <= running.Keys
      ensures least in members && forall i :: i in members ==> running[least] <= running[i]
    {
      least :| least in members;
      var rest := members - {least};
      while rest != {}
        invariant rest <= members && least in members
        invariant forall i :: i in members && i !in rest ==> running[least] <= running[i]
        decreases rest
      {
        var i :| i in rest;
        rest := rest - {i};
        if running[i] < running[least] {
          least := i;
        }
      }
    }

    method RequeueExpired(now: int) returns (ghost order: seq<Item>)
      modifies this
      ensures IsExpiredOrder(old(running), now, order)
      ensures Contents() == Requeue(old(Contents()), order, now)
    {
      var expired := RangeByScore(now);
      order := expired;
      for n := 0 to |expired|
        invariant Contents() == Requeue(old(Contents()), expired[..n], now)
      {
        assert expired[..n + 1][..n] == expired[..n];
        running := running - {expired[n]};
        ready := ready + [expired[n]];
        HSetState(JobKey(expired[n]), JobQueued, now);
      }
      assert expired[..|expired|] == expired;
    }

    method DequeueItem(now: int, leaseAt: int) returns (item: Option<Item>, ghost order: seq<Item>)
      modifies this
      ensures IsExpiredOrder(old(running), now, order)
      ensures (item, Contents()) == Dequeue(old(Contents()), order, now, leaseAt, timeout)
      ensures item.None? <==> old(ready) + order == []
      ensures item.Some? ==>
                && [item.value] + ready == old(ready) + order
                && item.value in running && running[item.value] == leaseAt + timeout
                && JobKey(item.value) in jobs && jobs[JobKey(item.value)].state == JobRunning
    {
      order := RequeueExpired(now);
      SweepAppends(old(Contents()), order, now);
      if ready == [] {
        return None, order;
      }
      var first := ready[0];
      ready := ready[1..];
      running := running[first := leaseAt + timeout];
      HSetState(JobKey(first), JobRunning, leaseAt);
      return Some(first), order;
    }

    method Retry(item: Item, reason: string, delay: int, now: int)
      modifies this
      ensures Contents() == MarkRetry(old(Contents()), item, reason, delay, now)
      ensures var key := item.tenantId + ":" + item.taskId;
              && key in jobs && jobs == old(jobs)[key := jobs[key]]
              && jobs[key].attempts == (if key in old(jobs) then old(jobs)[key].attempts else 0) + 1
              && jobs[key].state == JobQueued && jobs[key].lastError == reason && jobs[key].updatedAt == now
              && jobs[key].createdAt == if key in old(jobs) then old(jobs)[key].createdAt else None
      ensures ready == if delay <= 0 then old(ready) + [item] else old(ready)
      ensures running == if delay <= 0 then old(running) - {item} else old(running)[item := now + delay]
      ensures dlq == old(dlq)
    {
      var key := JobKey(item);
      var h := if key in jobs then jobs[key] else JobHash(JobQueued, 0, "", None, 0);
      running := running - {item};
      jobs := jobs[key := h.(state := JobQueued, attempts := h.attempts + 1, lastError := reason, updatedAt := now)];
      if delay <= 0 {
        ready := ready + [item];
      } else {
        running := running[item := now + delay];
      }
    }

    method Done(item: Item, now: int)
      modifies this
      ensures Contents() == MarkDone(old(Contents()), item, now)
      ensures var key, was := JobKey(item), old(HashOf(Contents(), JobKey(item)));
              && jobs == old(jobs)[key := jobs[key]] && jobs[key].state == JobDone && jobs[key].updatedAt == now
              && jobs[key].attempts == was.attempts && jobs[key].lastError == was.lastError
              && jobs[key].createdAt == was.createdAt
      ensures ready == old(ready) && running == old(running) - {item} && dlq == old(dlq)
    {
      running := running - {item};
      HSetState(JobKey(item), JobDone, now);
    }

    method Fail(item: Item, reason: string, now: int)
      modifies this
      ensures Contents() == MarkFailed(old(Contents()), item, reason, now)
      ensures var key, was := JobKey(item), old(HashOf(Contents(), JobKey(item)));
              && jobs == old(jobs)[key := jobs[key]] && jobs[key].state == JobFailed && jobs[key].updatedAt == now
              && jobs[key].attempts == was.attempts && jobs[key].lastError == reason
              && jobs[key].createdAt == was.createdAt
      ensures ready == old(ready) && running == old(running) - {item} && dlq == old(dlq) + [DeadLetter(item, reason)]
    {
      var key := JobKey(item);
      var h := if key in jobs then jobs[key] else JobHash(JobQueued, 0, "", None, 0);
      running := running - {item};
      jobs := jobs[key := h.(state := JobFailed, lastError := reason, updatedAt := now)];
      dlq := dlq + [DeadLetter(item, reason)];
    }
  }

  // ---------- runs ----------

  datatype Op =
    | OpEnqueue(item: Item, now: int)
    | OpDequeue(order: seq<Item>, now: int, leaseAt: int)
    | OpRetry(item: Item, reason: string, delay: int, now: int)
    | OpDone(item: Item, now: int)
    | OpFail(item: Item, reason: string, now: int)

  function Apply(q: Queue, op: Op, timeout: int): Queue {
    match op
    case OpEnqueue(item, now) => Enqueue(q, item, now)
    case OpDequeue(order, now, leaseAt) => Dequeue(q, order, now, leaseAt, timeout).1
    case OpRetry(item, reason, delay, now) => MarkRetry(q, item, reason, delay, now)
    case OpDone(item, now) => MarkDone(q, item, now)
    case OpFail(item, reason, now) => MarkFailed(q, item, reason, now)
  }

  function After(ops: seq<Op>, timeout: int): Queue {
    if ops == [] then EMPTY_QUEUE else Apply(After(ops[..|ops| - 1], timeout), ops[|ops| - 1], timeout)
  }

  /** Dequeues see the members that are expired at their clock reading. */
  ghost predicate Enabled(q: Queue, op: Op) {
    op.OpDequeue? ==> IsExpiredOrder(q.running, op.now, op.order)
  }

  ghost predicate ValidRun(ops: seq<Op>, timeout: int) {
    forall i :: 0 <= i < |ops| ==> Enabled(After(ops[..i], timeout), ops[i])
  }

  // ---------- no job is lost ----------

  predicate Holds(q: Queue, item: Item) { item in q.ready || item in q.running }

  ghost predicate HeldKey(q: Queue, key: string) {
    exists item :: JobKey(item) == key && Holds(q, item)
  }

  ghost predicate LetterFor(q: Queue, key: string) {
    exists i :: 0 <= i < |q.dlq| && JobKey(q.dlq[i].item) == key
  }

  /** A hash that says queued or running has an item in the list or the set; one that says failed
      has a dead letter. */
  ghost predicate NoJobLost(q: Queue) {
    && (forall key :: key in q.jobs && Live(q.jobs[key].state) ==> HeldKey(q, key))
    && (forall key :: key in q.jobs && q.jobs[key].state == JobFailed ==> LetterFor(q, key))
  }

  lemma RequeueOneKeeps(q: Queue, item: Item, now: int)
    requires NoJobLost(q)
    ensures NoJobLost(RequeueOne(q, item, now))
  {
    var q' := RequeueOne(q, item, now);
    forall key | key in q'.jobs && Live(q'.jobs[key].state) ensures HeldKey(q', key) {
      if key == JobKey(item) {
        assert Holds(q', item);
      } else {
        var w :| JobKey(w) == key && Holds(q, w);
        assert Holds(q', w);
      }
    }
  }

  lemma {:induction false} RequeueKeeps(q: Queue, order: seq<Item>, now: int)
    requires NoJobLost(q)
    ensures NoJobLost(Requeue(q, order, now))
  {
    if order != [] {
      RequeueKeeps(q, order[..|order| - 1], now);
      RequeueOneKeeps(Requeue(q, order[..|order| - 1], now), order[|order| - 1], now);
    }
  }

  lemma LeaseKeeps(q: Queue, leaseAt: int, timeout: int)
    requires NoJobLost(q)
    ensures NoJobLost(Lease(q, leaseAt, timeout).1)
  {
    var q' := Lease(q, leaseAt, timeout).1;
    if q.ready != [] {
      var item := q.ready[0];
      assert q.ready == [item] + q.ready[1..];
      forall key | key in q'.jobs && Live(q'.jobs[key].state) ensures HeldKey(q', key) {
        if key == JobKey(item) {
          assert Holds(q', item);
        } else {
          var w :| JobKey(w) == key && Holds(q, w);
          assert Holds(q', w);
        }
      }
    }
  }

  lemma EnqueueKeeps(q: Queue, item: Item, now: int)
    requires NoJobLost(q)
    ensures NoJobLost(Enqueue(q, item, now))
  {
    var q' := Enqueue(q, item, now);
    forall key | key in q'.jobs && Live(q'.jobs[key].state) ensures HeldKey(q', key) {
      if key == JobKey(item) {
        assert Holds(q', item);
      } else {
        var w :| JobKey(w) == key && Holds(q, w);
        assert Holds(q', w);
      }
    }
  }

  lemma RetryKeeps(q: Queue, item: Item, reason: string, delay: int, now: int)
    requires NoJobLost(q)
    ensures NoJobLost(MarkRetry(q, item, reason, delay, now))
  {
    var q' := MarkRetry(q, item, reason, delay, now);
    forall key | key in q'.jobs && Live(q'.jobs[key].state) ensures HeldKey(q', key) {
      if key == JobKey(item) {
        assert Holds(q', item);
      } else {
        var w :| JobKey(w) == key && Holds(q, w);
        assert Holds(q', w);
      }
    }
  }

  lemma AckKeeps(q: Queue, item: Item, reason: string, now: int)
    requires NoJobLost(q)
    ensures NoJobLost(MarkDone(q, item, now)) && NoJobLost(MarkFailed(q, item, reason, now))
  {
    var d, f := MarkDone(q, item, now), MarkFailed(q, item, reason, now);
    forall key | key in q.jobs && Live(q.jobs[key].state) && key != JobKey(item)
      ensures HeldKey(d, key) && HeldKey(f, key)
    {
      var w :| JobKey(w) == key && Holds(q, w);
      assert Holds(d, w) && Holds(f, w);
    }
    forall key | key in f.jobs && f.jobs[key].state == JobFailed ensures LetterFor(f, key) {
      if key == JobKey(item) {
        assert JobKey(f.dlq[|q.dlq|].item) == key;
      } else {
        var i :| 0 <= i < |q.dlq| && JobKey(q.dlq[i].item) == key;
        assert JobKey(f.dlq[i].item) == key;
      }
    }
  }

  /** In every reachable state, under late acks, expiry and re-enqueues alike. */
  lemma {:induction false} NoJobIsLost(ops: seq<Op>, timeout: int)
    ensures NoJobLost(After(ops, timeout))
  {
    if ops != [] {
      var q, op := After(ops[..|ops| - 1], timeout), ops[|ops| - 1];
      NoJobIsLost(ops[..|ops| - 1], timeout);
      match op
      case OpEnqueue(item, now) => EnqueueKeeps(q, item, now);
      case OpDequeue(order, now, leaseAt) =>
        RequeueKeeps(q, order, now);
        LeaseKeeps(Requeue(q, order, now), leaseAt, timeout);
      case OpRetry(item, reason, delay, now) => RetryKeeps(q, item, reason, delay, now);
      case OpDone(item, now) => AckKeeps(q, item, "", now);
      case OpFail(item, reason, now) => AckKeeps(q, item, reason, now);
    }
  }
}
