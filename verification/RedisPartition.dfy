/** Where a job of the lease queue is: in exactly one place, as long as nobody touches a job that
    is waiting in the ready list. */
module RedisPartition {
  import opened Text
  import opened Items
  import opened RedisQueue

  // ---------- job keys ----------

  /** The tenant id `t` is `u`, a colon, and possibly more. */
  predicate Extends(t: string, u: string) { |u| < |t| && t[..|u|] == u && t[|u|] == ':' }

  /** No tenant id of the deployment extends another one. */
  predicate Separate(tenants: set<string>) {
    forall t, u :: t in tenants && u in tenants ==> !Extends(t, u)
  }

  predicate Of(tenants: set<string>, item: Item) { item.tenantId in tenants }

  /** Items of different tenants have one key only if one tenant id extends the other. */
  lemma SharedKeyExtends(a: Item, b: Item)
    requires JobKey(a) == JobKey(b) && a != b
    ensures Extends(a.tenantId, b.tenantId) || Extends(b.tenantId, a.tenantId)
  {
    var key, m, n := JobKey(a), |a.tenantId|, |b.tenantId|;
    assert key[m] == ':' && key == b.tenantId + ":" + b.taskId && key[n] == ':';
    assert a.tenantId == key[..m] && b.tenantId == key[..n];
    assert a.taskId == key[m + 1..] && b.taskId == key[n + 1..];
    if m < n {
      assert b.tenantId[..m] == key[..m] && b.tenantId[m] == key[m];
    } else if n < m {
      assert a.tenantId[..n] == key[..n] && a.tenantId[n] == key[n];
    }
  }

  /** What is left of `t` after `u` and its colon, with the task id behind it. */
  function Partner(t: string, u: string, taskId: string): (b: Item)
    requires Extends(t, u)
    ensures b.tenantId == u && b != Item(t, taskId) && JobKey(b) == JobKey(Item(t, taskId))
  {
    var b := Item(u, t[|u| + 1..] + ":" + taskId);
    assert t == u + ":" + t[|u| + 1..];
    assert JobKey(b) == u + ":" + (t[|u| + 1..] + ":" + taskId) == t + ":" + taskId;
    b
  }

  /** Two tenants can share a job key if and only if one id extends the other. */
  lemma TenantsShareKeysIff(t: string, u: string)
    requires t != u
    ensures (exists x, y :: JobKey(Item(t, x)) == JobKey(Item(u, y))) <==> Extends(t, u) || Extends(u, t)
  {
    if x, y :| JobKey(Item(t, x)) == JobKey(Item(u, y)) {
      SharedKeyExtends(Item(t, x), Item(u, y));
    }
    if Extends(t, u) {
      var b := Partner(t, u, "");
      assert JobKey(Item(t, "")) == JobKey(Item(u, b.taskId));
    }
    if Extends(u, t) {
      var b := Partner(u, t, "");
      assert JobKey(Item(t, b.taskId)) == JobKey(Item(u, ""));
    }
  }

  /** Every item whose tenant id has a colon has its key in common with an item of a shorter id. */
  lemma ColonHasPartner(item: Item, i: nat)
    requires i < |item.tenantId| && item.tenantId[i] == ':'
    ensures exists b :: b != item && b.tenantId == item.tenantId[..i] && JobKey(b) == JobKey(item)
  {
    var b := Partner(item.tenantId, item.tenantId[..i], item.taskId);
    assert b != item && JobKey(b) == JobKey(item);
  }

  /** Among tenants none of which extends another, an item has its key for itself. */
  lemma JobKeyInjective(tenants: set<string>, a: Item, b: Item)
    requires Separate(tenants) && Of(tenants, a) && Of(tenants, b) && JobKey(a) == JobKey(b)
    ensures a == b
  {
    if a != b {
      SharedKeyExtends(a, b);
    }
  }

  /** Where one tenant id extends another, the two tenants' items share a hash: an item of the first is
      acknowledged and nowhere, and its hash says queued because the other item was enqueued. */
  lemma SharedHash(t: string, u: string, taskId: string, timeout: int)
    requires Extends(t, u)
    ensures var a, b := Item(t, taskId), Partner(t, u, taskId);
            var q := After(SharingRun(a, b), timeout);
            && JobKey(a) in q.jobs && q.jobs[JobKey(a)].state == JobQueued && !Holds(q, a) && Holds(q, b)
    ensures ValidRun(SharingRun(Item(t, taskId), Partner(t, u, taskId)), timeout)
  {
    var a, b := Item(t, taskId), Partner(t, u, taskId);
    SharingRunStates(a, b, timeout);
    SharingRunValid(a, b, timeout);
  }

  function SharingRun(a: Item, b: Item): seq<Op> {
    [OpEnqueue(a, 1), OpDequeue([], 2, 2), OpDone(a, 3), OpEnqueue(b, 4)]
  }

  lemma TakenOnce(a: Item, timeout: int)
    ensures var q := After([OpEnqueue(a, 1)], timeout); q.ready == [a] && q.running == map[]
    ensures var q := After([OpEnqueue(a, 1), OpDequeue([], 2, 2)], timeout);
            q.ready == [] && q.running == map[a := 2 + timeout]
  {
    AfterOne([], OpEnqueue(a, 1), timeout);
    AfterOne([OpEnqueue(a, 1)], OpDequeue([], 2, 2), timeout);
    assert [] + [OpEnqueue(a, 1)] == [OpEnqueue(a, 1)];
    assert [OpEnqueue(a, 1)] + [OpDequeue([], 2, 2)] == [OpEnqueue(a, 1), OpDequeue([], 2, 2)];
  }

  lemma SharingRunStates(a: Item, b: Item, timeout: int)
    requires a != b && JobKey(a) == JobKey(b)
    ensures var q := After(SharingRun(a, b), timeout);
            && q.ready == [b] && q.running == map[] && JobKey(a) in q.jobs && q.jobs[JobKey(a)].state == JobQueued
  {
    var two := [OpEnqueue(a, 1), OpDequeue([], 2, 2)];
    TakenOnce(a, timeout);
    AfterOne(two, OpDone(a, 3), timeout);
    AfterOne(two + [OpDone(a, 3)], OpEnqueue(b, 4), timeout);
    assert two + [OpDone(a, 3)] + [OpEnqueue(b, 4)] == SharingRun(a, b);
    var done := MarkDone(After(two, timeout), a, 3);
    assert done.ready == [] && done.running == map[];
    assert Enqueue(done, b, 4).ready == [] + [b];
  }

  lemma SharingRunValid(a: Item, b: Item, timeout: int)
    ensures ValidRun(SharingRun(a, b), timeout)
  {
    TakenOnce(a, timeout);
    assert SharingRun(a, b)[..1] == [OpEnqueue(a, 1)];
  }

  lemma AfterOne(ops: seq<Op>, op: Op, timeout: int)
    ensures After(ops + [op], timeout) == Apply(After(ops, timeout), op, timeout)
  {
    assert (ops + [op])[..|ops|] == ops;
  }

  // ---------- the partition ----------

  predicate Known(q: Queue, item: Item) { JobKey(item) in q.jobs }

  function StateOf(q: Queue, item: Item): JobState
    requires Known(q, item)
  {
    q.jobs[JobKey(item)].state
  }

  ghost predicate AllOf(tenants: set<string>, q: Queue) {
    forall item :: Holds(q, item) ==> Of(tenants, item)
  }

  predicate NoRepeats(s: seq<Item>) { forall i, j :: 0 <= i < j < |s| ==> s[i] != s[j] }

  /** Ready jobs are queued, there once and not leased; leased or delayed jobs are live; a live job
      is somewhere. */
  ghost predicate Partitioned(tenants: set<string>, q: Queue) {
    && AllOf(tenants, q)
    && NoRepeats(q.ready)
    && (forall item :: item in q.ready ==> item !in q.running && Known(q, item) && StateOf(q, item) == JobQueued)
    && (forall item :: item in q.running ==> Known(q, item) && Live(StateOf(q, item)))
    && (forall item :: Of(tenants, item) && Known(q, item) && Live(StateOf(q, item)) ==> Holds(q, item))
  }

  datatype Place = InReady | Leased | Delayed | Finished | DeadLettered

  predicate At(q: Queue, item: Item, place: Place)
    requires Known(q, item)
  {
    match place
    case InReady => item in q.ready
    case Leased => item in q.running && StateOf(q, item) == JobRunning
    case Delayed => item in q.running && StateOf(q, item) == JobQueued
    case Finished => StateOf(q, item) == JobDone
    case DeadLettered => StateOf(q, item) == JobFailed
  }

  /** Every known job is at exactly one place. */
  lemma ExactlyOnePlace(tenants: set<string>, q: Queue, item: Item)
    requires Partitioned(tenants, q) && Of(tenants, item) && Known(q, item)
    ensures exists p :: At(q, item, p) && forall r :: At(q, item, r) ==> r == p
    ensures multiset(q.ready)[item] <= 1
  {
    var p := if item in q.ready then InReady
             else if item in q.running then (if StateOf(q, item) == JobRunning then Leased else Delayed)
             else if StateOf(q, item) == JobDone then Finished else DeadLettered;
    assert At(q, item, p);
    OnceInSequence(q.ready, item);
  }

  lemma {:induction false} OnceInSequence(s: seq<Item>, item: Item)
    requires NoRepeats(s)
    ensures multiset(s)[item] <= 1
  {
    if s != [] {
      assert s == [s[0]] + s[1..];
      OnceInSequence(s[1..], item);
      if item == s[0] {
        assert item !in s[1..];
      }
    }
  }

  // ---------- steps ----------

  lemma OtherKeys(tenants: set<string>, item: Item)
    requires Separate(tenants) && Of(tenants, item)
    ensures forall other :: Of(tenants, other) && JobKey(other) == JobKey(item) ==> other == item
  {
    forall other | Of(tenants, other) && JobKey(other) == JobKey(item) ensures other == item {
      JobKeyInjective(tenants, other, item);
    }
  }

  lemma RequeueOnePartition(tenants: set<string>, q: Queue, item: Item, now: int)
    requires Separate(tenants) && Partitioned(tenants, q) && item in q.running
    ensures Partitioned(tenants, RequeueOne(q, item, now))
  {
    assert Holds(q, item);
    OtherKeys(tenants, item);
    var q' := RequeueOne(q, item, now);
    forall other | Holds(q', other) ensures Of(tenants, other) {
      assert Holds(q, other);
    }
    forall other | Of(tenants, other) && Known(q', other) && Live(StateOf(q', other)) ensures Holds(q', other) {
      if other != item {
        assert Holds(q, other);
      }
    }
  }

  lemma {:induction false} RequeuePartition(tenants: set<string>, q: Queue, order: seq<Item>, now: int)
    requires Separate(tenants) && Partitioned(tenants, q) && NoRepeats(order)
    requires forall i :: i in order ==> i in q.running
    ensures Partitioned(tenants, Requeue(q, order, now))
    ensures forall i :: i in Requeue(q, order, now).running <==> i in q.running && i !in order
  {
    if order != [] {
      var front, last := order[..|order| - 1], order[|order| - 1];
      RequeuePartition(tenants, q, front, now);
      assert order == front + [last] && last !in front;
      RequeueOnePartition(tenants, Requeue(q, front, now), last, now);
    }
  }

  lemma LeasePartition(tenants: set<string>, q: Queue, leaseAt: int, timeout: int)
    requires Separate(tenants) && Partitioned(tenants, q)
    ensures Partitioned(tenants, Lease(q, leaseAt, timeout).1)
  {
    if q.ready != [] {
      var item, q' := q.ready[0], Lease(q, leaseAt, timeout).1;
      assert q.ready == [item] + q.ready[1..];
      assert Holds(q, item);
      OtherKeys(tenants, item);
      assert item !in q.ready[1..];
      forall other | Holds(q', other) ensures Of(tenants, other) {
        assert Holds(q, other);
      }
      forall other | Of(tenants, other) && Known(q', other) && Live(StateOf(q', other)) ensures Holds(q', other) {
        if other != item {
          assert Holds(q, other);
        }
      }
    }
  }

  /** Which steps may touch which jobs: an enqueue any job that is neither ready nor in the set, an
      acknowledgement any job that is not in the ready list; dequeues always. */
  predicate Guard(q: Queue, op: Op) {
    match op
    case OpEnqueue(item, _) => !Holds(q, item)
    case OpDequeue(_, _, _) => true
    case OpRetry(item, _, _, _) => item !in q.ready
    case OpDone(item, _) => item !in q.ready
    case OpFail(item, _, _) => item !in q.ready
  }

  predicate OpOf(tenants: set<string>, op: Op) {
    op.OpDequeue? || Of(tenants, op.item)
  }

  lemma EnqueuePartition(tenants: set<string>, q: Queue, item: Item, now: int)
    requires Separate(tenants) && Partitioned(tenants, q) && Of(tenants, item)
    ensures Partitioned(tenants, Enqueue(q, item, now)) <==> !Holds(q, item)
  {
    OtherKeys(tenants, item);
    var q' := Enqueue(q, item, now);
    assert q'.ready[|q.ready|] == item;
    if !Holds(q, item) {
      forall other | Holds(q', other) ensures Of(tenants, other) {
        assert other == item || Holds(q, other);
      }
      forall other | Of(tenants, other) && Known(q', other) && Live(StateOf(q', other)) ensures Holds(q', other) {
        if other != item {
          assert Holds(q, other);
        }
      }
    } else if item in q.ready {
      var i :| 0 <= i < |q.ready| && q.ready[i] == item;
      assert q'.ready[i] == q'.ready[|q.ready|];
    }
  }

  lemma RetryKeepsPartition(tenants: set<string>, q: Queue, item: Item, reason: string, delay: int, now: int)
    requires Separate(tenants) && Partitioned(tenants, q) && Of(tenants, item) && item !in q.ready
    ensures Partitioned(tenants, MarkRetry(q, item, reason, delay, now))
  {
    OtherKeys(tenants, item);
    var q' := MarkRetry(q, item, reason, delay, now);
    forall other | Holds(q', other) ensures Of(tenants, other) {
      assert other == item || Holds(q, other);
    }
    forall other | Of(tenants, other) && Known(q', other) && Live(StateOf(q', other)) ensures Holds(q', other) {
      if other != item {
        assert Holds(q, other);
      }
    }
  }

  lemma RetryBreaksPartition(tenants: set<string>, q: Queue, item: Item, reason: string, delay: int, now: int)
    requires Partitioned(tenants, q) && Of(tenants, item) && item in q.ready
    ensures !Partitioned(tenants, MarkRetry(q, item, reason, delay, now))
  {
    var q' := MarkRetry(q, item, reason, delay, now);
    var i :| 0 <= i < |q.ready| && q.ready[i] == item;
    if delay <= 0 {
      assert q'.ready[i] == q'.ready[|q.ready|];
    } else {
      assert item in q'.ready && item in q'.running;
    }
  }

  lemma RetryPartition(tenants: set<string>, q: Queue, item: Item, reason: string, delay: int, now: int)
    requires Separate(tenants) && Partitioned(tenants, q) && Of(tenants, item)
    ensures Partitioned(tenants, MarkRetry(q, item, reason, delay, now)) <==> item !in q.ready
  {
    if item in q.ready {
      RetryBreaksPartition(tenants, q, item, reason, delay, now);
    } else {
      RetryKeepsPartition(tenants, q, item, reason, delay, now);
    }
  }

  lemma DonePartition(tenants: set<string>, q: Queue, item: Item, now: int)
    requires Separate(tenants) && Partitioned(tenants, q) && Of(tenants, item)
    ensures Partitioned(tenants, MarkDone(q, item, now)) <==> item !in q.ready
  {
    OtherKeys(tenants, item);
    var q' := MarkDone(q, item, now);
    if item !in q.ready {
      forall other | Holds(q', other) ensures Of(tenants, other) {
        assert Holds(q, other);
      }
      forall other | Of(tenants, other) && Known(q', other) && Live(StateOf(q', other)) ensures Holds(q', other) {
        assert other != item && Holds(q, other);
      }
    } else {
      assert item in q'.ready && StateOf(q', item) == JobDone;
    }
  }

  lemma FailPartition(tenants: set<string>, q: Queue, item: Item, reason: string, now: int)
    requires Separate(tenants) && Partitioned(tenants, q) && Of(tenants, item)
    ensures Partitioned(tenants, MarkFailed(q, item, reason, now)) <==> item !in q.ready
  {
    OtherKeys(tenants, item);
    var q' := MarkFailed(q, item, reason, now);
    if item !in q.ready {
      forall other | Holds(q', other) ensures Of(tenants, other) {
        assert Holds(q, other);
      }
      forall other | Of(tenants, other) && Known(q', other) && Live(StateOf(q', other)) ensures Holds(q', other) {
        assert other != item && Holds(q, other);
      }
    } else {
      assert item in q'.ready && StateOf(q', item) == JobFailed;
    }
  }

  /** A step keeps the partition exactly when its guard holds. */
  lemma StepKeepsPartition(tenants: set<string>, q: Queue, op: Op, timeout: int)
    requires Separate(tenants) && Partitioned(tenants, q) && OpOf(tenants, op) && Enabled(q, op)
    ensures Partitioned(tenants, Apply(q, op, timeout)) <==> Guard(q, op)
  {
    match op
    case OpEnqueue(item, now) => EnqueuePartition(tenants, q, item, now);
    case OpDequeue(order, now, leaseAt) =>
      RequeuePartition(tenants, q, order, now);
      LeasePartition(tenants, Requeue(q, order, now), leaseAt, timeout);
    case OpRetry(item, reason, delay, now) => RetryPartition(tenants, q, item, reason, delay, now);
    case OpDone(item, now) => DonePartition(tenants, q, item, now);
    case OpFail(item, reason, now) => FailPartition(tenants, q, item, reason, now);
  }

  /** Over whole runs: every state along the way is partitioned if and only if every step respected
      its guard. */
  lemma {:induction false} RunsPartitionExactly(tenants: set<string>, ops: seq<Op>, timeout: int)
    requires Separate(tenants) && ValidRun(ops, timeout) && forall i :: 0 <= i < |ops| ==> OpOf(tenants, ops[i])
    ensures (forall n :: 0 <= n <= |ops| ==> Partitioned(tenants, After(ops[..n], timeout))) <==>
            (forall i :: 0 <= i < |ops| ==> Guard(After(ops[..i], timeout), ops[i]))
  {
    if ops == [] {
      assert forall n :: 0 <= n <= |ops| ==> ops[..n] == [];
      assert Partitioned(tenants, EMPTY_QUEUE);
    } else {
      var front, last := ops[..|ops| - 1], ops[|ops| - 1];
      assert forall n :: 0 <= n <= |front| ==> front[..n] == ops[..n];
      assert ops[..|ops|] == ops && ops[..|front|] == front;
      RunsPartitionExactly(tenants, front, timeout);
      if forall i :: 0 <= i < |ops| ==> Guard(After(ops[..i], timeout), ops[i]) {
        forall i | 0 <= i < |front| ensures Guard(After(front[..i], timeout), front[i]) {
          assert Guard(After(ops[..i], timeout), ops[i]);
        }
        assert front[..|front|] == front;
        assert Partitioned(tenants, After(front, timeout));
        assert Guard(After(ops[..|front|], timeout), ops[|front|]);
        StepKeepsPartition(tenants, After(front, timeout), last, timeout);
        forall n | 0 <= n <= |ops| ensures Partitioned(tenants, After(ops[..n], timeout)) {
          if n < |ops| {
            assert Partitioned(tenants, After(front[..n], timeout));
          }
        }
      }
      if forall n :: 0 <= n <= |ops| ==> Partitioned(tenants, After(ops[..n], timeout)) {
        forall n | 0 <= n <= |front| ensures Partitioned(tenants, After(front[..n], timeout)) {
          assert Partitioned(tenants, After(ops[..n], timeout));
        }
        assert Partitioned(tenants, After(ops[..|front|], timeout))
            && Partitioned(tenants, After(ops[..|ops|], timeout));
        StepKeepsPartition(tenants, After(front, timeout), last, timeout);
        forall i | 0 <= i < |ops| ensures Guard(After(ops[..i], timeout), ops[i]) {
          if i < |front| {
            assert Guard(After(front[..i], timeout), front[i]);
          }
        }
      }
    }
  }

  // ---------- well-behaved runs ----------

  /** Each item is enqueued once, and only a job whose lease is running and not over is acknowledged. */
  predicate WellBehaved(q: Queue, op: Op) {
    match op
    case OpEnqueue(item, _) => !Known(q, item)
    case OpDequeue(_, _, _) => true
    case OpRetry(item, _, _, now) => LeaseRuns(q, item, now)
    case OpDone(item, now) => LeaseRuns(q, item, now)
    case OpFail(item, _, now) => LeaseRuns(q, item, now)
  }

  predicate LeaseRuns(q: Queue, item: Item, now: int) {
    Known(q, item) && StateOf(q, item) == JobRunning && item in q.running && now < q.running[item]
  }

  lemma WellBehavedIsGuarded(tenants: set<string>, q: Queue, op: Op)
    requires Partitioned(tenants, q) && WellBehaved(q, op)
    ensures Guard(q, op)
  {
  }

  /** On well-behaved runs the partition holds in every state, and so every enqueued job is at
      exactly one place. */
  lemma {:induction false} WellBehavedRunsPartition(tenants: set<string>, ops: seq<Op>, timeout: int)
    requires Separate(tenants) && ValidRun(ops, timeout)
    requires forall i :: 0 <= i < |ops| ==> OpOf(tenants, ops[i]) && WellBehaved(After(ops[..i], timeout), ops[i])
    ensures Partitioned(tenants, After(ops, timeout))
  {
    if ops != [] {
      var front := ops[..|ops| - 1];
      forall i | 0 <= i < |front|
        ensures Enabled(After(front[..i], timeout), front[i]) && OpOf(tenants, front[i])
        ensures WellBehaved(After(front[..i], timeout), front[i])
      {
        assert front[..i] == ops[..i] && front[i] == ops[i];
      }
      WellBehavedRunsPartition(tenants, front, timeout);
      WellBehavedIsGuarded(tenants, After(front, timeout), ops[|ops| - 1]);
      StepKeepsPartition(tenants, After(front, timeout), ops[|ops| - 1], timeout);
    }
  }

  // ---------- no job is lost, item by item ----------

  lemma {:induction false} RequeueOf(tenants: set<string>, q: Queue, order: seq<Item>, now: int)
    requires AllOf(tenants, q) && forall i :: i in order ==> i in q.running
    ensures AllOf(tenants, Requeue(q, order, now))
  {
    if order != [] {
      var front, last := order[..|order| - 1], order[|order| - 1];
      RequeueOf(tenants, q, front, now);
      assert last in order && Holds(q, last);
    }
  }

  /** Among separate tenants: whatever else happens, an item whose hash says queued or running
      is itself in the ready list or in the set. */
  lemma {:induction false} NoItemIsLost(tenants: set<string>, ops: seq<Op>, timeout: int)
    requires Separate(tenants) && ValidRun(ops, timeout) && forall i :: 0 <= i < |ops| ==> OpOf(tenants, ops[i])
    ensures AllOf(tenants, After(ops, timeout))
    ensures var q := After(ops, timeout);
            forall item :: Of(tenants, item) && Known(q, item) && Live(StateOf(q, item)) ==> Holds(q, item)
  {
    var q := After(ops, timeout);
    if ops != [] {
      var front, op := ops[..|ops| - 1], ops[|ops| - 1];
      forall i | 0 <= i < |front| ensures Enabled(After(front[..i], timeout), front[i]) && OpOf(tenants, front[i]) {
        assert front[..i] == ops[..i] && front[i] == ops[i];
      }
      NoItemIsLost(tenants, front, timeout);
      assert ops[..|front|] == front;
      StepOf(tenants, After(front, timeout), op, timeout);
    }
    NoJobIsLost(ops, timeout);
    forall item | Of(tenants, item) && Known(q, item) && Live(StateOf(q, item)) ensures Holds(q, item) {
      var w :| JobKey(w) == JobKey(item) && Holds(q, w);
      JobKeyInjective(tenants, w, item);
    }
  }

  lemma StepOf(tenants: set<string>, q: Queue, op: Op, timeout: int)
    requires AllOf(tenants, q) && OpOf(tenants, op) && Enabled(q, op)
    ensures AllOf(tenants, Apply(q, op, timeout))
  {
    if op.OpDequeue? {
      RequeueOf(tenants, q, op.order, op.now);
      var q1 := Requeue(q, op.order, op.now);
      if q1.ready != [] {
        assert q1.ready == [q1.ready[0]] + q1.ready[1..];
        assert Holds(q1, q1.ready[0]);
      }
    }
    forall item | Holds(Apply(q, op, timeout), item) ensures Of(tenants, item) {
      if !op.OpDequeue? {
        assert item == op.item || Holds(q, item);
      } else {
        assert Holds(Requeue(q, op.order, op.now), item);
      }
    }
  }

  /** What `NoItemIsLost` says of one run. */
  ghost predicate LosesNoItem(tenants: set<string>, q: Queue) {
    forall item :: Of(tenants, item) && Known(q, item) && Live(StateOf(q, item)) ==> Holds(q, item)
  }

  /** Separate tenants are exactly those for which every run keeps each item's hash truthful. */
  lemma SeparateIsExact(tenants: set<string>, timeout: int)
    ensures Separate(tenants) <==>
            (forall ops | ValidRun(ops, timeout) && (forall i :: 0 <= i < |ops| ==> OpOf(tenants, ops[i])) ::
               LosesNoItem(tenants, After(ops, timeout)))
  {
    if Separate(tenants) {
      forall ops | ValidRun(ops, timeout) && (forall i :: 0 <= i < |ops| ==> OpOf(tenants, ops[i]))
        ensures LosesNoItem(tenants, After(ops, timeout))
      {
        NoItemIsLost(tenants, ops, timeout);
      }
    } else {
      var t, u :| t in tenants && u in tenants && Extends(t, u);
      var a, b := Item(t, ""), Partner(t, u, "");
      SharedHash(t, u, "", timeout);
      var ops := SharingRun(a, b);
      assert ValidRun(ops, timeout) && forall i :: 0 <= i < |ops| ==> OpOf(tenants, ops[i]);
      var q := After(ops, timeout);
      assert Of(tenants, a) && Known(q, a) && Live(StateOf(q, a)) && !Holds(q, a);
      assert !LosesNoItem(tenants, q);
    }
  }
}
