/** The lease queue over time: how many attempts a hash shows, and when an item that waits comes back. */
module RedisAttempts {
  import opened Text
  import opened Items
  import opened RedisQueue
  import C = RedisCommands

  /** The stored attempts, 0 where nothing is stored. */
  function Shown(q: Queue, key: string): nat { if key in q.jobs then q.jobs[key].attempts else 0 }

  // ---------- atomic methods: attempts are retries ----------

  /** The retries of a run whose item has this hash key. */
  function RetriesOf(ops: seq<Op>, key: string): nat {
    if ops == [] then 0
    else
      var last := ops[|ops| - 1];
      RetriesOf(ops[..|ops| - 1], key) + if last.OpRetry? && JobKey(last.item) == key then 1 else 0
  }

  lemma {:induction false} SweepShows(q: Queue, order: seq<Item>, now: int, key: string)
    ensures Shown(Requeue(q, order, now), key) == Shown(q, key)
  {
    if order != [] {
      SweepShows(q, order[..|order| - 1], now, key);
    }
  }

  /** In every run, re-enqueues, expired leases and late acknowledgements included, the attempts shown for a
      key are the retries of that key so far. */
  lemma {:induction false} AttemptsCountRetries(ops: seq<Op>, timeout: int, key: string)
    ensures Shown(After(ops, timeout), key) == RetriesOf(ops, key)
  {
    if ops != [] {
      var front, last := ops[..|ops| - 1], ops[|ops| - 1];
      AttemptsCountRetries(front, timeout, key);
      if last.OpDequeue? {
        SweepShows(After(front, timeout), last.order, last.now, key);
      }
    }
  }

  // ---------- atomic methods: when an item comes back ----------

  /** The item is in the set under this score, and not in the ready list as well. */
  predicate WaitsUntil(q: Queue, item: Item, t: int) {
    item !in q.ready && item in q.running && q.running[item] == t
  }

  /** A retry with a delay waits for the delay, from the moment of the retry. */
  lemma RetryWaits(q: Queue, item: Item, reason: string, delay: int, now: int)
    requires item !in q.ready
    ensures delay > 0 ==> WaitsUntil(MarkRetry(q, item, reason, delay, now), item, now + delay)
    ensures delay <= 0 ==> MarkRetry(q, item, reason, delay, now).ready == q.ready + [item]
  {
  }

  lemma {:induction false} SweepLeaves(q: Queue, order: seq<Item>, now: int, item: Item)
    requires item !in order
    ensures var r := Requeue(q, order, now);
            && (item in r.ready <==> item in q.ready) && (item in r.running <==> item in q.running)
            && (item in q.running ==> r.running[item] == q.running[item])
  {
    if order != [] {
      SweepLeaves(q, order[..|order| - 1], now, item);
    }
  }

  lemma {:induction false} SweepMoves(q: Queue, order: seq<Item>, now: int, item: Item)
    requires item in order
    ensures item in Requeue(q, order, now).ready && item !in Requeue(q, order, now).running
  {
    var front, last := order[..|order| - 1], order[|order| - 1];
    if item != last {
      assert item in front;
      SweepMoves(q, front, now, item);
    }
  }

  lemma LeaseKeepsWaiting(q: Queue, leaseAt: int, timeout: int, item: Item)
    requires item !in q.ready
    ensures var (got, r) := Lease(q, leaseAt, timeout);
            && got != Some(item) && item !in r.ready && (item in r.running <==> item in q.running)
            && (item in q.running ==> r.running[item] == q.running[item])
  {
    if q.ready != [] {
      assert q.ready[0] in q.ready;
    }
  }

  /** A leased item, of which no second copy is in the list, waits for the timeout. */
  lemma LeaseWaits(q: Queue, order: seq<Item>, now: int, leaseAt: int, timeout: int)
    requires var swept := Requeue(q, order, now).ready; swept != [] && swept[0] !in swept[1..]
    ensures var (item, r) := Dequeue(q, order, now, leaseAt, timeout);
            item.Some? && WaitsUntil(r, item.value, leaseAt + timeout)
  {
  }

  /** Not in the ready list, and in the set under this score if it is there at all. */
  predicate AtMostWaits(q: Queue, item: Item, t: int) {
    item !in q.ready && (item in q.running ==> q.running[item] == t)
  }

  predicate PutsBack(op: Op, item: Item) { (op.OpEnqueue? || op.OpRetry?) && op.item == item }

  predicate Acknowledges(op: Op, item: Item) { (op.OpDone? || op.OpFail?) && op.item == item }

  predicate Due(op: Op, t: int) { op.OpDequeue? && 0 <= t <= op.now }

  /** One operation lets the item wait on, unless it puts the item back itself or is a dequeue when it is
      due; and no such operation hands it out. */
  lemma OpLetsWait(q: Queue, op: Op, timeout: int, item: Item, t: int)
    requires Enabled(q, op) && AtMostWaits(q, item, t) && !PutsBack(op, item) && !Due(op, t)
    ensures AtMostWaits(Apply(q, op, timeout), item, t)
    ensures WaitsUntil(q, item, t) && !Acknowledges(op, item) ==> WaitsUntil(Apply(q, op, timeout), item, t)
    ensures op.OpDequeue? ==> Dequeue(q, op.order, op.now, op.leaseAt, timeout).0 != Some(item)
  {
    if op.OpDequeue? {
      assert item !in op.order;
      SweepLeaves(q, op.order, op.now, item);
      LeaseKeepsWaiting(Requeue(q, op.order, op.now), op.leaseAt, timeout, item);
    }
  }

  /** What a run makes of a queue, which may be any queue. */
  function Later(q: Queue, ops: seq<Op>, timeout: int): Queue {
    if ops == [] then q else Apply(Later(q, ops[..|ops| - 1], timeout), ops[|ops| - 1], timeout)
  }

  ghost predicate ValidFrom(q: Queue, ops: seq<Op>, timeout: int) {
    ops != [] ==>
      && ValidFrom(q, ops[..|ops| - 1], timeout)
      && Enabled(Later(q, ops[..|ops| - 1], timeout), ops[|ops| - 1])
  }

  /** Nothing in the run enqueues or retries the item, and no dequeue reads a clock at `t` or later. */
  predicate Quiet(ops: seq<Op>, item: Item, t: int) {
    ops != [] ==> Quiet(ops[..|ops| - 1], item, t) && !PutsBack(ops[|ops| - 1], item) && !Due(ops[|ops| - 1], t)
  }

  predicate Unacknowledged(ops: seq<Op>, item: Item) {
    ops != [] ==> Unacknowledged(ops[..|ops| - 1], item) && !Acknowledges(ops[|ops| - 1], item)
  }

  predicate HandsOut(q: Queue, op: Op, timeout: int, item: Item) {
    op.OpDequeue? && Dequeue(q, op.order, op.now, op.leaseAt, timeout).0 == Some(item)
  }

  predicate HandedOut(q: Queue, ops: seq<Op>, timeout: int, item: Item) {
    && ops != []
    && var front := ops[..|ops| - 1];
       HandedOut(q, front, timeout, item) || HandsOut(Later(q, front, timeout), ops[|ops| - 1], timeout, item)
  }

  /** Never early: an item that waits until `t` is not handed out before a dequeue reads a clock at `t` or
      later, unless it is enqueued or retried again; and it waits on, unless it is acknowledged. */
  lemma {:induction false} NotHandedOutEarly(q: Queue, ops: seq<Op>, timeout: int, item: Item, t: int)
    requires WaitsUntil(q, item, t) && ValidFrom(q, ops, timeout) && Quiet(ops, item, t)
    ensures !HandedOut(q, ops, timeout, item) && AtMostWaits(Later(q, ops, timeout), item, t)
    ensures Unacknowledged(ops, item) ==> WaitsUntil(Later(q, ops, timeout), item, t)
  {
    if ops != [] {
      var front := ops[..|ops| - 1];
      NotHandedOutEarly(q, front, timeout, item, t);
      OpLetsWait(Later(q, front, timeout), ops[|ops| - 1], timeout, item, t);
    }
  }

  /** A dequeue when the item is due puts it in the ready list, or hands it out. */
  lemma DueIsSwept(q: Queue, op: Op, timeout: int, item: Item, t: int)
    requires Enabled(q, op) && WaitsUntil(q, item, t) && Due(op, t)
    ensures item in Apply(q, op, timeout).ready || HandsOut(q, op, timeout, item)
  {
    assert Expired(q.running, item, op.now) && item in op.order;
    SweepMoves(q, op.order, op.now, item);
    var swept := Requeue(q, op.order, op.now).ready;
    assert swept == [swept[0]] + swept[1..];
  }

  /** And never late: the first dequeue that reads a clock at `t` or later puts it in the ready list, or hands
      it out, unless it was put back or acknowledged before. */
  lemma ComesBackWhenDue(q: Queue, ops: seq<Op>, op: Op, timeout: int, item: Item, t: int)
    requires WaitsUntil(q, item, t) && ValidFrom(q, ops, timeout) && Quiet(ops, item, t) && Unacknowledged(ops, item)
    requires Enabled(Later(q, ops, timeout), op) && Due(op, t)
    ensures item in Apply(Later(q, ops, timeout), op, timeout).ready
        || HandsOut(Later(q, ops, timeout), op, timeout, item)
  {
    NotHandedOutEarly(q, ops, timeout, item, t);
    DueIsSwept(Later(q, ops, timeout), op, timeout, item, t);
  }

  // ---------- single commands: when the count is right ----------

  /** The hash writes of retries of the key, over a run of single commands. */
  function RetryWrites(cmds: seq<C.Command>, timeout: int, key: string): nat {
    if cmds == [] then 0
    else
      var front, last := cmds[..|cmds| - 1], cmds[|cmds| - 1];
      RetryWrites(front, timeout, key) + if WritesRetry(C.After(C.START, front, timeout), last, key) then 1 else 0
  }

  predicate WritesRetry(s: C.System, cmd: C.Command, key: string) {
    cmd.Advance? && C.PcOf(s, cmd.c).RetryHash? && JobKey(C.PcOf(s, cmd.c).item) == key
  }

  /** A retry or an enqueue is about to write the attempts it has read before, and they have changed since. */
  predicate WritesStale(s: C.System, cmd: C.Command, key: string) {
    && cmd.Advance?
    && var pc := C.PcOf(s, cmd.c);
       (pc.RetryHash? || pc.EnqueueHash?) && JobKey(pc.item) == key && pc.attempts != Shown(s.q, key)
  }

  /** One command changes the attempts of a key by its own retry, if it writes one, unless it writes a number
      it has read too early. */
  lemma StepCountsIff(s: C.System, cmd: C.Command, timeout: int, key: string)
    ensures var counted := Shown(s.q, key) + if WritesRetry(s, cmd, key) then 1 else 0;
            Shown(C.Next(s, cmd, timeout).q, key) == counted <==> !WritesStale(s, cmd, key)
  {
  }

  ghost predicate EveryCountRight(cmds: seq<C.Command>, timeout: int, key: string) {
    && Shown(C.After(C.START, cmds, timeout).q, key) == RetryWrites(cmds, timeout, key)
    && (cmds != [] ==> EveryCountRight(cmds[..|cmds| - 1], timeout, key))
  }

  ghost predicate NoneStale(cmds: seq<C.Command>, timeout: int, key: string) {
    cmds != [] ==>
      && NoneStale(cmds[..|cmds| - 1], timeout, key)
      && !WritesStale(C.After(C.START, cmds[..|cmds| - 1], timeout), cmds[|cmds| - 1], key)
  }

  /** Over whole runs of any number of clients: in every state along the way the attempts shown are the
      retries written, if and only if no client writes a number it has read too early. */
  lemma {:induction false} CountsAreRightIff(cmds: seq<C.Command>, timeout: int, key: string)
    ensures EveryCountRight(cmds, timeout, key) <==> NoneStale(cmds, timeout, key)
  {
    if cmds != [] {
      var front, last := cmds[..|cmds| - 1], cmds[|cmds| - 1];
      CountsAreRightIff(front, timeout, key);
      StepCountsIff(C.After(C.START, front, timeout), last, timeout, key);
    }
  }

  /** Two retries of one item that overlap count once. */
  lemma OverlappingRetriesCountOnce(s: C.System, c: nat, d: nat, item: Item, reason: string, delay: int, at: int,
      timeout: int)
    requires c != d
    ensures var s0 := C.Next(C.Next(s, C.StartRetry(c, item, reason, delay), timeout),
                             C.StartRetry(d, item, reason, delay), timeout);
            var end := C.Alone(C.Alone(s0, c, 3, at, timeout), d, 3, at, timeout);
            Shown(end.q, JobKey(item)) == Shown(s.q, JobKey(item)) + 1
  {
    var s0 := C.Next(C.Next(s, C.StartRetry(c, item, reason, delay), timeout),
                     C.StartRetry(d, item, reason, delay), timeout);
    RetryWritesOwn(s0, c, item, at, timeout);
    var s1 := C.Alone(s0, c, 3, at, timeout);
    RetryWritesOwn(s1, d, item, at, timeout);
  }

  /** Whatever others did since, a client in a retry ends with the number it has read plus one. */
  lemma RetryWritesOwn(s: C.System, c: nat, item: Item, at: int, timeout: int)
    requires C.PcOf(s, c).RetryRemove? && C.PcOf(s, c).item == item
    ensures var end := C.Alone(s, c, 3, at, timeout);
            && Shown(end.q, JobKey(item)) == C.PcOf(s, c).attempts + 1
            && forall d :: d != c ==> C.PcOf(end, d) == C.PcOf(s, d)
  {
    var s1 := C.Next(s, C.Advance(c, at), timeout);
    var s2 := C.Next(s1, C.Advance(c, at), timeout);
    var s3 := C.Next(s2, C.Advance(c, at), timeout);
    assert C.Alone(s, c, 3, at, timeout) == C.Alone(s1, c, 2, at, timeout) == C.Alone(s2, c, 1, at, timeout) ==
        C.Alone(s3, c, 0, at, timeout);
  }
}
