/** The lease queue with single Redis commands as the atomic steps: any number of clients are each
    somewhere inside an operation, interleaved in any way. */
module RedisCommands {
  import opened Text
  import opened Items
  import opened RedisQueue

  /** How far a client has got; the constructor names the command it issues next. */
  datatype Pc =
    | Idle
    | EnqueueReadError(item: Item, attempts: nat)
    | EnqueueReadCreated(item: Item, attempts: nat, lastError: string)
    | EnqueueHash(item: Item, attempts: nat, lastError: string, created: Option<int>)
    | EnqueuePush(item: Item)
    | Sweep(todo: seq<Item>, now: int)
    | SweepPush(item: Item, todo: seq<Item>, now: int)
    | SweepHash(item: Item, todo: seq<Item>, now: int)
    | LeaseAdd(item: Item)
    | LeaseHash(item: Item)
    | RetryRemove(item: Item, attempts: nat, reason: string, delay: int)
    | RetryHash(item: Item, attempts: nat, reason: string, delay: int)
    | RetryPlace(item: Item, delay: int)
    | DoneHash(item: Item)
    | FailHash(item: Item, reason: string)
    | FailLetter(item: Item, reason: string)

  /** `owed`: the jobs enqueued and not acknowledged since. */
  datatype System = System(q: Queue, clients: map<nat, Pc>, owed: set<Item>)

  function PcOf(s: System, c: nat): Pc { if c in s.clients then s.clients[c] else Idle }

  /** The item a client took out of the queue, or announced, and has not put (back) in yet. */
  function InHand(pc: Pc): set<Item> {
    match pc
    case EnqueuePush(item) => {item}
    case SweepPush(item, _, _) => {item}
    case LeaseAdd(item) => {item}
    case RetryHash(item, _, _, _) => {item}
    case RetryPlace(item, _) => {item}
    case _ => {}
  }

  // ---------- commands ----------

  datatype Command =
    | StartEnqueue(c: nat, item: Item)
    | StartDequeue(c: nat, now: int, order: seq<Item>)
    | StartRetry(c: nat, item: Item, reason: string, delay: int)
    | StartDone(c: nat, item: Item)
    | StartFail(c: nat, item: Item, reason: string)
    | Advance(c: nat, at: int)

  ghost predicate Enabled(s: System, cmd: Command) {
    && (cmd.Advance? <==> PcOf(s, cmd.c) != Idle)
    && (cmd.StartDequeue? ==> IsExpiredOrder(s.q.running, cmd.now, cmd.order))
  }

  function Remove(q: Queue, item: Item): Queue { q.(running := q.running - {item}) }

  function Push(q: Queue, item: Item): Queue { q.(ready := q.ready + [item]) }

  function PutHash(q: Queue, item: Item, h: JobHash): Queue { q.(jobs := q.jobs[JobKey(item) := h]) }

  /** The effect of one advance of a client at `pc` on the queue, and where the client is then. */
  function Issue(q: Queue, pc: Pc, at: int, timeout: int): (Queue, Pc) {
    match pc
    case Idle => (q, Idle)
    case EnqueueReadError(item, attempts) => (q, EnqueueReadCreated(item, attempts, HashOf(q, JobKey(item)).lastError))
    case EnqueueReadCreated(item, attempts, lastError) =>
      (q, EnqueueHash(item, attempts, lastError, HashOf(q, JobKey(item)).createdAt))
    case EnqueueHash(item, attempts, lastError, created) =>
      (PutHash(q, item, JobHash(JobQueued, attempts, lastError, if created.Some? then created else Some(at), at)),
          EnqueuePush(item))
    case EnqueuePush(item) => (Push(q, item), Idle)
    case Sweep(todo, now) =>
      if todo != [] then (Remove(q, todo[0]), SweepPush(todo[0], todo[1..], now))
      else if q.ready == [] then (q, Idle)
      else (q.(ready := q.ready[1..]), LeaseAdd(q.ready[0]))
    case SweepPush(item, todo, now) => (Push(q, item), SweepHash(item, todo, now))
    case SweepHash(item, todo, now) => (SetState(q, JobKey(item), JobQueued, now), Sweep(todo, now))
    case LeaseAdd(item) => (q.(running := q.running[item := at + timeout]), LeaseHash(item))
    case LeaseHash(item) => (SetState(q, JobKey(item), JobRunning, at), Idle)
    case RetryRemove(item, attempts, reason, delay) => (Remove(q, item), RetryHash(item, attempts, reason, delay))
    case RetryHash(item, attempts, reason, delay) =>
      (PutHash(q, item, HashOf(q, JobKey(item)).(state := JobQueued, attempts := attempts + 1, lastError := reason,
          updatedAt := at)),
       RetryPlace(item, delay))
    case RetryPlace(item, delay) =>
      (if delay <= 0 then Push(q, item) else q.(running := q.running[item := at + delay]), Idle)
    case DoneHash(item) => (SetState(q, JobKey(item), JobDone, at), Idle)
    case FailHash(item, reason) =>
      (PutHash(q, item, HashOf(q, JobKey(item)).(state := JobFailed, lastError := reason, updatedAt := at)),
          FailLetter(item, reason))
    case FailLetter(item, reason) => (q.(dlq := q.dlq + [DeadLetter(item, reason)]), Idle)
  }

  function Next(s: System, cmd: Command, timeout: int): System {
    match cmd
    case StartEnqueue(c, item) =>
      s.(clients := s.clients[c := EnqueueReadError(item, HashOf(s.q, JobKey(item)).attempts)])
    case StartDequeue(c, now, order) => s.(clients := s.clients[c := Sweep(order, now)])
    case StartRetry(c, item, reason, delay) =>
      s.(clients := s.clients[c := RetryRemove(item, HashOf(s.q, JobKey(item)).attempts, reason, delay)])
    case StartDone(c, item) => System(Remove(s.q, item), s.clients[c := DoneHash(item)], s.owed - {item})
    case StartFail(c, item, reason) =>
      System(Remove(s.q, item), s.clients[c := FailHash(item, reason)], s.owed - {item})
    case Advance(c, at) =>
      var pc := PcOf(s, c);
      var (q', pc') := Issue(s.q, pc, at, timeout);
      System(q', s.clients[c := pc'], if pc.EnqueueHash? then s.owed + {pc.item} else s.owed)
  }

  const START := System(EMPTY_QUEUE, map[], {})

  function After(s: System, cmds: seq<Command>, timeout: int): System {
    if cmds == [] then s else Next(After(s, cmds[..|cmds| - 1], timeout), cmds[|cmds| - 1], timeout)
  }

  ghost predicate ValidRun(s: System, cmds: seq<Command>, timeout: int) {
    forall i :: 0 <= i < |cmds| ==> Enabled(After(s, cmds[..i], timeout), cmds[i])
  }

  // ---------- no job is lost between commands ----------

  ghost predicate Accounted(s: System, item: Item) {
    Holds(s.q, item) || exists c :: item in InHand(PcOf(s, c))
  }

  ghost predicate NothingLost(s: System) {
    forall item :: item in s.owed ==> Accounted(s, item)
  }

  /** One advance moves items between the ready list, the set and the client's own hand only. */
  lemma IssueKeeps(q: Queue, pc: Pc, at: int, timeout: int, item: Item)
    requires Holds(q, item) || item in InHand(pc) || (pc.EnqueueHash? && pc.item == item)
    ensures var (q', pc') := Issue(q, pc, at, timeout); Holds(q', item) || item in InHand(pc')
  {
    if pc.Sweep? && pc.todo == [] && q.ready != [] {
      assert q.ready == [q.ready[0]] + q.ready[1..];
    }
  }

  lemma StepLosesNothing(s: System, cmd: Command, timeout: int)
    requires NothingLost(s) && Enabled(s, cmd)
    ensures NothingLost(Next(s, cmd, timeout))
  {
    var s' := Next(s, cmd, timeout);
    forall item | item in s'.owed ensures Accounted(s', item) {
      if cmd.Advance? {
        AdvanceAccounts(s, cmd.c, cmd.at, timeout, item);
      } else {
        assert Accounted(s, item);
        assert InHand(PcOf(s, cmd.c)) == {};
        if !Holds(s.q, item) {
          var c :| item in InHand(PcOf(s, c));
          assert PcOf(s', c) == PcOf(s, c);
        }
      }
    }
  }

  lemma AdvanceAccounts(s: System, c: nat, at: int, timeout: int, item: Item)
    requires NothingLost(s)
    requires item in Next(s, Advance(c, at), timeout).owed
    ensures Accounted(Next(s, Advance(c, at), timeout), item)
  {
    var s', pc := Next(s, Advance(c, at), timeout), PcOf(s, c);
    if Holds(s.q, item) || item in InHand(pc) || (pc.EnqueueHash? && pc.item == item) {
      IssueKeeps(s.q, pc, at, timeout, item);
      assert PcOf(s', c) == Issue(s.q, pc, at, timeout).1;
    } else {
      assert item in s.owed;
      var d :| item in InHand(PcOf(s, d));
      assert PcOf(s', d) == PcOf(s, d);
    }
  }

  /** Whatever the interleaving of any number of clients, late acknowledgements, re-enqueues and
      sweeps of stale score ranges included: every job enqueued and not acknowledged since is in
      the ready list, in the set, or in the hand of a client between two commands. */
  lemma {:induction false} NothingIsLost(cmds: seq<Command>, timeout: int)
    requires ValidRun(START, cmds, timeout)
    ensures NothingLost(After(START, cmds, timeout))
  {
    if cmds != [] {
      var front := cmds[..|cmds| - 1];
      forall i | 0 <= i < |front| ensures Enabled(After(START, front[..i], timeout), front[i]) {
        assert front[..i] == cmds[..i] && front[i] == cmds[i];
      }
      NothingIsLost(front, timeout);
      assert cmds[..|front|] == front;
      StepLosesNothing(After(START, front, timeout), cmds[|cmds| - 1], timeout);
    }
  }

  /** When no operation is in flight, every owed job is in the queue itself. */
  lemma NothingIsLostAtRest(cmds: seq<Command>, timeout: int)
    requires ValidRun(START, cmds, timeout) && forall c :: PcOf(After(START, cmds, timeout), c) == Idle
    ensures var s := After(START, cmds, timeout); forall item :: item in s.owed ==> Holds(s.q, item)
  {
    NothingIsLost(cmds, timeout);
    var s := After(START, cmds, timeout);
    assert forall c :: PcOf(s, c) == Idle && InHand(PcOf(s, c)) == {};
    forall item | item in s.owed ensures Holds(s.q, item) {
      assert Accounted(s, item);
    }
  }

  // ---------- an uninterrupted operation is the atomic method ----------

  /** `n` commands of client `c` in a row. */
  function Alone(s: System, c: nat, n: nat, at: int, timeout: int): System
    decreases n
  {
    if n == 0 then s else Alone(Next(s, Advance(c, at), timeout), c, n - 1, at, timeout)
  }

  lemma {:induction false} AloneMore(s: System, c: nat, m: nat, n: nat, at: int, timeout: int)
    ensures Alone(Alone(s, c, m, at, timeout), c, n, at, timeout) == Alone(s, c, m + n, at, timeout)
    decreases m
  {
    if m > 0 {
      AloneMore(Next(s, Advance(c, at), timeout), c, m - 1, n, at, timeout);
    }
  }

  lemma EnqueueAlone(s: System, c: nat, item: Item, at: int, timeout: int)
    ensures var s' := Alone(Next(s, StartEnqueue(c, item), timeout), c, 4, at, timeout);
            s'.q == Enqueue(s.q, item, at) && PcOf(s', c) == Idle && s'.owed == s.owed + {item}
  {
    var s1 := Next(s, StartEnqueue(c, item), timeout);
    var s2 := Next(s1, Advance(c, at), timeout);
    var s3 := Next(s2, Advance(c, at), timeout);
    var s4 := Next(s3, Advance(c, at), timeout);
    var s5 := Next(s4, Advance(c, at), timeout);
    assert Alone(s1, c, 4, at, timeout) == Alone(s2, c, 3, at, timeout) == Alone(s3, c, 2, at, timeout)
        == Alone(s4, c, 1, at, timeout) == Alone(s5, c, 0, at, timeout);
  }

  lemma RetryAlone(s: System, c: nat, item: Item, reason: string, delay: int, at: int, timeout: int)
    ensures var s' := Alone(Next(s, StartRetry(c, item, reason, delay), timeout), c, 3, at, timeout);
            s'.q == MarkRetry(s.q, item, reason, delay, at) && PcOf(s', c) == Idle && s'.owed == s.owed
  {
    var s1 := Next(s, StartRetry(c, item, reason, delay), timeout);
    var s2 := Next(s1, Advance(c, at), timeout);
    var s3 := Next(s2, Advance(c, at), timeout);
    var s4 := Next(s3, Advance(c, at), timeout);
    assert Alone(s1, c, 3, at, timeout) == Alone(s2, c, 2, at, timeout) == Alone(s3, c, 1, at, timeout) ==
        Alone(s4, c, 0, at, timeout);
  }

  lemma DoneAlone(s: System, c: nat, item: Item, at: int, timeout: int)
    ensures var s' := Alone(Next(s, StartDone(c, item), timeout), c, 1, at, timeout);
            s'.q == MarkDone(s.q, item, at) && PcOf(s', c) == Idle && s'.owed == s.owed - {item}
  {
    var s1 := Next(s, StartDone(c, item), timeout);
    assert Alone(s1, c, 1, at, timeout) == Alone(Next(s1, Advance(c, at), timeout), c, 0, at, timeout);
  }

  lemma FailAlone(s: System, c: nat, item: Item, reason: string, at: int, timeout: int)
    ensures var s' := Alone(Next(s, StartFail(c, item, reason), timeout), c, 2, at, timeout);
            s'.q == MarkFailed(s.q, item, reason, at) && PcOf(s', c) == Idle && s'.owed == s.owed - {item}
  {
    var s1 := Next(s, StartFail(c, item, reason), timeout);
    var s2 := Next(s1, Advance(c, at), timeout);
    assert Alone(s1, c, 2, at, timeout) == Alone(s2, c, 1, at, timeout) ==
        Alone(Next(s2, Advance(c, at), timeout), c, 0, at, timeout);
  }

  lemma {:induction false} RequeueFirst(q: Queue, order: seq<Item>, now: int)
    requires order != []
    ensures Requeue(q, order, now) == Requeue(RequeueOne(q, order[0], now), order[1..], now)
  {
    if |order| == 1 {
      assert order[..0] == [] == order[1..];
    } else {
      RequeueFirst(q, order[..|order| - 1], now);
      assert order[..|order| - 1][1..] == order[1..][..|order| - 2];
    }
  }

  lemma {:induction false} SweepAlone(s: System, c: nat, todo: seq<Item>, now: int, at: int, timeout: int)
    requires PcOf(s, c) == Sweep(todo, now)
    ensures var s' := Alone(s, c, 3 * |todo|, at, timeout);
            s'.q == Requeue(s.q, todo, now) && PcOf(s', c) == Sweep([], now) && s'.owed == s.owed
    decreases |todo|
  {
    if todo == [] {
    } else {
      var s1 := Next(s, Advance(c, at), timeout);
      var s2 := Next(s1, Advance(c, at), timeout);
      var s3 := Next(s2, Advance(c, at), timeout);
      var rest := 3 * |todo[1..]|;
      assert 3 * |todo| == rest + 3;
      assert Alone(s, c, rest + 3, at, timeout) == Alone(s1, c, rest + 2, at, timeout)
          == Alone(s2, c, rest + 1, at, timeout) == Alone(s3, c, rest, at, timeout);
      assert s3.q == RequeueOne(s.q, todo[0], now);
      SweepAlone(s3, c, todo[1..], now, at, timeout);
      RequeueFirst(s.q, todo, now);
    }
  }

  /** The sweep, the pop and the lease, without interference, are the atomic dequeue. */
  lemma DequeueAlone(s: System, c: nat, now: int, order: seq<Item>, at: int, timeout: int)
    ensures var (item, q') := Dequeue(s.q, order, now, at, timeout);
            var s' := Alone(Next(s, StartDequeue(c, now, order), timeout), c,
                3 * |order| + (if item.None? then 1 else 3), at, timeout);
            s'.q == q' && PcOf(s', c) == Idle && s'.owed == s.owed
  {
    var s1 := Next(s, StartDequeue(c, now, order), timeout);
    var n := 3 * |order|;
    SweepAlone(s1, c, order, now, at, timeout);
    PopAndLease(Alone(s1, c, n, at, timeout), c, now, at, timeout);
    AloneMore(s1, c, n, 1, at, timeout);
    AloneMore(s1, c, n, 3, at, timeout);
  }

  lemma PopAndLease(s: System, c: nat, now: int, at: int, timeout: int)
    requires PcOf(s, c) == Sweep([], now)
    ensures var (item, q') := Lease(s.q, at, timeout);
            var s' := Alone(s, c, if item.None? then 1 else 3, at, timeout);
            s'.q == q' && PcOf(s', c) == Idle && s'.owed == s.owed
  {
    var s1 := Next(s, Advance(c, at), timeout);
    if s.q.ready == [] {
      assert Alone(s, c, 1, at, timeout) == Alone(s1, c, 0, at, timeout);
    } else {
      var s2 := Next(s1, Advance(c, at), timeout);
      var s3 := Next(s2, Advance(c, at), timeout);
      assert Alone(s, c, 3, at, timeout) == Alone(s1, c, 2, at, timeout) == Alone(s2, c, 1, at, timeout) ==
          Alone(s3, c, 0, at, timeout);
    }
  }

  // ---------- what does not hold between commands ----------

  /** At rest with one job, waiting in the ready list. */
  ghost predicate OneJobWaiting(s: System, item: Item) {
    && s.q.ready == [item] && s.q.running == map[] && s.owed == {item}
    && forall c :: PcOf(s, c) == Idle
  }

  function Popped(s: System, at: int, timeout: int): System {
    Next(Next(s, StartDequeue(1, at, []), timeout), Advance(1, at), timeout)
  }

  function Leased(s: System, at: int, timeout: int): System {
    Next(Popped(s, at, timeout), Advance(1, at), timeout)
  }

  lemma PoppedAndLeased(s: System, item: Item, at: int, timeout: int)
    requires OneJobWaiting(s, item)
    ensures var p := Popped(s, at, timeout);
            p.q == s.q.(ready := []) && p.owed == s.owed && p.clients == s.clients[1 := LeaseAdd(item)]
    ensures var l := Leased(s, at, timeout);
            && l.q == s.q.(ready := [], running := map[item := at + timeout])
            && l.owed == s.owed && l.clients == s.clients[1 := LeaseHash(item)]
  {
    var s1 := Next(s, StartDequeue(1, at, []), timeout);
    assert PcOf(s1, 1) == Sweep([], at);
    assert s1.q.ready[1..] == [];
    var p := Popped(s, at, timeout);
    assert p.clients == s1.clients[1 := LeaseAdd(item)];
    assert PcOf(p, 1) == LeaseAdd(item);
    assert p.q.running[item := at + timeout] == map[item := at + timeout];
  }

  /** The hash alone tells less than with atomic methods: client 2's late acknowledgement slips
      between client 1's lease and its hash write, and at rest the hash says running while the job
      is nowhere (it is no longer owed). */
  lemma HashOutlivesJob(s: System, item: Item, at: int, timeout: int)
    requires OneJobWaiting(s, item)
    ensures var acked := Next(Next(Leased(s, at, timeout), StartDone(2, item), timeout), Advance(2, at), timeout);
            var end := Next(acked, Advance(1, at), timeout);
            && (forall c :: PcOf(end, c) == Idle) && item !in end.owed && !Holds(end.q, item)
            && JobKey(item) in end.q.jobs && end.q.jobs[JobKey(item)].state == JobRunning
  {
    PoppedAndLeased(s, item, at, timeout);
    var leased := Leased(s, at, timeout);
    var removed := Next(leased, StartDone(2, item), timeout);
    assert item !in removed.q.running && PcOf(removed, 2) == DoneHash(item) && PcOf(removed, 1) == LeaseHash(item);
    var acked := Next(removed, Advance(2, at), timeout);
    assert acked.q.running == removed.q.running && PcOf(acked, 2) == Idle && PcOf(acked, 1) == LeaseHash(item);
    var end := Next(acked, Advance(1, at), timeout);
    assert end.q == SetState(acked.q, JobKey(item), JobRunning, at) && end.clients == acked.clients[1 := Idle];
    forall c ensures PcOf(end, c) == Idle {
      if c != 1 && c != 2 {
        assert PcOf(end, c) == PcOf(s, c);
      }
    }
  }

  // ---------- when a hash tells the truth between commands ----------

  /** Some item of the key is in the list, in the set, or in the hand of a client. */
  ghost predicate KeyAccounted(s: System, key: string) {
    exists item :: JobKey(item) == key && Accounted(s, item)
  }

  /** The client writes a done or failed hash for this item next. */
  predicate Ending(pc: Pc, key: string) {
    (pc.DoneHash? || pc.FailHash?) && JobKey(pc.item) == key
  }

  /** The client has put the item down already and writes a live hash for it next: after the push of the
      sweep, or after the lease. */
  predicate Late(pc: Pc, key: string) {
    (pc.SweepHash? || pc.LeaseHash?) && JobKey(pc.item) == key
  }

  ghost predicate SomeoneEnds(s: System, key: string) { exists c :: Ending(PcOf(s, c), key) }

  /** Some item of the key is somewhere, or its hash is about to be written done or failed. */
  ghost predicate Cared(s: System, key: string) { KeyAccounted(s, key) || SomeoneEnds(s, key) }

  /** Every live hash is cared for, and so is every hash about to be written live late. */
  ghost predicate Tells(s: System) {
    && (forall key :: key in s.q.jobs && Live(s.q.jobs[key].state) ==> Cared(s, key))
    && (forall c, key :: Late(PcOf(s, c), key) ==> Cared(s, key))
  }

  /** An acknowledgement writes its hash while another client is about to write the same hash live, and
      that live hash will have nothing behind it: no item of the key is anywhere, and no other client is
      about to end it. */
  ghost predicate WritesTooEarly(s: System, cmd: Command) {
    && cmd.Advance? && (PcOf(s, cmd.c).DoneHash? || PcOf(s, cmd.c).FailHash?)
    && var key := JobKey(PcOf(s, cmd.c).item);
       && (exists d :: Late(PcOf(s, d), key)) && !KeyAccounted(s, key)
       && (forall e :: e != cmd.c ==> !Ending(PcOf(s, e), key))
  }

  /** What a client's advance does to the items of one key. */
  lemma AdvanceKeepsKey(s: System, c: nat, at: int, timeout: int, key: string)
    requires KeyAccounted(s, key)
    ensures KeyAccounted(Next(s, Advance(c, at), timeout), key)
  {
    var s', pc := Next(s, Advance(c, at), timeout), PcOf(s, c);
    var item :| JobKey(item) == key && Accounted(s, item);
    if Holds(s.q, item) || item in InHand(pc) {
      IssueKeeps(s.q, pc, at, timeout, item);
      assert PcOf(s', c) == Issue(s.q, pc, at, timeout).1;
    } else {
      var d :| item in InHand(PcOf(s, d));
      assert PcOf(s', d) == PcOf(s, d);
    }
    assert Accounted(s', item);
  }

  /** A start, an acknowledgement apart, moves nothing. */
  lemma StartKeepsKey(s: System, cmd: Command, timeout: int, key: string)
    requires KeyAccounted(s, key) && Enabled(s, cmd) && !cmd.Advance?
    requires (cmd.StartDone? || cmd.StartFail?) ==> JobKey(cmd.item) != key
    ensures KeyAccounted(Next(s, cmd, timeout), key)
  {
    var s' := Next(s, cmd, timeout);
    var item :| JobKey(item) == key && Accounted(s, item);
    if !Holds(s.q, item) {
      var d :| item in InHand(PcOf(s, d));
      assert InHand(PcOf(s, cmd.c)) == {};
      assert PcOf(s', d) == PcOf(s, d);
    }
    assert Accounted(s', item);
  }

  /** An advance leaves a key cared for, unless it was the last to end it. */
  lemma AdvanceKeepsCare(s: System, c: nat, at: int, timeout: int, key: string)
    requires Cared(s, key)
    requires Ending(PcOf(s, c), key) ==> KeyAccounted(s, key) || exists e :: e != c && Ending(PcOf(s, e), key)
    ensures Cared(Next(s, Advance(c, at), timeout), key)
  {
    var s' := Next(s, Advance(c, at), timeout);
    if KeyAccounted(s, key) {
      AdvanceKeepsKey(s, c, at, timeout, key);
    } else {
      var e :| e != c && Ending(PcOf(s, e), key);
      assert PcOf(s', e) == PcOf(s, e);
    }
  }

  /** A start leaves every key cared for: an acknowledgement is about to end the key it takes away. */
  lemma StartKeepsCare(s: System, cmd: Command, timeout: int, key: string)
    requires Cared(s, key) && Enabled(s, cmd) && !cmd.Advance?
    ensures Cared(Next(s, cmd, timeout), key)
  {
    var s' := Next(s, cmd, timeout);
    assert PcOf(s, cmd.c) == Idle;
    if (cmd.StartDone? || cmd.StartFail?) && JobKey(cmd.item) == key {
      assert Ending(PcOf(s', cmd.c), key);
    } else if KeyAccounted(s, key) {
      StartKeepsKey(s, cmd, timeout, key);
    } else {
      var e :| Ending(PcOf(s, e), key);
      assert PcOf(s', e) == PcOf(s, e);
    }
  }

  /** A hash that an advance writes live, or is about to write live late, has its item somewhere by then,
      or was late already. */
  lemma LiveWriteIsCared(s: System, c: nat, at: int, timeout: int, key: string)
    requires Tells(s)
    requires var s' := Next(s, Advance(c, at), timeout);
             || (key in s'.q.jobs && Live(s'.q.jobs[key].state)
                 && (key !in s.q.jobs || s.q.jobs[key] != s'.q.jobs[key]))
             || Late(PcOf(s', c), key)
    ensures Cared(Next(s, Advance(c, at), timeout), key)
  {
    var s', pc := Next(s, Advance(c, at), timeout), PcOf(s, c);
    if pc.EnqueueHash? || pc.RetryHash? {
      assert JobKey(pc.item) == key && pc.item in InHand(PcOf(s', c));
      assert Accounted(s', pc.item);
    } else if Late(PcOf(s', c), key) {
      assert Holds(s'.q, PcOf(s', c).item);
      assert Accounted(s', PcOf(s', c).item);
    } else {
      assert Late(pc, key);
      AdvanceKeepsCare(s, c, at, timeout, key);
    }
  }

  lemma AdvanceTells(s: System, c: nat, at: int, timeout: int)
    requires Tells(s) && !WritesTooEarly(s, Advance(c, at))
    ensures Tells(Next(s, Advance(c, at), timeout))
  {
    var s' := Next(s, Advance(c, at), timeout);
    forall key | key in s'.q.jobs && Live(s'.q.jobs[key].state) ensures Cared(s', key) {
      if key in s.q.jobs && s.q.jobs[key] == s'.q.jobs[key] {
        assert !Ending(PcOf(s, c), key);
        AdvanceKeepsCare(s, c, at, timeout, key);
      } else {
        LiveWriteIsCared(s, c, at, timeout, key);
      }
    }
    forall d, key | Late(PcOf(s', d), key) ensures Cared(s', key) {
      if d == c {
        LiveWriteIsCared(s, c, at, timeout, key);
      } else {
        assert PcOf(s', d) == PcOf(s, d);
        AdvanceKeepsCare(s, c, at, timeout, key);
      }
    }
  }

  lemma StartTells(s: System, cmd: Command, timeout: int)
    requires Tells(s) && Enabled(s, cmd) && !cmd.Advance?
    ensures Tells(Next(s, cmd, timeout))
  {
    var s' := Next(s, cmd, timeout);
    forall key | key in s'.q.jobs && Live(s'.q.jobs[key].state) ensures Cared(s', key) {
      StartKeepsCare(s, cmd, timeout, key);
    }
    forall d, key | Late(PcOf(s', d), key) ensures Cared(s', key) {
      assert d != cmd.c && PcOf(s', d) == PcOf(s, d);
      StartKeepsCare(s, cmd, timeout, key);
    }
  }

  /** An acknowledgement's hash write moves no item and ends the key for this client only. */
  lemma EndingMovesNothing(s: System, c: nat, at: int, timeout: int, key: string)
    requires PcOf(s, c).DoneHash? || PcOf(s, c).FailHash?
    ensures var s' := Next(s, Advance(c, at), timeout);
            && (KeyAccounted(s', key) <==> KeyAccounted(s, key))
            && (SomeoneEnds(s', key) <==> exists e :: e != c && Ending(PcOf(s, e), key))
            && (forall e :: e != c ==> PcOf(s', e) == PcOf(s, e))
  {
    var s' := Next(s, Advance(c, at), timeout);
    assert s'.q.ready == s.q.ready && s'.q.running == s.q.running && InHand(PcOf(s', c)) == {} == InHand(PcOf(s, c));
    forall e | e != c ensures PcOf(s', e) == PcOf(s, e) {
    }
    forall x ensures Accounted(s', x) <==> Accounted(s, x) {
      SameHands(s, s', c, c, x);
    }
  }

  lemma TooEarlyBreaks(s: System, cmd: Command, timeout: int)
    requires WritesTooEarly(s, cmd)
    ensures !Tells(Next(s, cmd, timeout))
  {
    var s', key := Next(s, cmd, timeout), JobKey(PcOf(s, cmd.c).item);
    EndingMovesNothing(s, cmd.c, cmd.at, timeout, key);
    var d :| Late(PcOf(s, d), key);
    assert Late(PcOf(s', d), key) && !Cared(s', key);
  }

  /** One command keeps every live hash cared for if and only if it is no acknowledgement that writes its
      hash too early. */
  lemma StepTellsIff(s: System, cmd: Command, timeout: int)
    requires Tells(s) && Enabled(s, cmd)
    ensures Tells(Next(s, cmd, timeout)) <==> !WritesTooEarly(s, cmd)
  {
    if WritesTooEarly(s, cmd) {
      TooEarlyBreaks(s, cmd, timeout);
    } else if cmd.Advance? {
      AdvanceTells(s, cmd.c, cmd.at, timeout);
    } else {
      StartTells(s, cmd, timeout);
    }
  }

  /** Every state of the run tells the truth. */
  ghost predicate EveryStateTells(cmds: seq<Command>, timeout: int) {
    Tells(After(START, cmds, timeout)) && (cmds != [] ==> EveryStateTells(cmds[..|cmds| - 1], timeout))
  }

  /** No command of the run writes too early in the state it meets. */
  ghost predicate NoneTooEarly(cmds: seq<Command>, timeout: int) {
    cmds != [] ==>
      && NoneTooEarly(cmds[..|cmds| - 1], timeout)
      && !WritesTooEarly(After(START, cmds[..|cmds| - 1], timeout), cmds[|cmds| - 1])
  }

  lemma ValidFront(cmds: seq<Command>, timeout: int)
    requires ValidRun(START, cmds, timeout) && cmds != []
    ensures var front, last := cmds[..|cmds| - 1], cmds[|cmds| - 1];
            ValidRun(START, front, timeout) && Enabled(After(START, front, timeout), last)
  {
    var front := cmds[..|cmds| - 1];
    forall i | 0 <= i < |front| ensures Enabled(After(START, front[..i], timeout), front[i]) {
      assert front[..i] == cmds[..i] && front[i] == cmds[i];
    }
    assert cmds[..|front|] == front;
  }

  /** Over whole runs: every state along the way tells the truth if and only if no acknowledgement writes
      its hash too early. */
  lemma {:induction false} RunsTellIff(cmds: seq<Command>, timeout: int)
    requires ValidRun(START, cmds, timeout)
    ensures EveryStateTells(cmds, timeout) <==> NoneTooEarly(cmds, timeout)
  {
    if cmds != [] {
      var front := cmds[..|cmds| - 1];
      ValidFront(cmds, timeout);
      RunsTellIff(front, timeout);
      if EveryStateTells(front, timeout) {
        StepTellsIff(After(START, front, timeout), cmds[|cmds| - 1], timeout);
      }
    }
  }

  /** In every such run a hash that says queued or running has an item of its key in the list, in the set
      or in a client's hand, or a client is about to write it done or failed. */
  lemma HashesTellTheTruth(cmds: seq<Command>, timeout: int, key: string)
    requires ValidRun(START, cmds, timeout) && NoneTooEarly(cmds, timeout)
    ensures var s := After(START, cmds, timeout);
            key in s.q.jobs && Live(s.q.jobs[key].state) ==> KeyAccounted(s, key) || SomeoneEnds(s, key)
  {
    RunsTellIff(cmds, timeout);
  }

  // ---------- acknowledgements that wait ----------

  /** No acknowledgement starts while another client is about to write its key's hash late. */
  ghost predicate AckWaits(s: System, cmd: Command) {
    cmd.StartDone? || cmd.StartFail? ==> forall d :: d != cmd.c ==> !Late(PcOf(s, d), JobKey(cmd.item))
  }

  ghost predicate LateIsAccounted(s: System) {
    forall c, key :: Late(PcOf(s, c), key) ==> KeyAccounted(s, key)
  }

  lemma WaitingKeepsLate(s: System, cmd: Command, timeout: int)
    requires LateIsAccounted(s) && Enabled(s, cmd) && AckWaits(s, cmd)
    ensures LateIsAccounted(Next(s, cmd, timeout)) && !WritesTooEarly(s, cmd)
  {
    var s' := Next(s, cmd, timeout);
    forall d, key | Late(PcOf(s', d), key) ensures KeyAccounted(s', key) {
      if d == cmd.c {
        assert Holds(s'.q, PcOf(s', d).item);
        assert Accounted(s', PcOf(s', d).item);
      } else {
        assert PcOf(s', d) == PcOf(s, d);
        if cmd.Advance? {
          AdvanceKeepsKey(s, cmd.c, cmd.at, timeout, key);
        } else {
          StartKeepsKey(s, cmd, timeout, key);
        }
      }
    }
  }

  /** Waiting before an acknowledgement starts is enough, though more than needed: then every hash about to
      be written late has its item somewhere, and no acknowledgement writes too early. */
  lemma {:induction false} WaitingSuffices(cmds: seq<Command>, timeout: int)
    requires ValidRun(START, cmds, timeout)
    requires forall i :: 0 <= i < |cmds| ==> AckWaits(After(START, cmds[..i], timeout), cmds[i])
    ensures LateIsAccounted(After(START, cmds, timeout)) && NoneTooEarly(cmds, timeout)
  {
    if cmds != [] {
      var front := cmds[..|cmds| - 1];
      forall i | 0 <= i < |front| ensures AckWaits(After(START, front[..i], timeout), front[i]) {
        assert front[..i] == cmds[..i] && front[i] == cmds[i];
      }
      ValidFront(cmds, timeout);
      WaitingSuffices(front, timeout);
      assert cmds[..|front|] == front;
      WaitingKeepsLate(After(START, front, timeout), cmds[|cmds| - 1], timeout);
    }
  }

  // ---------- what too early leads to ----------

  /** The command that begins an acknowledgement, of either kind. */
  function StartAck(c: nat, item: Item, fails: bool, reason: string): Command {
    if fails then StartFail(c, item, reason) else StartDone(c, item)
  }

  /** An acknowledgement, done or failed, that starts and writes its hash while another client is late,
      after a lease or after a push of the sweep alike: the late write leaves a live hash, and that hash
      is cared for exactly if another item of the key, or a second copy of this one, is anywhere, or a
      third client is about to end the key. */
  lemma LateWriteOutlivesJob(s: System, c: nat, d: nat, item: Item, fails: bool, reason: string, at: int, timeout: int)
    requires c != d && PcOf(s, c) == Idle && Late(PcOf(s, d), JobKey(item))
    ensures var key, started := JobKey(item), Next(s, StartAck(c, item, fails, reason), timeout);
            var end := Next(Next(started, Advance(c, at), timeout), Advance(d, at), timeout);
            && key in end.q.jobs && Live(end.q.jobs[key].state)
            && (Cared(end, key) <==>
                  KeyAccounted(s.(q := Remove(s.q, item)), key)
                      || exists e :: e != c && e != d && Ending(PcOf(s, e), key))
  {
    var key, started := JobKey(item), Next(s, StartAck(c, item, fails, reason), timeout);
    var acked := Next(started, Advance(c, at), timeout);
    var without := s.(q := Remove(s.q, item));
    assert PcOf(started, c) == if fails then FailHash(item, reason) else DoneHash(item);
    assert started.q == without.q;
    forall e | e != c ensures PcOf(started, e) == PcOf(s, e) == PcOf(without, e) {
    }
    forall x ensures Accounted(started, x) <==> Accounted(without, x) {
      SameHands(without, started, c, c, x);
    }
    EndingMovesNothing(started, c, at, timeout, key);
    LateWriteShows(acked, d, at, timeout, key);
    forall e | e != c ensures PcOf(acked, e) == PcOf(s, e) {
    }
  }

  /** The late write itself moves no item and ends nothing. */
  lemma LateWriteShows(s: System, d: nat, at: int, timeout: int, key: string)
    requires Late(PcOf(s, d), key)
    ensures var s' := Next(s, Advance(d, at), timeout);
            key in s'.q.jobs && Live(s'.q.jobs[key].state) && (Cared(s', key) <==> Cared(s, key))
  {
    var s' := Next(s, Advance(d, at), timeout);
    assert s'.q.ready == s.q.ready && s'.q.running == s.q.running && InHand(PcOf(s', d)) == {} == InHand(PcOf(s, d));
    forall e | e != d ensures PcOf(s', e) == PcOf(s, e) {
    }
    forall x ensures Accounted(s', x) <==> Accounted(s, x) {
      SameHands(s, s', d, d, x);
    }
    assert forall e :: Ending(PcOf(s', e), key) <==> Ending(PcOf(s, e), key);
  }

  /** Any too early write shows as soon as the late client goes on: a live hash with nothing behind it. */
  lemma TooEarlyShows(s: System, cmd: Command, d: nat, at: int, timeout: int)
    requires WritesTooEarly(s, cmd) && Late(PcOf(s, d), JobKey(PcOf(s, cmd.c).item))
    ensures var key, end := JobKey(PcOf(s, cmd.c).item), Next(Next(s, cmd, timeout), Advance(d, at), timeout);
            key in end.q.jobs && Live(end.q.jobs[key].state) && !Cared(end, key)
  {
    var key := JobKey(PcOf(s, cmd.c).item);
    EndingMovesNothing(s, cmd.c, cmd.at, timeout, key);
    LateWriteShows(Next(s, cmd, timeout), d, at, timeout, key);
  }

  lemma SameHands(s: System, end: System, c: nat, d: nat, x: Item)
    requires InHand(PcOf(s, c)) == {} == InHand(PcOf(end, c)) && InHand(PcOf(s, d)) == {} == InHand(PcOf(end, d))
    requires forall e :: e != c && e != d ==> PcOf(end, e) == PcOf(s, e)
    ensures (exists e :: x in InHand(PcOf(s, e))) <==> (exists e :: x in InHand(PcOf(end, e)))
  {
    if e :| x in InHand(PcOf(s, e)) {
      assert PcOf(end, e) == PcOf(s, e);
    }
    if e :| x in InHand(PcOf(end, e)) {
      assert PcOf(end, e) == PcOf(s, e);
    }
  }

  // ---------- clients that stop ----------

  /** A client that stops for good takes what is in its hand with it. */
  function Stopped(s: System, c: nat): System { s.(clients := s.clients - {c}) }

  /** Another place than the hand of client `c`. */
  ghost predicate ElsewhereThan(s: System, c: nat, item: Item) {
    Holds(s.q, item) || exists d :: d != c && item in InHand(PcOf(s, d))
  }

  /** A stop loses no owed job if and only if what the client has in hand is not owed or is elsewhere
      too: it may stop anywhere except between the two commands that move a job, which are the push after
      the hash in an enqueue, the push after the removal in a sweep, the lease after the pop, and the
      hash and the placement after the removal in a retry. */
  lemma StopLosesExactly(s: System, c: nat)
    requires NothingLost(s)
    ensures NothingLost(Stopped(s, c)) <==>
        forall item :: item in s.owed && item in InHand(PcOf(s, c)) ==> ElsewhereThan(s, c, item)
  {
    var stopped := Stopped(s, c);
    assert forall d :: PcOf(stopped, d) == if d == c then Idle else PcOf(s, d);
    forall item ensures Accounted(stopped, item) <==> ElsewhereThan(s, c, item) {
      if d :| d != c && item in InHand(PcOf(s, d)) {
        assert item in InHand(PcOf(stopped, d));
      }
      if d :| item in InHand(PcOf(stopped, d)) {
        assert d != c && item in InHand(PcOf(s, d));
      }
    }
    forall item | item in s.owed && item !in InHand(PcOf(s, c)) ensures ElsewhereThan(s, c, item) {
      assert Accounted(s, item);
    }
  }

  /** At the five points, and at no other, a client has a job in hand. */
  lemma HandsAreFull(pc: Pc)
    ensures InHand(pc) != {} <==> pc.EnqueuePush? || pc.SweepPush? || pc.LeaseAdd? || pc.RetryHash? || pc.RetryPlace?
    ensures InHand(pc) != {} ==> InHand(pc) == {pc.item}
  {
  }

  /** The instance for a dequeue: the lease covers a client that stops while working, not one that
      stops between the pop and the lease. */
  lemma StopBetweenPopAndLease(s: System, item: Item, at: int, timeout: int)
    requires OneJobWaiting(s, item)
    ensures item in Popped(s, at, timeout).owed && !NothingLost(Stopped(Popped(s, at, timeout), 1))
    ensures item in Leased(s, at, timeout).owed && NothingLost(Stopped(Leased(s, at, timeout), 1))
  {
    PoppedAndLeased(s, item, at, timeout);
    var stopped := Stopped(Popped(s, at, timeout), 1);
    assert forall c :: PcOf(stopped, c) == PcOf(s, c) || PcOf(stopped, c) == Idle;
    assert !Accounted(stopped, item);
    assert Accounted(Stopped(Leased(s, at, timeout), 1), item);
  }
}
