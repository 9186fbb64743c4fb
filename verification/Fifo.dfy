/** The three queues are one FIFO on runs of distinct enqueues and dequeues. */
module Fifo {
  import opened Text
  import opened Items
  import R = RedisQueue
  import S = SqliteQueue

  class InMemoryTaskQueue {
    var items: seq<Item>

    constructor ()
      ensures items == []
    {
      items := [];
    }

    method Enqueue(item: Item)
      modifies this
      ensures items == old(items) + [item]
    {
      items := items + [item];
    }

    method Dequeue() returns (item: Option<Item>)
      modifies this
      ensures old(items) == [] ==> item == None && items == []
      ensures old(items) != [] ==> item == Some(old(items)[0]) && items == old(items)[1..]
    {
      if items == [] {
        return None;
      }
      item := Some(items[0]);
      items := items[1..];
    }
  }

  datatype Step = Put(item: Item) | Get

  function Head(items: seq<Item>): Option<Item> { if items == [] then None else Some(items[0]) }

  function Tail(items: seq<Item>): seq<Item> { if items == [] then [] else items[1..] }

  /** The in-memory queue after some steps. */
  function Waiting(steps: seq<Step>): seq<Item> {
    if steps == [] then []
    else
      var before := Waiting(steps[..|steps| - 1]);
      match steps[|steps| - 1]
      case Put(item) => before + [item]
      case Get => Tail(before)
  }

  predicate DistinctPuts(steps: seq<Step>) {
    forall i, j :: 0 <= i < j < |steps| && steps[i].Put? && steps[j].Put? ==> steps[i].item != steps[j].item
  }

  predicate Increasing(times: seq<int>) { forall i, j :: 0 <= i < j < |times| ==> times[i] < times[j] }

  predicate WasPut(steps: seq<Step>, item: Item) {
    exists i :: 0 <= i < |steps| && steps[i].Put? && steps[i].item == item
  }

  lemma {:induction false} WaitingWasPut(steps: seq<Step>)
    ensures forall i :: 0 <= i < |Waiting(steps)| ==> WasPut(steps, Waiting(steps)[i])
  {
    if steps != [] {
      var front, w := steps[..|steps| - 1], Waiting(steps);
      WaitingWasPut(front);
      forall i | 0 <= i < |w| ensures WasPut(steps, w[i]) {
        if steps[|steps| - 1].Put? && i == |w| - 1 {
          assert steps[|steps| - 1].item == w[i];
        } else {
          var k := if steps[|steps| - 1].Put? then i else i + 1;
          assert w[i] == Waiting(front)[k] && WasPut(front, w[i]);
          var j :| 0 <= j < |front| && front[j].Put? && front[j].item == w[i];
          assert steps[j] == front[j];
        }
      }
    }
  }

  // ---------- Redis ----------

  /** A run of the lease queue that takes the same steps at the same times. */
  ghost predicate RedisTakes(ops: seq<R.Op>, steps: seq<Step>, times: seq<int>) {
    && |ops| == |steps| == |times|
    && forall i :: 0 <= i < |ops| ==>
         match steps[i]
         case Put(item) => ops[i] == R.OpEnqueue(item, times[i])
         case Get => ops[i].OpDequeue? && ops[i].now == times[i] && ops[i].leaseAt >= times[i]
  }

  /** No lease taken during the run ends during the run. */
  predicate LeasesOutlast(times: seq<int>, timeout: int) {
    forall i, j :: 0 <= i < |times| && 0 <= j < |times| ==> times[j] < times[i] + timeout
  }

  /** The ready list is what is waiting, and every lease ends after every time of the run. */
  ghost predicate RedisAgrees(q: R.Queue, waiting: seq<Item>, times: seq<int>) {
    q.ready == waiting && forall x, j :: x in q.running && 0 <= j < |times| ==> times[j] < q.running[x]
  }

  lemma RedisStep(q: R.Queue, waiting: seq<Item>, times: seq<int>, op: R.Op, timeout: int)
    requires RedisAgrees(q, waiting, times) && op.OpDequeue? && R.Enabled(q, op) && op.now in times
    requires forall j :: 0 <= j < |times| ==> times[j] < op.leaseAt + timeout
    ensures R.Dequeue(q, op.order, op.now, op.leaseAt, timeout).0 == Head(waiting)
    ensures RedisAgrees(R.Apply(q, op, timeout), Tail(waiting), times)
  {
    NothingExpired(q, op.now, op.order);
  }

  lemma {:induction false} RedisIsFifo(ops: seq<R.Op>, steps: seq<Step>, times: seq<int>, timeout: int, n: nat)
    requires RedisTakes(ops, steps, times) && R.ValidRun(ops, timeout) && LeasesOutlast(times, timeout)
    requires n <= |ops|
    ensures RedisAgrees(R.After(ops[..n], timeout), Waiting(steps[..n]), times)
    decreases n
  {
    if n > 0 {
      RedisIsFifo(ops, steps, times, timeout, n - 1);
      assert ops[..n][..n - 1] == ops[..n - 1] && steps[..n][..n - 1] == steps[..n - 1];
      if steps[n - 1].Get? {
        RedisStep(R.After(ops[..n - 1], timeout), Waiting(steps[..n - 1]), times, ops[n - 1], timeout);
      }
    }
  }

  lemma NothingExpired(q: R.Queue, now: int, order: seq<Item>)
    requires R.IsExpiredOrder(q.running, now, order) && forall x :: x in q.running ==> now < q.running[x]
    ensures order == []
  {
    assert forall i :: i in order ==> R.Expired(q.running, i, now);
    if order != [] {
      HasMember(order);
    }
  }

  lemma HasMember(s: seq<Item>)
    requires s != []
    ensures exists i :: i in s
  {
    assert s[0] in s;
  }

  // ---------- SQLite ----------

  ghost predicate SqliteTakes(ops: seq<S.Op>, steps: seq<Step>, times: seq<int>) {
    && |ops| == |steps| == |times|
    && forall i :: 0 <= i < |ops| ==>
         match steps[i]
         case Put(item) => ops[i] == S.OpEnqueue(item, times[i])
         case Get => ops[i].OpDequeue? && ops[i].now == times[i]
  }

  /** The queued rows are the waiting items, created in order and available by `now`. */
  ghost predicate RowsMatch(jobs: S.Jobs, waiting: seq<Item>, now: int) {
    && (forall x :: x in waiting <==> x in jobs && jobs[x].state == JobQueued)
    && (forall i :: 0 <= i < |waiting| ==> jobs[waiting[i]].availableAt <= now)
    && (forall x :: x in jobs ==> jobs[x].createdAt <= now)
    && (forall i, j :: 0 <= i < j < |waiting| ==> jobs[waiting[i]].createdAt < jobs[waiting[j]].createdAt)
  }

  lemma PickIsHead(jobs: S.Jobs, waiting: seq<Item>, before: int, now: int, pick: Option<Item>)
    requires RowsMatch(jobs, waiting, before) && before <= now && S.IsPick(jobs, now, pick)
    ensures pick == Head(waiting)
  {
    if waiting != [] {
      assert waiting[0] in waiting;
      assert S.Eligible(jobs, waiting[0], now);
      var i :| 0 <= i < |waiting| && waiting[i] == pick.value;
      assert i == 0;
    }
  }

  lemma TakeMatches(jobs: S.Jobs, waiting: seq<Item>, before: int, now: int)
    requires RowsMatch(jobs, waiting, before) && before <= now
    ensures RowsMatch(S.Take(jobs, Head(waiting), now), Tail(waiting), now)
  {
    if waiting != [] {
      var first, rest := waiting[0], waiting[1..];
      assert first in waiting;
      assert forall i :: 0 <= i < |rest| ==> rest[i] == waiting[i + 1];
      forall x ensures x in rest <==> x in waiting && x != first {
        if x in waiting && x != first {
          var i :| 0 <= i < |waiting| && waiting[i] == x;
          assert rest[i - 1] == x;
        }
      }
    }
  }

  lemma PutMatches(jobs: S.Jobs, waiting: seq<Item>, before: int, now: int, item: Item)
    requires RowsMatch(jobs, waiting, before) && before < now && item !in jobs
    ensures RowsMatch(S.Enqueue(jobs, item, now), waiting + [item], now)
  {
    var w := waiting + [item];
    assert forall i :: 0 <= i < |waiting| ==> w[i] in waiting;
  }

  /** Queued rows match what is waiting, and only items that were put have rows. */
  ghost predicate Agrees(jobs: S.Jobs, steps: seq<Step>, now: int) {
    RowsMatch(jobs, Waiting(steps), now) && forall x :: x in jobs ==> WasPut(steps, x)
  }

  lemma PutOfLonger(steps: seq<Step>, step: Step)
    ensures forall x :: WasPut(steps + [step], x) <==> WasPut(steps, x) || step == Put(x)
  {
    var longer := steps + [step];
    forall x ensures WasPut(longer, x) <==> WasPut(steps, x) || step == Put(x) {
      if WasPut(steps, x) {
        var i :| 0 <= i < |steps| && steps[i].Put? && steps[i].item == x;
        assert longer[i] == steps[i];
      }
      if step == Put(x) {
        assert longer[|steps|].item == x;
      }
    }
  }

  lemma AgreesPut(jobs: S.Jobs, steps: seq<Step>, item: Item, before: int, now: int)
    requires Agrees(jobs, steps, before) && before < now && !WasPut(steps, item)
    ensures Agrees(S.Enqueue(jobs, item, now), steps + [Put(item)], now)
  {
    assert (steps + [Put(item)])[..|steps|] == steps;
    PutMatches(jobs, Waiting(steps), before, now, item);
    PutOfLonger(steps, Put(item));
  }

  lemma AgreesGet(jobs: S.Jobs, steps: seq<Step>, pick: Option<Item>, before: int, now: int)
    requires Agrees(jobs, steps, before) && before < now && S.IsPick(jobs, now, pick)
    ensures Agrees(S.Take(jobs, pick, now), steps + [Get], now)
  {
    assert (steps + [Get])[..|steps|] == steps;
    PickIsHead(jobs, Waiting(steps), before, now, pick);
    TakeMatches(jobs, Waiting(steps), before, now);
    PutOfLonger(steps, Get);
  }

  lemma NotPutBefore(steps: seq<Step>, n: nat)
    requires n < |steps| && steps[n].Put? && DistinctPuts(steps)
    ensures !WasPut(steps[..n], steps[n].item)
  {
    assert forall i :: 0 <= i < n ==> steps[..n][i] == steps[i];
  }

  lemma AgreesLater(jobs: S.Jobs, steps: seq<Step>, a: int, b: int)
    requires Agrees(jobs, steps, a) && a <= b
    ensures Agrees(jobs, steps, b)
  {
  }

  lemma SqliteApplies(ops: seq<S.Op>, n: nat)
    requires n < |ops|
    ensures S.After(map[], ops[..n + 1]) == S.Apply(S.After(map[], ops[..n]), ops[n])
  {
    assert ops[..n + 1][..n] == ops[..n];
  }

  lemma SqliteApplied(jobs: S.Jobs, op: S.Op, steps: seq<Step>, step: Step, at: int)
    requires Agrees(jobs, steps, at - 1)
    requires match step
             case Put(item) => op == S.OpEnqueue(item, at) && !WasPut(steps, item)
             case Get => op.OpDequeue? && op.now == at && S.IsPick(jobs, at, op.pick)
    ensures Agrees(S.Apply(jobs, op), steps + [step], at)
  {
    match step
    case Put(item) => AgreesPut(jobs, steps, item, at - 1, at);
    case Get => AgreesGet(jobs, steps, op.pick, at - 1, at);
  }

  lemma SqliteStep(ops: seq<S.Op>, steps: seq<Step>, times: seq<int>, n: nat)
    requires SqliteTakes(ops, steps, times) && S.ValidRun(map[], ops) && DistinctPuts(steps) && n < |ops|
    requires Agrees(S.After(map[], ops[..n]), steps[..n], times[n] - 1)
    ensures Agrees(S.After(map[], ops[..n + 1]), steps[..n + 1], times[n])
  {
    SqliteApplies(ops, n);
    assert steps[..n + 1] == steps[..n] + [steps[n]];
    if steps[n].Put? {
      NotPutBefore(steps, n);
    }
    SqliteApplied(S.After(map[], ops[..n]), ops[n], steps[..n], steps[n], times[n]);
  }

  lemma {:induction false} SqliteAgrees(ops: seq<S.Op>, steps: seq<Step>, times: seq<int>, n: nat, now: int)
    requires SqliteTakes(ops, steps, times) && S.ValidRun(map[], ops) && Increasing(times) && DistinctPuts(steps)
    requires n <= |ops| && forall i :: 0 <= i < n ==> times[i] <= now
    ensures Agrees(S.After(map[], ops[..n]), steps[..n], now)
    decreases n
  {
    if n > 0 {
      SqliteAgrees(ops, steps, times, n - 1, times[n - 1] - 1);
      SqliteStep(ops, steps, times, n - 1);
      AgreesLater(S.After(map[], ops[..n]), steps[..n], times[n - 1], now);
    }
  }

  lemma SqliteIsFifo(ops: seq<S.Op>, steps: seq<Step>, times: seq<int>, n: nat)
    requires SqliteTakes(ops, steps, times) && S.ValidRun(map[], ops) && Increasing(times) && DistinctPuts(steps)
    requires n < |ops| && ops[n].OpDequeue?
    ensures ops[n].pick == Head(Waiting(steps[..n]))
  {
    SqliteAgrees(ops, steps, times, n, times[n]);
    var jobs := S.After(map[], ops[..n]);
    PickIsHead(jobs, Waiting(steps[..n]), times[n], times[n], ops[n].pick);
  }

  /** On any run of distinct enqueues and dequeues under a strictly increasing clock, with leases
      longer than the run, each dequeue hands out the same item from all three queues. */
  lemma SameSequence(steps: seq<Step>, times: seq<int>, redis: seq<R.Op>, sqlite: seq<S.Op>, timeout: int, n: nat)
    requires DistinctPuts(steps) && Increasing(times)
    requires RedisTakes(redis, steps, times) && R.ValidRun(redis, timeout) && LeasesOutlast(times, timeout)
    requires SqliteTakes(sqlite, steps, times) && S.ValidRun(map[], sqlite)
    requires n < |steps| && steps[n].Get?
    ensures var fromRedis := R.Dequeue(R.After(redis[..n], timeout), redis[n].order, redis[n].now, redis[n].leaseAt,
        timeout).0;
            fromRedis == sqlite[n].pick == Head(Waiting(steps[..n]))
  {
    RedisIsFifo(redis, steps, times, timeout, n);
    RedisStep(R.After(redis[..n], timeout), Waiting(steps[..n]), times, redis[n], timeout);
    SqliteIsFifo(sqlite, steps, times, n);
  }

  // ---------- the legacy colon-encoded queue ----------

  function EncodeLegacy(item: Item): string { item.tenantId + ":" + item.taskId }

  /** Position of the first colon. */
  function FirstColon(s: string): (i: nat)
    ensures i <= |s|
  {
    if s == "" || s[0] == ':' then 0 else 1 + FirstColon(s[1..])
  }

  /** `tenant_id, task_id = value.split(":", 1)`; raises without a colon. */
  function DecodeLegacy(value: string): Option<Item> {
    var i := FirstColon(value);
    if i == |value| then None else Some(Item(value[..i], value[i + 1..]))
  }

  lemma {:induction false} FirstColonOf(tenant: string, rest: string)
    requires forall i :: 0 <= i < |tenant| ==> tenant[i] != ':'
    ensures FirstColon(tenant + ":" + rest) == |tenant|
  {
    var s := tenant + ":" + rest;
    if tenant != "" {
      assert s[1..] == tenant[1..] + ":" + rest;
      FirstColonOf(tenant[1..], rest);
    } else {
      assert s[0] == ':';
    }
  }

  lemma {:induction false} FirstColonIsFirst(s: string)
    ensures forall i :: 0 <= i < FirstColon(s) ==> s[i] != ':'
    ensures FirstColon(s) < |s| ==> s[FirstColon(s)] == ':'
  {
    if s != "" && s[0] != ':' {
      FirstColonIsFirst(s[1..]);
    }
  }

  /** The legacy encoding loses nothing exactly for tenant ids without a colon. */
  lemma LegacyRoundTrip(item: Item)
    ensures DecodeLegacy(EncodeLegacy(item)) == Some(item) <==>
        (forall i :: 0 <= i < |item.tenantId| ==> item.tenantId[i] != ':')
  {
    var s := EncodeLegacy(item);
    FirstColonIsFirst(s);
    assert s[|item.tenantId|] == ':';
    if forall i :: 0 <= i < |item.tenantId| ==> item.tenantId[i] != ':' {
      FirstColonOf(item.tenantId, item.taskId);
      assert s[..|item.tenantId|] == item.tenantId && s[|item.tenantId| + 1..] == item.taskId;
    }
    if DecodeLegacy(s) == Some(item) {
      assert item.tenantId == s[..FirstColon(s)];
    }
  }
}
