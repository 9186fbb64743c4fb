/** Any number of workers, creations and cancellations, one store or queue command at a time. A
    delivery may repeat an item that another worker already has, so what is proved here does not
    depend on the queue. */
module Interleaving {
  import opened Text
  import opened Items
  import opened Execution
  import opened Workflow
  import opened Gateway
  import opened SqliteQueue
  import opened Repositories
  import opened Delivery

  datatype RowWrite =
    | RowRetry(reason: string, delay: int, now: int)
    | RowDone(now: int)
    | RowFail(reason: string, now: int)

  datatype Write = PutTask(p: Payload) | PutResults(lists: Saved) | PutRow(row: RowWrite)

  /** What a worker has in hand between two commands. */
  datatype Hand =
    | Taken(item: Item)
    | Loaded(t: Payload)
    | Marked(t: Payload)
    | Ran(t: Payload, ran: Result<Report>)
    | Writing(item: Item, writes: seq<Write>)

  /** The stores, the workers' hands, cancellations that have loaded but not stored yet, creations that
      have stored but not enqueued yet, and the executions so far. */
  datatype Plant = Plant(stores: World, hands: map<nat, Hand>, cancels: set<Payload>, creates: multiset<Item>,
      sent: seq<Item>)

  datatype Command =
    | Deliver(worker: nat, item: Item, now: int)
    | Advance(worker: nat, turn: Turn)
    | StoreTask(p: Payload)
    | EnqueueTask(item: Item, now: int)
    | CancelLoad(item: Item)
    | CancelStore(p: Payload)

  // ---------- the commands ----------

  /** What is left to write after an execution, in the order the worker writes it. */
  function WritesFor(s: Settings, turn: Turn, mayRetry: bool, t: Payload, ran: Result<Report>): seq<Write> {
    match ran
    case Raised(reason) =>
      var failed := t.(errors := [Unexpected(reason)]);
      if mayRetry
      then [PutTask(failed.(status := Retrying)), PutRow(RowRetry(reason, s.retryDelay, turn.finished))]
      else [PutTask(failed.(status := FailedStatus)), PutRow(RowFail(reason, turn.finished))]
    case Ok(report) =>
      var p, reason := ResultPayload(t.item, report), FirstErrorMessage(report.errors);
      if !Recoverable(report) then [PutTask(p), PutResults(turn.saved(report)), PutRow(RowDone(turn.finished))]
      else if mayRetry then [PutRow(RowRetry(reason, s.retryDelay, turn.finished)), PutTask(p.(status := Retrying))]
      else [PutRow(RowFail(reason, turn.finished)), PutTask(p)]
  }

  function Put(w: World, item: Item, write: Write): World {
    match write
    case PutTask(p) => w.(tasks := w.tasks[p.item := p])
    case PutResults(lists) => w.(results := w.results[item := lists])
    case PutRow(RowRetry(reason, delay, now)) => w.(jobs := MarkRetry(w.jobs, item, reason, delay, now))
    case PutRow(RowDone(now)) => w.(jobs := MarkDone(w.jobs, item, now))
    case PutRow(RowFail(reason, now)) => w.(jobs := MarkFailed(w.jobs, item, reason, now))
  }

  function Proceed(s: Settings, w: Plant, k: nat, turn: Turn): Plant
    requires k in w.hands
  {
    match w.hands[k]
    case Taken(item) =>
      if item !in w.stores.tasks then w.(hands := w.hands - {k})
      else
        var t := w.stores.tasks[item];
        w.(hands := w.hands[k := if t.status.Cancelled? then Writing(item, [PutRow(RowDone(turn.finished))])
                                 else Loaded(t.(status := Running))])
    case Loaded(t) => w.(stores := Put(w.stores, t.item, PutTask(t)), hands := w.hands[k := Marked(t)])
    case Marked(t) => w.(sent := w.sent + [t.item], hands := w.hands[k := Ran(t, ExecuteTask(turn.env, t))])
    case Ran(t, ran) =>
      w.(hands := w.hands[k := Writing(t.item, WritesFor(s, turn, MayRetry(s, w.stores.jobs, t.item), t, ran))])
    case Writing(item, writes) =>
      if writes == [] then w.(hands := w.hands - {k})
      else w.(stores := Put(w.stores, item, writes[0]), hands := w.hands[k := Writing(item, writes[1..])])
  }

  function Apply(s: Settings, w: Plant, c: Command): Plant {
    match c
    case Deliver(k, item, now) =>
      if k in w.hands then w
      else w.(stores := w.stores.(jobs := Take(w.stores.jobs, Some(item), now)), hands := w.hands[k := Taken(item)])
    case Advance(k, turn) => if k in w.hands then Proceed(s, w, k, turn) else w
    case StoreTask(p) => w.(stores := Put(w.stores, p.item, PutTask(p)), creates := w.creates + multiset{p.item})
    case EnqueueTask(item, now) =>
      w.(stores := w.stores.(jobs := Enqueue(w.stores.jobs, item, now)), creates := w.creates - multiset{item})
    case CancelLoad(item) =>
      if CancelOutcome(w.stores.tasks, item).Accepted?
      then w.(cancels := w.cancels + {w.stores.tasks[item].(status := Cancelled)})
      else w
    case CancelStore(p) =>
      if p in w.cancels then w.(stores := Put(w.stores, p.item, PutTask(p)), cancels := w.cancels - {p}) else w
  }

  function After(s: Settings, w: Plant, cs: seq<Command>): Plant {
    if cs == [] then w else Apply(s, After(s, w, cs[..|cs| - 1]), cs[|cs| - 1])
  }

  /** Pending cancellations say cancelled, executions never do, and tasks are stored under their key. */
  ghost predicate Sound(w: Plant) {
    && (forall p :: p in w.cancels ==> p.status.Cancelled?)
    && (forall k :: k in w.hands && w.hands[k].Ran? && w.hands[k].ran.Ok? ==> !w.hands[k].ran.value.status.Cancelled?)
    && (forall i :: i in w.stores.tasks ==> w.stores.tasks[i].item == i)
  }

  lemma StepSound(s: Settings, w: Plant, c: Command)
    requires Sound(w)
    ensures Sound(Apply(s, w, c))
  {
    if c.Advance? && c.worker in w.hands && w.hands[c.worker].Marked?
        && ExecuteTask(c.turn.env, w.hands[c.worker].t).Ok? {
      ExecutionStatus(c.turn.env, w.hands[c.worker].t);
    }
  }

  // ---------- cancellation ----------

  /** The worker will neither send the item nor store a different status for it. */
  ghost predicate Harmless(h: Hand, item: Item) {
    match h
    case Taken(_) => true
    case Loaded(t) => t.item != item
    case Marked(t) => t.item != item
    case Ran(t, _) => t.item != item
    case Writing(_, writes) =>
      forall j :: 0 <= j < |writes| && writes[j].PutTask? && writes[j].p.item == item ==> writes[j].p.status.Cancelled?
  }

  predicate IsCancelled(w: Plant, item: Item) { item in w.stores.tasks && w.stores.tasks[item].status.Cancelled? }

  /** Cancelled, and no worker holds it past its load. */
  ghost predicate Settled(w: Plant, item: Item) {
    IsCancelled(w, item) && forall k :: k in w.hands ==> Harmless(w.hands[k], item)
  }

  function TimesSent(w: Plant, item: Item): nat { multiset(w.sent)[item] }

  predicate Stores(c: Command, item: Item) { c.StoreTask? && c.p.item == item }

  lemma ProceedKeepsSettled(s: Settings, w: Plant, k: nat, turn: Turn, item: Item)
    requires Settled(w, item) && k in w.hands && forall i :: i in w.stores.tasks ==> w.stores.tasks[i].item == i
    ensures Settled(Proceed(s, w, k, turn), item) && TimesSent(Proceed(s, w, k, turn), item) == TimesSent(w, item)
  {
    assert Harmless(w.hands[k], item);
  }

  lemma StepKeepsSettled(s: Settings, w: Plant, c: Command, item: Item)
    requires Sound(w) && Settled(w, item) && !Stores(c, item)
    ensures Settled(Apply(s, w, c), item) && TimesSent(Apply(s, w, c), item) == TimesSent(w, item)
  {
    if c.Advance? && c.worker in w.hands {
      ProceedKeepsSettled(s, w, c.worker, c.turn, item);
    }
  }

  /** A task cancelled while no worker executes it is never sent to the provider again and stays
      cancelled, in every run that does not store it anew, under any number of repeated deliveries. */
  lemma {:induction false} CancellationHolds(s: Settings, w: Plant, item: Item, cs: seq<Command>)
    requires Sound(w) && Settled(w, item) && forall i :: 0 <= i < |cs| ==> !Stores(cs[i], item)
    ensures var after := After(s, w, cs);
            Sound(after) && Settled(after, item) && TimesSent(after, item) == TimesSent(w, item)
  {
    if cs != [] {
      var front := cs[..|cs| - 1];
      CancellationHolds(s, w, item, front);
      StepSound(s, After(s, w, front), cs[|cs| - 1]);
      StepKeepsSettled(s, After(s, w, front), cs[|cs| - 1], item);
    }
  }

  // ---------- one worker going on ----------

  /** The worker does `n` commands in a row. */
  function Again(k: nat, turn: Turn, n: nat): (cs: seq<Command>)
    ensures |cs| == n && forall i :: 0 <= i < n ==> cs[i] == Advance(k, turn)
  {
    if n == 0 then [] else Again(k, turn, n - 1) + [Advance(k, turn)]
  }

  function PutAll(w: World, item: Item, writes: seq<Write>): World {
    if writes == [] then w else Put(PutAll(w, item, writes[..|writes| - 1]), item, writes[|writes| - 1])
  }

  lemma {:induction false} AfterBoth(s: Settings, w: Plant, a: seq<Command>, b: seq<Command>)
    ensures After(s, w, a + b) == After(s, After(s, w, a), b)
  {
    if b == [] {
      assert a + b == a;
    } else {
      AfterBoth(s, w, a, b[..|b| - 1]);
      assert (a + b)[..|a + b| - 1] == a + b[..|b| - 1];
    }
  }

  lemma {:induction false} WritesOneByOne(s: Settings, w: Plant, k: nat, turn: Turn, n: nat)
    requires k in w.hands && w.hands[k].Writing? && n <= |w.hands[k].writes|
    ensures var h := w.hands[k];
            After(s, w, Again(k, turn, n)) ==
              w.(stores := PutAll(w.stores, h.item, h.writes[..n]),
                  hands := w.hands[k := Writing(h.item, h.writes[n..])])
    decreases n
  {
    var h := w.hands[k];
    if n == 0 {
      assert h.writes[0..] == h.writes && w.hands[k := h] == w.hands;
    } else {
      WritesOneByOne(s, w, k, turn, n - 1);
      WriteOneMore(s, w, h.item, h.writes, k, turn, n - 1);
      assert Again(k, turn, n)[..n - 1] == Again(k, turn, n - 1);
    }
  }

  lemma WriteOneMore(s: Settings, w: Plant, item: Item, writes: seq<Write>, k: nat, turn: Turn, n: nat)
    requires n < |writes|
    ensures var before := w.(stores := PutAll(w.stores, item, writes[..n]),
                             hands := w.hands[k := Writing(item, writes[n..])]);
            Apply(s, before, Advance(k, turn)) ==
              w.(stores := PutAll(w.stores, item, writes[..n + 1]),
                  hands := w.hands[k := Writing(item, writes[n + 1..])])
  {
    assert writes[..n + 1][..n] == writes[..n] && writes[n..][1..] == writes[n + 1..];
    var there := w.hands[k := Writing(item, writes[n..])];
    assert there[k := Writing(item, writes[n + 1..])] == w.hands[k := Writing(item, writes[n + 1..])];
  }

  // ---------- cancelling too late ----------

  lemma PutLast(w: World, item: Item, writes: seq<Write>, j: nat)
    requires j < |writes| && writes[j].PutTask?
    ensures var p, v := writes[j].p, PutAll(w, item, writes[..j + 1]);
            p.item in v.tasks && v.tasks[p.item] == p
  {
    assert writes[..j + 1][..j] == writes[..j];
  }

  /** Some task write of the worker undoes the cancellation. */
  lemma WriteUndoes(s: Settings, w: Plant, k: nat, turn: Turn, item: Item) returns (n: nat)
    requires k in w.hands && w.hands[k].Writing? && !Harmless(w.hands[k], item)
    ensures !IsCancelled(After(s, w, Again(k, turn, n)), item)
  {
    var h := w.hands[k];
    var j :| 0 <= j < |h.writes| && h.writes[j].PutTask? && h.writes[j].p.item == item
        && !h.writes[j].p.status.Cancelled?;
    n := j + 1;
    WritesOneByOne(s, w, k, turn, n);
    PutLast(w.stores, h.item, h.writes, j);
  }

  lemma ReportUndoes(s: Settings, turn: Turn, mayRetry: bool, t: Payload, ran: Result<Report>)
    requires ran.Ok? ==> !ran.value.status.Cancelled?
    ensures !Harmless(Writing(t.item, WritesFor(s, turn, mayRetry, t, ran)), t.item)
  {
    var writes := WritesFor(s, turn, mayRetry, t, ran);
    assert writes[0].PutTask? || writes[1].PutTask?;
  }

  /** The condition is exact: while some worker holds the task past its load, that worker alone, going
      on, sends it to the provider or stores a status that is not cancelled. */
  lemma CancellationEscapes(s: Settings, w: Plant, k: nat, turn: Turn, item: Item) returns (n: nat)
    requires Sound(w) && IsCancelled(w, item) && k in w.hands && !Harmless(w.hands[k], item)
    ensures var after := After(s, w, Again(k, turn, n));
            !IsCancelled(after, item) || TimesSent(after, item) > TimesSent(w, item)
  {
    match w.hands[k]
    case Loaded(t) =>
      n := 2;
      LoadedSends(s, w, k, turn);
    case Marked(t) =>
      n := 1;
      FirstOne(s, w, k, turn);
    case Ran(t, ran) => n := RanUndoes(s, w, k, turn);
    case Writing(_, _) => n := WriteUndoes(s, w, k, turn, item);
  }

  lemma LoadedSends(s: Settings, w: Plant, k: nat, turn: Turn)
    requires k in w.hands && w.hands[k].Loaded?
    ensures After(s, w, Again(k, turn, 2)).sent == w.sent + [w.hands[k].t.item]
  {
    FirstTwo(s, w, k, turn);
  }

  lemma RanUndoes(s: Settings, w: Plant, k: nat, turn: Turn) returns (n: nat)
    requires k in w.hands && w.hands[k].Ran? && (w.hands[k].ran.Ok? ==> !w.hands[k].ran.value.status.Cancelled?)
    ensures !IsCancelled(After(s, w, Again(k, turn, n)), w.hands[k].t.item)
  {
    var t := w.hands[k].t;
    ReportUndoes(s, turn, MayRetry(s, w.stores.jobs, t.item), t, w.hands[k].ran);
    var m := WriteUndoes(s, Proceed(s, w, k, turn), k, turn, t.item);
    n := m + 1;
    OneThen(s, w, k, turn, m);
  }

  lemma FirstOne(s: Settings, w: Plant, k: nat, turn: Turn)
    requires k in w.hands
    ensures After(s, w, Again(k, turn, 1)) == Proceed(s, w, k, turn)
  {
    assert Again(k, turn, 1) == [Advance(k, turn)] && [Advance(k, turn)][..0] == [];
  }

  lemma {:induction false} OneThen(s: Settings, w: Plant, k: nat, turn: Turn, n: nat)
    requires k in w.hands
    ensures After(s, w, Again(k, turn, n + 1)) == After(s, Proceed(s, w, k, turn), Again(k, turn, n))
  {
    FirstOne(s, w, k, turn);
    AfterBoth(s, w, Again(k, turn, 1), Again(k, turn, n));
    assert Again(k, turn, 1) + Again(k, turn, n) == Again(k, turn, n + 1);
  }

  lemma FirstTwo(s: Settings, w: Plant, k: nat, turn: Turn)
    requires k in w.hands && k in Proceed(s, w, k, turn).hands
    ensures After(s, w, Again(k, turn, 2)) == Proceed(s, Proceed(s, w, k, turn), k, turn)
  {
    OneThen(s, w, k, turn, 1);
    FirstOne(s, Proceed(s, w, k, turn), k, turn);
  }

  // ---------- a worker left alone ----------

  lemma PutTwo(w: World, item: Item, a: Write, b: Write)
    ensures PutAll(w, item, [a, b]) == Put(Put(w, item, a), item, b)
  {
    assert [a, b][..1] == [a] && [a][..0] == [];
    assert PutAll(w, item, [a]) == Put(w, item, a);
  }

  lemma PutThree(w: World, item: Item, a: Write, b: Write, c: Write)
    ensures PutAll(w, item, [a, b, c]) == Put(Put(Put(w, item, a), item, b), item, c)
  {
    assert [a, b, c][..2] == [a, b];
    PutTwo(w, item, a, b);
  }

  lemma WritesAreSettle(s: Settings, turn: Turn, w: World, t: Payload, ran: Result<Report>)
    ensures PutAll(w, t.item, WritesFor(s, turn, MayRetry(s, w.jobs, t.item), t, ran)) == Settle(s, turn, w, t, ran)
  {
    var writes := WritesFor(s, turn, MayRetry(s, w.jobs, t.item), t, ran);
    if |writes| == 2 {
      assert writes == [writes[0], writes[1]];
      PutTwo(w, t.item, writes[0], writes[1]);
    } else {
      assert writes == [writes[0], writes[1], writes[2]];
      PutThree(w, t.item, writes[0], writes[1], writes[2]);
    }
  }

  /** Load and mark. */
  lemma LoadAndMark(s: Settings, w: Plant, k: nat, turn: Turn, item: Item)
    requires k in w.hands && w.hands[k] == Taken(item)
    requires item in w.stores.tasks && w.stores.tasks[item].item == item && !w.stores.tasks[item].status.Cancelled?
    ensures var t := w.stores.tasks[item].(status := Running);
            After(s, w, Again(k, turn, 2)) ==
              w.(stores := w.stores.(tasks := w.stores.tasks[item := t]), hands := w.hands[k := Marked(t)])
  {
    var t := w.stores.tasks[item].(status := Running);
    NextHand(w, k, Loaded(t), Marked(t));
    FirstTwo(s, w, k, turn);
  }

  /** Execute and read the attempts. */
  lemma ExecuteAndRead(s: Settings, w: Plant, k: nat, turn: Turn, t: Payload)
    requires k in w.hands && w.hands[k] == Marked(t)
    ensures var ran := ExecuteTask(turn.env, t);
            After(s, w, Again(k, turn, 2)) ==
              w.(hands := w.hands[k := Writing(t.item, WritesFor(s, turn, MayRetry(s, w.stores.jobs, t.item), t, ran))],
                 sent := w.sent + [t.item])
  {
    var ran := ExecuteTask(turn.env, t);
    NextHand(w, k, Ran(t, ran), Writing(t.item, WritesFor(s, turn, MayRetry(s, w.stores.jobs, t.item), t, ran)));
    FirstTwo(s, w, k, turn);
  }

  /** Load, mark, execute, read the attempts. */
  lemma UpToWrites(s: Settings, w: Plant, k: nat, turn: Turn, item: Item)
    requires k in w.hands && w.hands[k] == Taken(item)
    requires item in w.stores.tasks && w.stores.tasks[item].item == item && !w.stores.tasks[item].status.Cancelled?
    ensures var t := w.stores.tasks[item].(status := Running);
            var writes := WritesFor(s, turn, MayRetry(s, w.stores.jobs, item), t, ExecuteTask(turn.env, t));
            After(s, w, Again(k, turn, 4)) ==
              w.(stores := w.stores.(tasks := w.stores.tasks[item := t]), hands := w.hands[k := Writing(item, writes)],
                  sent := w.sent + [item])
  {
    var t := w.stores.tasks[item].(status := Running);
    LoadAndMark(s, w, k, turn, item);
    ExecuteAndRead(s, After(s, w, Again(k, turn, 2)), k, turn, t);
    var writes := WritesFor(s, turn, MayRetry(s, w.stores.jobs, item), t, ExecuteTask(turn.env, t));
    NextHand(w, k, Marked(t), Writing(item, writes));
    AfterBoth(s, w, Again(k, turn, 2), Again(k, turn, 2));
    AgainMore(k, turn, 2, 2);
  }

  lemma NextHand(w: Plant, k: nat, a: Hand, b: Hand)
    ensures w.hands[k := a][k := b] == w.hands[k := b]
  {
  }

  lemma LastWrite(s: Settings, w: Plant, k: nat, turn: Turn)
    requires k in w.hands && w.hands[k].Writing?
    ensures var h := w.hands[k];
            After(s, w, Again(k, turn, |h.writes| + 1)) ==
                w.(stores := PutAll(w.stores, h.item, h.writes), hands := w.hands - {k})
  {
    var h := w.hands[k];
    var n := |h.writes|;
    WritesOneByOne(s, w, k, turn, n);
    assert h.writes[..n] == h.writes && h.writes[n..] == [];
    assert Again(k, turn, n + 1)[..n] == Again(k, turn, n);
    assert w.hands[k := Writing(h.item, [])] - {k} == w.hands - {k};
  }

  /** From a delivered item that turns out cancelled. */
  lemma SkipsCancelled(s: Settings, w: Plant, k: nat, turn: Turn, item: Item)
    requires k in w.hands && w.hands[k] == Taken(item) && IsCancelled(w, item)
    ensures After(s, w, Again(k, turn, 3)) ==
              w.(stores := w.stores.(jobs := MarkDone(w.stores.jobs, item, turn.finished)), hands := w.hands - {k})
  {
    var done := PutRow(RowDone(turn.finished));
    OneThen(s, w, k, turn, 2);
    LastWrite(s, Proceed(s, w, k, turn), k, turn);
    assert [done][..0] == [];
    assert PutAll(w.stores, item, [done]) == Put(w.stores, item, done);
    assert w.hands[k := Writing(item, [done])] - {k} == w.hands - {k};
  }

  /** What is left to write after an execution, written without interruption, settles it. */
  lemma WritesSettle(s: Settings, w: Plant, k: nat, turn: Turn, t: Payload, ran: Result<Report>)
    requires k in w.hands
    requires w.hands[k] == Writing(t.item, WritesFor(s, turn, MayRetry(s, w.stores.jobs, t.item), t, ran))
    ensures After(s, w, Again(k, turn, |w.hands[k].writes| + 1)) ==
              w.(stores := Settle(s, turn, w.stores, t, ran), hands := w.hands - {k})
  {
    LastWrite(s, w, k, turn);
    WritesAreSettle(s, turn, w.stores, t, ran);
  }

  /** From a delivered item that is to be executed. */
  lemma ExecutesAlone(s: Settings, w: Plant, k: nat, turn: Turn, item: Item) returns (n: nat)
    requires k in w.hands && w.hands[k] == Taken(item)
    requires item in w.stores.tasks && w.stores.tasks[item].item == item && !w.stores.tasks[item].status.Cancelled?
    ensures var t := w.stores.tasks[item].(status := Running);
            After(s, w, Again(k, turn, n)) ==
              w.(stores := Settle(s, turn, w.stores, t, ExecuteTask(turn.env, t)), hands := w.hands - {k},
                  sent := w.sent + [item])
  {
    var t := w.stores.tasks[item].(status := Running);
    var ran := ExecuteTask(turn.env, t);
    UpToWrites(s, w, k, turn, item);
    var w4 := After(s, w, Again(k, turn, 4));
    WritesSettle(s, w4, k, turn, t, ran);
    var m := |w4.hands[k].writes| + 1;
    n := 4 + m;
    AgainMore(k, turn, 4, m);
    AfterBoth(s, w, Again(k, turn, 4), Again(k, turn, m));
    SettleOverwrites(s, turn, w.stores, t, ran);
    assert w4.hands - {k} == w.hands - {k};
  }

  /** A worker that nobody interrupts does exactly the atomic turn. */
  lemma UninterruptedIsRunOnce(s: Settings, w: Plant, k: nat, turn: Turn, item: Item) returns (n: nat)
    requires k !in w.hands && item in w.stores.tasks && w.stores.tasks[item].item == item
    ensures var cancelled := w.stores.tasks[item].status.Cancelled?;
            After(s, w, [Deliver(k, item, turn.started)] + Again(k, turn, n)) ==
              w.(stores := RunOnce(s, turn, w.stores, Some(item)),
                 sent := if cancelled then w.sent else w.sent + [item])
  {
    var deliver := [Deliver(k, item, turn.started)];
    var w0 := w.(stores := w.stores.(jobs := Take(w.stores.jobs, Some(item), turn.started)),
        hands := w.hands[k := Taken(item)]);
    assert deliver[..0] == [];
    assert After(s, w, deliver) == w0;
    assert w0.hands - {k} == w.hands;
    if w.stores.tasks[item].status.Cancelled? {
      n := 3;
      SkipsCancelled(s, w0, k, turn, item);
    } else {
      n := ExecutesAlone(s, w0, k, turn, item);
      ExecutionIgnoresStatus(turn.env, w.stores.tasks[item], Running);
    }
    AfterBoth(s, w, deliver, Again(k, turn, n));
  }

  lemma {:induction false} AgainMore(k: nat, turn: Turn, m: nat, n: nat)
    ensures Again(k, turn, m + n) == Again(k, turn, m) + Again(k, turn, n)
  {
  }

  // ---------- creating again at the wrong moment ----------

  /** Storing and enqueuing a task anew between the worker's last store write and its acknowledgement
      leaves a queued task whose row is done: no dequeue hands it out. */
  lemma CreationIsSwallowed(s: Settings, w: Plant, k: nat, turn: Turn, item: Item, done: int, p: Payload, now: int)
    requires k in w.hands && w.hands[k] == Writing(item, [PutRow(RowDone(done))])
    requires p.item == item && p.status.Queued?
    ensures var after := After(s, w, [StoreTask(p), EnqueueTask(item, now), Advance(k, turn)]).stores;
            && item in after.tasks && after.tasks[item] == p
            && item in after.jobs && after.jobs[item].state.JobDone?
            && forall later, pick :: IsPick(after.jobs, later, pick) ==> pick != Some(item)
  {
    var cs := [StoreTask(p), EnqueueTask(item, now), Advance(k, turn)];
    assert cs[..2] == [StoreTask(p), EnqueueTask(item, now)] && cs[..2][..1] == [StoreTask(p)] && cs[..1][..0] == [];
    var stored := Apply(s, w, StoreTask(p));
    var enqueued := Apply(s, stored, EnqueueTask(item, now));
    assert After(s, w, cs[..1]) == stored;
    assert After(s, w, cs[..2]) == enqueued;
  }
}