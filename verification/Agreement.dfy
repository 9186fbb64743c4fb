/** The stores agree whenever no worker and no creation is in the middle of something: what the atomic
    turns keep, one command at a time. */
module Agreement {
  import opened Text
  import opened Items
  import opened Execution
  import opened Gateway
  import SqliteQueue
  import opened Repositories
  import opened Delivery
  import opened Interleaving
  import opened Creations

  // ---------- one item ----------

  ghost predicate Fits(w: World, i: Item, saved: Report -> Saved) {
    && i in w.tasks && i in w.jobs && w.tasks[i].item == i
    && StatusFits(w.jobs[i].state, w.tasks[i].status) && ResultsFit(w, i, saved)
  }

  /** The two worlds have the same row and the same results for the item. */
  ghost predicate SameRowAt(w: World, v: World, i: Item) {
    && (i in w.jobs <==> i in v.jobs) && (i in w.jobs ==> w.jobs[i] == v.jobs[i])
    && (i in w.results <==> i in v.results) && (i in w.results ==> w.results[i] == v.results[i])
  }

  ghost predicate SameAt(w: World, v: World, i: Item) {
    SameRowAt(w, v, i) && (i in w.tasks <==> i in v.tasks) && (i in w.tasks ==> w.tasks[i] == v.tasks[i])
  }

  predicate PutsTask(writes: seq<Write>) { exists j :: 0 <= j < |writes| && writes[j].PutTask? }

  /** Writes for one item leave every other item alone. */
  lemma PutElsewhere(w: World, item: Item, write: Write, x: Item)
    requires write.PutTask? ==> write.p.item == item
    requires x != item
    ensures SameAt(Put(w, item, write), w, x)
  {
  }

  lemma PutsTaskLast(writes: seq<Write>)
    requires writes != []
    ensures PutsTask(writes) <==> PutsTask(writes[..|writes| - 1]) || writes[|writes| - 1].PutTask?
  {
    var front := writes[..|writes| - 1];
    assert forall j :: 0 <= j < |front| ==> front[j] == writes[j];
  }

  lemma PutSame(w: World, v: World, i: Item, write: Write)
    requires SameRowAt(w, v, i) && (write.PutTask? ==> write.p.item == i)
    ensures SameRowAt(Put(w, i, write), Put(v, i, write), i)
    ensures if write.PutTask? then i in Put(w, i, write).tasks && i in Put(v, i, write).tasks
              && Put(w, i, write).tasks[i] == Put(v, i, write).tasks[i]
            else Put(w, i, write).tasks == w.tasks && Put(v, i, write).tasks == v.tasks
  {
  }

  /** Rows and results written for an item depend only on what was there for it; the task only on the
      writes, if one of them is a task. */
  lemma {:induction false} PutAllSame(w: World, v: World, i: Item, writes: seq<Write>)
    requires SameRowAt(w, v, i) && OwnWrites(i, writes)
    ensures var a, b := PutAll(w, i, writes), PutAll(v, i, writes);
            && SameRowAt(a, b, i)
            && (if PutsTask(writes) then i in a.tasks && i in b.tasks && a.tasks[i] == b.tasks[i]
                else a.tasks == w.tasks && b.tasks == v.tasks)
  {
    if writes != [] {
      var front, last := writes[..|writes| - 1], writes[|writes| - 1];
      PutsTaskLast(writes);
      PutAllSame(w, v, i, front);
      PutSame(PutAll(w, i, front), PutAll(v, i, front), i, last);
    }
  }

  lemma {:induction false} PutFirst(w: World, item: Item, writes: seq<Write>)
    requires writes != []
    ensures PutAll(Put(w, item, writes[0]), item, writes[1..]) == PutAll(w, item, writes)
  {
    if |writes| == 1 {
      assert writes[..0] == [];
    } else {
      var front := writes[..|writes| - 1];
      PutFirst(w, item, front);
      assert front[1..] == writes[1..][..|writes| - 2];
    }
  }

  // ---------- one hand ----------

  /** What the worker has left to do makes its item fit. */
  ghost predicate HandFits(w: World, h: Hand, saved: Report -> Saved) {
    && ItemOf(h) in w.tasks && ItemOf(h) in w.jobs
    && match h
       case Taken(i) => StatusFits(JobQueued, w.tasks[i].status)
       case Writing(i, writes) => Fits(PutAll(w, i, writes), i, saved)
       case _ => true
  }

  lemma HandFitsSame(w: World, v: World, h: Hand, saved: Report -> Saved)
    requires HandFits(w, h, saved) && SameAt(w, v, ItemOf(h)) && RegularHand(h)
    ensures HandFits(v, h, saved)
  {
    if h.Writing? {
      PutAllSame(w, v, h.item, h.writes);
    }
  }

  lemma SettleFits(s: Settings, turn: Turn, w: World, t: Payload, ran: Result<Report>)
    requires t.item in w.jobs && (ran.Ok? ==> Terminal(ran.value.status) && !ran.value.status.Cancelled?)
    ensures Fits(Settle(s, turn, w, t, ran), t.item, turn.saved)
  {
  }

  ghost predicate IsHeld(w: Plant, i: Item) { exists k :: k in w.hands && ItemOf(w.hands[k]) == i }

  /** No item is in two hands, or in a hand and being created. */
  ghost predicate Apart(w: Plant) {
    && (forall k, l :: k in w.hands && l in w.hands && k != l ==> ItemOf(w.hands[k]) != ItemOf(w.hands[l]))
    && (forall k :: k in w.hands ==> ItemOf(w.hands[k]) !in w.creates)
  }

  ghost predicate HandsFit(w: Plant, saved: Report -> Saved) {
    forall k :: k in w.hands ==> HandFits(w.stores, w.hands[k], saved)
  }

  /** Every row, pending cancellation and open creation has its task; one being created may be queued. */
  ghost predicate HaveTasks(w: Plant) {
    && (forall i :: i in w.stores.jobs ==> i in w.stores.tasks)
    && (forall i :: i in w.creates ==> i in w.stores.tasks && StatusFits(JobQueued, w.stores.tasks[i].status))
    && (forall q :: q in w.cancels ==> q.item in w.stores.tasks)
  }

  /** What is in no hand and not being created fits. */
  ghost predicate FreeFit(w: Plant, saved: Report -> Saved) {
    forall i :: i in w.stores.tasks ==> IsHeld(w, i) || i in w.creates || Fits(w.stores, i, saved)
  }

  ghost predicate Consistent(w: Plant, saved: Report -> Saved) {
    Regular(w) && Apart(w) && HandsFit(w, saved) && HaveTasks(w) && FreeFit(w, saved)
  }

  // ---------- commands that keep it ----------

  /** The worker will leave a failed row, and will not store the task again. */
  ghost predicate OnlyFails(w: World, h: Hand) {
    && h.Writing? && !PutsTask(h.writes)
    && h.item in PutAll(w, h.item, h.writes).jobs && PutAll(w, h.item, h.writes).jobs[h.item].state.JobFailed?
  }

  /** A cancellation of the item can be stored now, however old it is: its row is not failed, or about to be. */
  ghost predicate CancelFits(w: Plant, i: Item) {
    && (forall k :: k in w.hands && ItemOf(w.hands[k]) == i ==> !OnlyFails(w.stores, w.hands[k]))
    && (!IsHeld(w, i) && i !in w.creates && i in w.stores.jobs ==> !w.stores.jobs[i].state.JobFailed?)
  }

  /** An item is delivered whose task is queued, retrying or cancelled, that no worker holds and nobody is
      creating; no held item is created; a cancellation is stored where it fits. */
  ghost predicate Proper(w: Plant, c: Command) {
    match c
    case Deliver(k, i, _) =>
      k !in w.hands ==>
        && i in w.stores.jobs && i in w.stores.tasks && StatusFits(JobQueued, w.stores.tasks[i].status)
        && !IsHeld(w, i) && i !in w.creates
    case StoreTask(p) => StatusFits(JobQueued, p.status) && !IsHeld(w, p.item)
    case CancelStore(q) => q in w.cancels ==> CancelFits(w, q.item)
    case _ => true
  }

  /** What the program does: a creation enqueues what it stored, and results are cut by `saved`. */
  ghost predicate Possible(w: Plant, c: Command, saved: Report -> Saved) {
    (c.EnqueueTask? ==> c.item in w.creates) && (c.Advance? ==> c.turn.saved == saved)
  }

  // ---------- a change at one item ----------

  /** The stores differ at this item only. */
  ghost predicate OnlyAt(w: Plant, v: Plant, i: Item) {
    forall x :: x != i ==> SameAt(w.stores, v.stores, x)
  }

  lemma OthersFit(w: Plant, v: Plant, i: Item, saved: Report -> Saved)
    requires FreeFit(w, saved) && OnlyAt(w, v, i)
    requires forall x :: x != i ==> (IsHeld(w, x) ==> IsHeld(v, x)) && (x in w.creates ==> x in v.creates)
    requires i in v.stores.tasks ==> IsHeld(v, i) || i in v.creates || Fits(v.stores, i, saved)
    ensures FreeFit(v, saved)
  {
    forall x | x in v.stores.tasks && x != i && !IsHeld(v, x) && x !in v.creates ensures Fits(v.stores, x, saved) {
      assert SameAt(w.stores, v.stores, x) && x in w.stores.tasks && !IsHeld(w, x) && x !in w.creates;
      assert Fits(w.stores, x, saved);
    }
  }

  lemma OtherHandsFit(w: Plant, v: Plant, i: Item, saved: Report -> Saved)
    requires HandsFit(w, saved) && Regular(w) && OnlyAt(w, v, i)
    requires forall l :: l in v.hands ==>
               if ItemOf(v.hands[l]) == i then HandFits(v.stores, v.hands[l], saved)
               else l in w.hands && v.hands[l] == w.hands[l]
    ensures HandsFit(v, saved)
  {
    forall l | l in v.hands && ItemOf(v.hands[l]) != i ensures HandFits(v.stores, v.hands[l], saved) {
      assert RegularHand(w.hands[l]);
      HandFitsSame(w.stores, v.stores, w.hands[l], saved);
    }
  }

  lemma TasksStay(w: Plant, v: Plant, i: Item)
    requires HaveTasks(w) && OnlyAt(w, v, i) && i in v.stores.tasks
    requires forall q :: q in v.cancels ==> q in w.cancels
    requires forall x :: x in v.creates && x != i ==> x in w.creates
    requires i in v.creates ==> StatusFits(JobQueued, v.stores.tasks[i].status)
    ensures HaveTasks(v)
  {
    forall x | x in v.stores.jobs ensures x in v.stores.tasks {
      assert x != i ==> SameAt(w.stores, v.stores, x);
    }
    forall x | x in v.creates ensures x in v.stores.tasks && StatusFits(JobQueued, v.stores.tasks[x].status) {
      assert x != i ==> SameAt(w.stores, v.stores, x);
    }
    forall q | q in v.cancels ensures q.item in v.stores.tasks {
      assert q.item != i ==> SameAt(w.stores, v.stores, q.item);
    }
  }

  /** One worker's step, seen from outside: it changes the stores at its own item only, and leaves a hand
      that fits, or no hand and an item that fits. */
  ghost predicate OwnStep(w: Plant, v: Plant, k: nat, saved: Report -> Saved)
    requires k in w.hands
  {
    var i := ItemOf(w.hands[k]);
    && v.creates == w.creates && v.cancels == w.cancels && OnlyAt(w, v, i)
    && v.hands.Keys <= w.hands.Keys && (forall l :: l in w.hands && l != k ==> l in v.hands && v.hands[l] == w.hands[l])
    && i in v.stores.tasks && i in v.stores.jobs
    && (if k in v.hands then ItemOf(v.hands[k]) == i && HandFits(v.stores, v.hands[k], saved)
        else Fits(v.stores, i, saved))
  }

  lemma HeldElsewhere(w: Plant, v: Plant, k: nat, x: Item)
    requires k in w.hands && forall l :: l in w.hands && l != k ==> l in v.hands && v.hands[l] == w.hands[l]
    requires IsHeld(w, x) && x != ItemOf(w.hands[k])
    ensures IsHeld(v, x)
  {
    var l :| l in w.hands && ItemOf(w.hands[l]) == x;
    assert v.hands[l] == w.hands[l];
  }

  lemma OwnStepConsistent(w: Plant, v: Plant, k: nat, saved: Report -> Saved)
    requires Consistent(w, saved) && Regular(v) && k in w.hands && OwnStep(w, v, k, saved)
    ensures Consistent(v, saved)
  {
    var i := ItemOf(w.hands[k]);
    OwnStepApart(w, v, k, saved);
    OtherHandsFit(w, v, i, saved);
    TasksStay(w, v, i);
    forall x | x != i && IsHeld(w, x) ensures IsHeld(v, x) {
      HeldElsewhere(w, v, k, x);
    }
    if k in v.hands {
      assert IsHeld(v, i);
    }
    OthersFit(w, v, i, saved);
  }

  lemma OwnStepApart(w: Plant, v: Plant, k: nat, saved: Report -> Saved)
    requires Apart(w) && k in w.hands && OwnStep(w, v, k, saved)
    ensures Apart(v)
    ensures forall l :: l in v.hands && l != k ==> ItemOf(v.hands[l]) != ItemOf(w.hands[k])
  {
  }

  lemma ProceedOwn(s: Settings, w: Plant, k: nat, turn: Turn)
    requires Consistent(w, turn.saved) && k in w.hands
    ensures OwnStep(w, Proceed(s, w, k, turn), k, turn.saved)
  {
    assert RegularHand(w.hands[k]) && HandFits(w.stores, w.hands[k], turn.saved);
    match w.hands[k]
    case Taken(item) => LoadOwn(s, w, k, turn, item);
    case Loaded(t) => MarkOwn(s, w, k, turn);
    case Marked(t) => ExecuteOwn(s, w, k, turn);
    case Ran(t, ran) => ReadOwn(s, w, k, turn);
    case Writing(item, writes) => WritingOwn(s, w, k, turn);
  }

  lemma MarkOwn(s: Settings, w: Plant, k: nat, turn: Turn)
    requires k in w.hands && w.hands[k].Loaded? && HandFits(w.stores, w.hands[k], turn.saved)
    ensures OwnStep(w, Proceed(s, w, k, turn), k, turn.saved)
  {
  }

  lemma ExecuteOwn(s: Settings, w: Plant, k: nat, turn: Turn)
    requires k in w.hands && w.hands[k].Marked? && HandFits(w.stores, w.hands[k], turn.saved)
    ensures OwnStep(w, Proceed(s, w, k, turn), k, turn.saved)
  {
  }

  lemma ReadOwn(s: Settings, w: Plant, k: nat, turn: Turn)
    requires k in w.hands && w.hands[k].Ran? && RegularHand(w.hands[k]) && HandFits(w.stores, w.hands[k], turn.saved)
    ensures OwnStep(w, Proceed(s, w, k, turn), k, turn.saved)
  {
    var t, ran := w.hands[k].t, w.hands[k].ran;
    WritesAreSettle(s, turn, w.stores, t, ran);
    SettleFits(s, turn, w.stores, t, ran);
  }

  lemma WritingOwn(s: Settings, w: Plant, k: nat, turn: Turn)
    requires k in w.hands && w.hands[k].Writing? && RegularHand(w.hands[k])
    requires HandFits(w.stores, w.hands[k], turn.saved)
    ensures OwnStep(w, Proceed(s, w, k, turn), k, turn.saved)
  {
    var item, writes := w.hands[k].item, w.hands[k].writes;
    if writes != [] {
      PutFirst(w.stores, item, writes);
      WriteOwn(w.stores, item, writes[0]);
    }
  }

  lemma WriteOwn(w: World, item: Item, write: Write)
    requires (write.PutTask? ==> write.p.item == item) && item in w.tasks && item in w.jobs
    ensures var v := Put(w, item, write); item in v.tasks && item in v.jobs && forall x :: x != item ==> SameAt(w, v, x)
  {
  }

  /** A cancelled task is only acknowledged, and its row may be done. */
  lemma LoadOwn(s: Settings, w: Plant, k: nat, turn: Turn, item: Item)
    requires k in w.hands && w.hands[k] == Taken(item) && HandFits(w.stores, w.hands[k], turn.saved) && Regular(w)
    ensures OwnStep(w, Proceed(s, w, k, turn), k, turn.saved)
  {
    if w.stores.tasks[item].status.Cancelled? {
      DoneFits(w.stores, item, turn.finished, turn.saved);
    }
  }

  lemma DoneFits(w: World, item: Item, now: int, saved: Report -> Saved)
    requires item in w.tasks && item in w.jobs && w.tasks[item].item == item && w.tasks[item].status.Cancelled?
    ensures Fits(PutAll(w, item, [PutRow(RowDone(now))]), item, saved)
  {
    var done := PutRow(RowDone(now));
    assert [done][..0] == [];
    assert PutAll(w, item, [done]) == Put(w, item, done);
  }

  lemma ProceedConsistent(s: Settings, w: Plant, k: nat, turn: Turn)
    requires Consistent(w, turn.saved) && k in w.hands
    ensures Consistent(Proceed(s, w, k, turn), turn.saved)
  {
    ProceedRegular(s, w, k, turn);
    ProceedOwn(s, w, k, turn);
    OwnStepConsistent(w, Proceed(s, w, k, turn), k, turn.saved);
  }

  // ---------- the other commands ----------

  lemma DeliverConsistent(s: Settings, w: Plant, k: nat, i: Item, now: int, saved: Report -> Saved)
    requires Consistent(w, saved) && k !in w.hands && Proper(w, Deliver(k, i, now))
    ensures Consistent(Apply(s, w, Deliver(k, i, now)), saved)
  {
    Handed(w, Apply(s, w, Deliver(k, i, now)), k, i, saved);
  }

  lemma Handed(w: Plant, v: Plant, k: nat, i: Item, saved: Report -> Saved)
    requires Consistent(w, saved) && k !in w.hands && !IsHeld(w, i) && i !in w.creates && Regular(v)
    requires v.hands == w.hands[k := Taken(i)] && v.creates == w.creates && v.cancels == w.cancels && OnlyAt(w, v, i)
    requires i in v.stores.tasks && i in v.stores.jobs && StatusFits(JobQueued, v.stores.tasks[i].status)
    ensures Consistent(v, saved)
  {
    HandedApart(w, v, k, i);
    OtherHandsFit(w, v, i, saved);
    TasksStay(w, v, i);
    HeldStays(w, v);
    OthersFit(w, v, i, saved);
  }

  lemma HandedApart(w: Plant, v: Plant, k: nat, i: Item)
    requires Apart(w) && k !in w.hands && !IsHeld(w, i) && i !in w.creates
    requires v.hands == w.hands[k := Taken(i)] && v.creates == w.creates
    ensures Apart(v) && IsHeld(v, i)
    ensures forall l :: l in v.hands && ItemOf(v.hands[l]) == i ==> l == k
  {
    forall l | l in w.hands ensures ItemOf(w.hands[l]) != i {
    }
    assert ItemOf(v.hands[k]) == i;
  }

  lemma HeldStays(w: Plant, v: Plant)
    requires forall l :: l in w.hands ==> l in v.hands && v.hands[l] == w.hands[l]
    ensures forall x :: IsHeld(w, x) ==> IsHeld(v, x)
  {
  }

  /** A command that leaves the hands alone and writes to the stores for an item in no hand. */
  lemma FreeWriteConsistent(w: Plant, v: Plant, i: Item, saved: Report -> Saved)
    requires Consistent(w, saved) && Regular(v) && v.hands == w.hands && !IsHeld(w, i) && OnlyAt(w, v, i)
    requires forall x :: x != i ==> (x in v.creates <==> x in w.creates)
    requires i in v.stores.tasks && forall q :: q in v.cancels ==> q in w.cancels
    requires if i in v.creates then StatusFits(JobQueued, v.stores.tasks[i].status) else Fits(v.stores, i, saved)
    ensures Consistent(v, saved)
  {
    forall l | l in w.hands ensures ItemOf(w.hands[l]) != i {
    }
    OtherHandsFit(w, v, i, saved);
    TasksStay(w, v, i);
    HeldStays(w, v);
    OthersFit(w, v, i, saved);
  }

  lemma StoreConsistent(s: Settings, w: Plant, p: Payload, saved: Report -> Saved)
    requires Consistent(w, saved) && Proper(w, StoreTask(p))
    ensures Consistent(Apply(s, w, StoreTask(p)), saved)
  {
    FreeWriteConsistent(w, Apply(s, w, StoreTask(p)), p.item, saved);
  }

  lemma EnqueueConsistent(s: Settings, w: Plant, i: Item, now: int, saved: Report -> Saved)
    requires Consistent(w, saved) && i in w.creates
    ensures Consistent(Apply(s, w, EnqueueTask(i, now)), saved)
  {
    NotHeld(w, i);
    EnqueueFits(w.stores, i, now, saved);
    FreeWriteConsistent(w, Apply(s, w, EnqueueTask(i, now)), i, saved);
  }

  lemma NotHeld(w: Plant, i: Item)
    requires Apart(w) && i in w.creates
    ensures !IsHeld(w, i)
  {
  }

  lemma EnqueueFits(w: World, i: Item, now: int, saved: Report -> Saved)
    requires i in w.tasks && w.tasks[i].item == i && StatusFits(JobQueued, w.tasks[i].status)
    ensures Fits(w.(jobs := SqliteQueue.Enqueue(w.jobs, i, now)), i, saved)
  {
  }

  /** A cancellation of a held item: what the worker has left to do still leads to a fit. */
  lemma CancelHeld(w: World, h: Hand, q: Payload, saved: Report -> Saved)
    requires HandFits(w, h, saved) && RegularHand(h) && q.item == ItemOf(h) && q.status.Cancelled? && !OnlyFails(w, h)
    ensures HandFits(w.(tasks := w.tasks[q.item := q]), h, saved)
  {
    var v := w.(tasks := w.tasks[q.item := q]);
    if h.Writing? {
      PutAllSame(w, v, h.item, h.writes);
    }
  }

  lemma CancelHeldConsistent(w: Plant, k: nat, q: Payload, saved: Report -> Saved)
    requires Consistent(w, saved) && q in w.cancels && CancelFits(w, q.item) && k in w.hands
    requires ItemOf(w.hands[k]) == q.item
    ensures Consistent(w.(stores := Put(w.stores, q.item, PutTask(q))), saved)
  {
    CancelHeld(w.stores, w.hands[k], q, saved);
    OwnStepConsistent(w, w.(stores := Put(w.stores, q.item, PutTask(q))), k, saved);
  }

  lemma CancelFreeConsistent(w: Plant, q: Payload, saved: Report -> Saved)
    requires Consistent(w, saved) && q in w.cancels && CancelFits(w, q.item) && !IsHeld(w, q.item)
    ensures Consistent(w.(stores := Put(w.stores, q.item, PutTask(q))), saved)
  {
    if q.item !in w.creates {
      assert Fits(w.stores, q.item, saved);
    }
    FreeWriteConsistent(w, w.(stores := Put(w.stores, q.item, PutTask(q))), q.item, saved);
  }

  lemma CancelConsistent(s: Settings, w: Plant, q: Payload, saved: Report -> Saved)
    requires Consistent(w, saved) && CancelFits(w, q.item) && q in w.cancels
    ensures Consistent(Apply(s, w, CancelStore(q)), saved)
  {
    var stored := w.(stores := Put(w.stores, q.item, PutTask(q)));
    if k :| k in w.hands && ItemOf(w.hands[k]) == q.item {
      CancelHeldConsistent(w, k, q, saved);
    } else {
      CancelFreeConsistent(w, q, saved);
    }
    FewerCancels(stored, Apply(s, w, CancelStore(q)), saved);
  }

  lemma FewerCancels(w: Plant, v: Plant, saved: Report -> Saved)
    requires Consistent(w, saved) && v == w.(cancels := v.cancels) && v.cancels <= w.cancels
    ensures Consistent(v, saved)
  {
    HeldStays(w, v);
  }

  lemma MoreCancels(w: Plant, v: Plant, q: Payload, saved: Report -> Saved)
    requires Consistent(w, saved) && v == w.(cancels := w.cancels + {q}) && q.status.Cancelled?
    requires q.item in w.stores.tasks
    ensures Consistent(v, saved)
  {
    HeldStays(w, v);
  }

  lemma StepConsistent(s: Settings, w: Plant, c: Command, saved: Report -> Saved)
    requires Consistent(w, saved) && Proper(w, c) && Possible(w, c, saved)
    ensures Consistent(Apply(s, w, c), saved)
  {
    match c
    case Deliver(k, i, now) => if k !in w.hands { DeliverConsistent(s, w, k, i, now, saved); }
    case Advance(k, turn) => if k in w.hands { ProceedConsistent(s, w, k, turn); }
    case StoreTask(p) => StoreConsistent(s, w, p, saved);
    case EnqueueTask(i, now) => EnqueueConsistent(s, w, i, now, saved);
    case CancelLoad(i) =>
      if CancelOutcome(w.stores.tasks, i).Accepted? {
        MoreCancels(w, Apply(s, w, c), w.stores.tasks[i].(status := Cancelled), saved);
      }
    case CancelStore(q) => if q in w.cancels { CancelConsistent(s, w, q, saved); }
  }

  // ---------- runs ----------

  /** Every command of the run is possible in the state it meets. */
  ghost predicate PossibleRun(s: Settings, w: Plant, cs: seq<Command>, saved: Report -> Saved) {
    cs != [] ==>
      PossibleRun(s, w, cs[..|cs| - 1], saved) && Possible(After(s, w, cs[..|cs| - 1]), cs[|cs| - 1], saved)
  }

  /** Every command of the run is proper in the state it meets. */
  ghost predicate ProperRun(s: Settings, w: Plant, cs: seq<Command>) {
    cs != [] ==> ProperRun(s, w, cs[..|cs| - 1]) && Proper(After(s, w, cs[..|cs| - 1]), cs[|cs| - 1])
  }

  /** Every state of the run is consistent. */
  ghost predicate ConsistentRun(s: Settings, w: Plant, cs: seq<Command>, saved: Report -> Saved) {
    Consistent(After(s, w, cs), saved) && (cs != [] ==> ConsistentRun(s, w, cs[..|cs| - 1], saved))
  }

  /** Any number of workers, one command at a time: as long as every command is proper, every state of the
      run is consistent. */
  lemma {:induction false} CommandsConsistent(s: Settings, w: Plant, cs: seq<Command>, saved: Report -> Saved)
    requires Consistent(w, saved) && PossibleRun(s, w, cs, saved) && ProperRun(s, w, cs)
    ensures Consistent(After(s, w, cs), saved)
  {
    if cs != [] {
      var front := cs[..|cs| - 1];
      CommandsConsistent(s, w, front, saved);
      StepConsistent(s, After(s, w, front), cs[|cs| - 1], saved);
    }
  }

  /** No worker holds anything and no creation is half done. */
  predicate AtRest(w: Plant) { w.hands == map[] && w.creates == multiset{} }

  lemma RestAgrees(w: Plant, saved: Report -> Saved)
    requires Consistent(w, saved) && AtRest(w)
    ensures Agrees(w.stores, saved)
  {
    forall i | i in w.stores.tasks ensures Fits(w.stores, i, saved) {
      assert !IsHeld(w, i);
    }
  }

  const NO_HANDS: map<nat, Hand> := map[]

  function Resting(stores: World): Plant { Plant(stores, NO_HANDS, {}, multiset{}, []) }

  lemma RestIsConsistent(stores: World, saved: Report -> Saved)
    requires Agrees(stores, saved)
    ensures Consistent(Resting(stores), saved)
  {
  }

  /** In every run of proper commands the stores agree whenever no worker holds anything and no creation
      is half done. */
  lemma CommandsAgree(s: Settings, stores: World, cs: seq<Command>, saved: Report -> Saved)
    requires Agrees(stores, saved) && PossibleRun(s, Resting(stores), cs, saved) && ProperRun(s, Resting(stores), cs)
    ensures AtRest(After(s, Resting(stores), cs)) ==> Agrees(After(s, Resting(stores), cs).stores, saved)
  {
    RestIsConsistent(stores, saved);
    CommandsConsistent(s, Resting(stores), cs, saved);
    if AtRest(After(s, Resting(stores), cs)) {
      RestAgrees(After(s, Resting(stores), cs), saved);
    }
  }

  // ---------- one worker ----------

  /** Worker 0 alone takes what the table hands out, nothing that is just being created; the other
      commands are proper. */
  ghost predicate OneWorker(w: Plant, c: Command) {
    match c
    case Deliver(k, i, now) => k == 0 && SqliteQueue.IsPick(w.stores.jobs, now, Some(i)) && i !in w.creates
    case Advance(k, _) => k == 0
    case _ => Proper(w, c)
  }

  /** Every command of the run is that of one worker in the state it meets. */
  ghost predicate OneWorkerRun(s: Settings, w: Plant, cs: seq<Command>) {
    cs != [] ==> OneWorkerRun(s, w, cs[..|cs| - 1]) && OneWorker(After(s, w, cs[..|cs| - 1]), cs[|cs| - 1])
  }

  lemma OneWorkerIsProper(s: Settings, w: Plant, c: Command, saved: Report -> Saved)
    requires Consistent(w, saved) && w.hands.Keys <= {0} && OneWorker(w, c)
    ensures Proper(w, c) && Apply(s, w, c).hands.Keys <= {0}
  {
    if c.Deliver? && c.worker !in w.hands {
      assert !IsHeld(w, c.item);
      assert Fits(w.stores, c.item, saved);
    }
  }

  lemma {:induction false} OneWorkerRunsProper(s: Settings, w: Plant, cs: seq<Command>, saved: Report -> Saved)
    requires Consistent(w, saved) && w.hands.Keys <= {0} && PossibleRun(s, w, cs, saved) && OneWorkerRun(s, w, cs)
    ensures ProperRun(s, w, cs) && After(s, w, cs).hands.Keys <= {0}
  {
    if cs != [] {
      var front := cs[..|cs| - 1];
      OneWorkerRunsProper(s, w, front, saved);
      CommandsConsistent(s, w, front, saved);
      OneWorkerIsProper(s, After(s, w, front), cs[|cs| - 1], saved);
    }
  }

  /** With one worker, creations of items it does not hold and cancellations that fit when they are stored
      suffice, in any interleaving of the commands. */
  lemma OneWorkerAgrees(s: Settings, stores: World, cs: seq<Command>, saved: Report -> Saved)
    requires Agrees(stores, saved) && PossibleRun(s, Resting(stores), cs, saved) && OneWorkerRun(s, Resting(stores), cs)
    ensures AtRest(After(s, Resting(stores), cs)) ==> Agrees(After(s, Resting(stores), cs).stores, saved)
  {
    RestIsConsistent(stores, saved);
    OneWorkerRunsProper(s, Resting(stores), cs, saved);
    CommandsAgree(s, stores, cs, saved);
  }

  // ---------- commands that break it ----------

  /** An old cancellation keeps the stores consistent if and only if it fits. */
  lemma LateCancelIff(s: Settings, w: Plant, q: Payload, saved: Report -> Saved)
    requires Consistent(w, saved) && q in w.cancels
    ensures Consistent(Apply(s, w, CancelStore(q)), saved) <==> CancelFits(w, q.item)
  {
    if CancelFits(w, q.item) {
      CancelConsistent(s, w, q, saved);
    } else {
      LateCancelBreaks(s, w, q, saved);
    }
  }

  lemma LateCancelBreaks(s: Settings, w: Plant, q: Payload, saved: Report -> Saved)
    requires Consistent(w, saved) && q in w.cancels && !CancelFits(w, q.item)
    ensures !Consistent(Apply(s, w, CancelStore(q)), saved)
  {
    var v := Apply(s, w, CancelStore(q));
    if k :| k in w.hands && ItemOf(w.hands[k]) == q.item && OnlyFails(w.stores, w.hands[k]) {
      var h := w.hands[k];
      assert RegularHand(h);
      PutAllSame(w.stores, v.stores, h.item, h.writes);
      assert !HandFits(v.stores, v.hands[k], saved);
    } else {
      assert !IsHeld(v, q.item) && !Fits(v.stores, q.item, saved);
    }
  }

  lemma ImproperBreaks(s: Settings, w: Plant, c: Command, saved: Report -> Saved)
    requires Consistent(w, saved) && !Proper(w, c)
    ensures !Consistent(Apply(s, w, c), saved)
  {
    var v := Apply(s, w, c);
    match c
    case Deliver(k, i, now) =>
      assert v.hands[k] == Taken(i);
      HeldStays(w, v);
      if IsHeld(w, i) {
        var l :| l in w.hands && ItemOf(w.hands[l]) == i;
        assert l != k && v.hands[l] == w.hands[l];
      }
    case StoreTask(p) =>
      if IsHeld(w, p.item) {
        var l :| l in w.hands && ItemOf(w.hands[l]) == p.item;
        assert v.hands[l] == w.hands[l] && p.item in v.creates;
      } else {
        assert p.item in v.creates;
      }
    case CancelStore(q) => LateCancelBreaks(s, w, q, saved);
  }

  /** A command keeps the stores and the hands consistent if and only if it is proper. The equivalence is
      about `Consistent`, which contains `Apart`: delivering or creating a held item ends it because two
      hands, or a hand and a creation, then have one item, and the stores may still come to agree, as when
      the holder only has a retrying task left to store. For a cancellation it is the stores that fail. */
  lemma ProperIff(s: Settings, w: Plant, c: Command, saved: Report -> Saved)
    requires Consistent(w, saved) && Possible(w, c, saved)
    ensures Consistent(Apply(s, w, c), saved) <==> Proper(w, c)
  {
    if Proper(w, c) {
      StepConsistent(s, w, c, saved);
    } else {
      ImproperBreaks(s, w, c, saved);
    }
  }

  /** Over whole runs: every state along the way is consistent if and only if every command is proper. */
  lemma {:induction false} RunsConsistentIff(s: Settings, w: Plant, cs: seq<Command>, saved: Report -> Saved)
    requires Consistent(w, saved) && PossibleRun(s, w, cs, saved)
    ensures ConsistentRun(s, w, cs, saved) <==> ProperRun(s, w, cs)
  {
    if cs != [] {
      var front := cs[..|cs| - 1];
      RunsConsistentIff(s, w, front, saved);
      if ConsistentRun(s, w, front, saved) {
        ProperIff(s, After(s, w, front), cs[|cs| - 1], saved);
      }
    }
  }

  /** At rest: storing an old cancellation keeps the stores in agreement if and only if the row has not
      failed meanwhile. (Over any other ended task it replaces the status, and the stores still agree.) */
  lemma LateCancelAtRest(s: Settings, w: Plant, q: Payload, saved: Report -> Saved)
    requires Consistent(w, saved) && AtRest(w) && q in w.cancels
    ensures q.item in w.stores.jobs
    ensures Agrees(Apply(s, w, CancelStore(q)).stores, saved) <==> !w.stores.jobs[q.item].state.JobFailed?
  {
    RestAgrees(w, saved);
    var v := Apply(s, w, CancelStore(q));
    if !w.stores.jobs[q.item].state.JobFailed? {
      LateCancelIff(s, w, q, saved);
      RestAgrees(v, saved);
    }
  }

  /** A report that is to be retried queues the row before it stores the task. If the row is handed out
      and ends in between, the store says retrying for a row that no dequeue hands out: with more than one
      worker, a held item must not be delivered. */
  lemma RetryOvertaken(s: Settings, w: Plant, k: nat, turn: Turn, p: Payload, saved: Report -> Saved)
    requires k in w.hands && w.hands[k] == Writing(p.item, [PutTask(p)]) && p.status.Retrying?
    requires p.item in w.stores.jobs && (w.stores.jobs[p.item].state.JobDone? || w.stores.jobs[p.item].state.JobFailed?)
    ensures var v := After(s, w, Again(k, turn, 1)).stores;
            && !Agrees(v, saved) && p.item in v.tasks && v.tasks[p.item] == p
            && forall now, pick :: SqliteQueue.IsPick(v.jobs, now, pick) ==> pick != Some(p.item)
  {
    FirstOne(s, w, k, turn);
    var v := Proceed(s, w, k, turn).stores;
    assert v.tasks[p.item] == p && v.jobs == w.stores.jobs;
  }
}
