/** When a task created again while workers run keeps what was stored and enqueued for it. */
module Creations {
  import opened Text
  import opened Items
  import opened Execution
  import opened Gateway
  import opened Repositories
  import opened Delivery
  import opened Interleaving

  function ItemOf(h: Hand): Item {
    match h
    case Taken(item) => item
    case Loaded(t) => t.item
    case Marked(t) => t.item
    case Ran(t, _) => t.item
    case Writing(item, _) => item
  }

  /** All task writes are for this item, none of them as queued. */
  ghost predicate OwnWrites(item: Item, writes: seq<Write>) {
    forall j :: 0 <= j < |writes| && writes[j].PutTask? ==> writes[j].p.item == item && !writes[j].p.status.Queued?
  }

  /** What a worker holds past its load is marked running, and what it has to write is its own. */
  ghost predicate RegularHand(h: Hand) {
    match h
    case Taken(_) => true
    case Loaded(t) => t.status.Running?
    case Marked(t) => t.status.Running?
    case Ran(t, ran) => t.status.Running? && (ran.Ok? ==> Terminal(ran.value.status) && !ran.value.status.Cancelled?)
    case Writing(item, writes) => OwnWrites(item, writes)
  }

  ghost predicate Regular(w: Plant) {
    && (forall k :: k in w.hands ==> RegularHand(w.hands[k]))
    && (forall q :: q in w.cancels ==> q.status.Cancelled?)
    && (forall i :: i in w.stores.tasks ==> w.stores.tasks[i].item == i)
  }

  lemma WritesAreOwn(s: Settings, turn: Turn, mayRetry: bool, t: Payload, ran: Result<Report>)
    requires ran.Ok? ==> Terminal(ran.value.status) && !ran.value.status.Cancelled?
    ensures OwnWrites(t.item, WritesFor(s, turn, mayRetry, t, ran))
  {
  }

  lemma ProceedRegular(s: Settings, w: Plant, k: nat, turn: Turn)
    requires Regular(w) && k in w.hands
    ensures Regular(Proceed(s, w, k, turn))
  {
    assert RegularHand(w.hands[k]);
    match w.hands[k]
    case Taken(item) =>
    case Loaded(t) =>
    case Marked(t) =>
      if ExecuteTask(turn.env, t).Ok? {
        ExecutionStatus(turn.env, t);
      }
    case Ran(t, ran) => WritesAreOwn(s, turn, MayRetry(s, w.stores.jobs, t.item), t, ran);
    case Writing(item, writes) =>
      if writes != [] {
        assert forall j :: 0 <= j < |writes[1..]| ==> writes[1..][j] == writes[j + 1];
      }
  }

  lemma StepRegular(s: Settings, w: Plant, c: Command)
    requires Regular(w)
    ensures Regular(Apply(s, w, c))
  {
    if c.Advance? && c.worker in w.hands {
      ProceedRegular(s, w, c.worker, c.turn);
    }
  }

  // ---------- a creation that stays ----------

  /** The write replaces the stored task or ends the row; a result list or a retried row does neither. */
  predicate Overwrites(write: Write) {
    write.PutTask? || (write.PutRow? && !write.row.RowRetry?)
  }

  /** The worker has the item, and something left to do that overwrites the creation. */
  ghost predicate Threatens(h: Hand, item: Item) {
    ItemOf(h) == item && (h.Writing? ==> exists j :: 0 <= j < |h.writes| && Overwrites(h.writes[j]))
  }

  ghost predicate Unthreatened(w: Plant, item: Item) {
    && (forall k :: k in w.hands ==> !Threatens(w.hands[k], item))
    && (forall q :: q in w.cancels ==> q.item != item)
  }

  /** The created task is stored as it was, and its row is queued. */
  predicate Stands(w: Plant, p: Payload) {
    && p.item in w.stores.tasks && w.stores.tasks[p.item] == p
    && p.item in w.stores.jobs && w.stores.jobs[p.item].state.JobQueued?
  }

  /** The command delivers the item, creates it anew, or begins to cancel it. */
  predicate Claims(c: Command, item: Item) {
    || (c.Deliver? && c.item == item)
    || (c.StoreTask? && c.p.item == item)
    || (c.CancelLoad? && c.item == item)
  }

  lemma ProceedStays(s: Settings, w: Plant, k: nat, turn: Turn, p: Payload)
    requires Regular(w) && Stands(w, p) && Unthreatened(w, p.item) && k in w.hands
    ensures Stands(Proceed(s, w, k, turn), p) && Unthreatened(Proceed(s, w, k, turn), p.item)
  {
    assert RegularHand(w.hands[k]) && !Threatens(w.hands[k], p.item);
    match w.hands[k]
    case Writing(item, writes) =>
      if writes != [] {
        assert forall j :: 0 <= j < |writes[1..]| ==> writes[1..][j] == writes[j + 1];
        assert item == p.item ==> !Overwrites(writes[0]);
      }
    case _ =>
  }

  lemma StepStays(s: Settings, w: Plant, c: Command, p: Payload)
    requires Regular(w) && Stands(w, p) && Unthreatened(w, p.item) && !Claims(c, p.item)
    ensures Stands(Apply(s, w, c), p) && Unthreatened(Apply(s, w, c), p.item)
  {
    if c.Advance? && c.worker in w.hands {
      ProceedStays(s, w, c.worker, c.turn, p);
    }
  }

  /** A created task that no worker has anything left to do for, and that no pending cancellation names,
      stays stored, with a queued row, in every run until it is delivered, created anew or cancelled. */
  lemma {:induction false} CreationStays(s: Settings, w: Plant, p: Payload, cs: seq<Command>)
    requires Regular(w) && Stands(w, p) && Unthreatened(w, p.item)
    requires forall i :: 0 <= i < |cs| ==> !Claims(cs[i], p.item)
    ensures var after := After(s, w, cs); Regular(after) && Stands(after, p) && Unthreatened(after, p.item)
  {
    if cs != [] {
      var front := cs[..|cs| - 1];
      CreationStays(s, w, p, front);
      StepRegular(s, After(s, w, front), cs[|cs| - 1]);
      StepStays(s, After(s, w, front), cs[|cs| - 1], p);
    }
  }

  // ---------- a creation that is overwritten ----------

  lemma {:induction false} PutAllKeepsRow(w: World, item: Item, writes: seq<Write>)
    requires item in w.jobs
    ensures item in PutAll(w, item, writes).jobs
  {
    if writes != [] {
      PutAllKeepsRow(w, item, writes[..|writes| - 1]);
    }
  }

  predicate StandsIn(w: World, p: Payload) {
    p.item in w.tasks && w.tasks[p.item] == p && p.item in w.jobs && w.jobs[p.item].state.JobQueued?
  }

  lemma OverwritingPut(w: World, writes: seq<Write>, j: nat, p: Payload)
    requires j < |writes| && Overwrites(writes[j]) && OwnWrites(p.item, writes)
    requires p.status.Queued? && p.item in w.jobs
    ensures !StandsIn(PutAll(w, p.item, writes[..j + 1]), p)
  {
    PutAllKeepsRow(w, p.item, writes[..j]);
    assert writes[..j + 1][..j] == writes[..j];
  }

  lemma WriteEnds(s: Settings, w: Plant, k: nat, turn: Turn, p: Payload) returns (n: nat)
    requires k in w.hands && w.hands[k].Writing? && RegularHand(w.hands[k]) && Threatens(w.hands[k], p.item)
    requires p.status.Queued? && p.item in w.stores.jobs
    ensures !Stands(After(s, w, Again(k, turn, n)), p)
  {
    var writes := w.hands[k].writes;
    var j :| 0 <= j < |writes| && Overwrites(writes[j]);
    n := j + 1;
    WritesOneByOne(s, w, k, turn, n);
    OverwritingPut(w.stores, writes, j, p);
  }

  lemma FirstWriteOverwrites(s: Settings, turn: Turn, mayRetry: bool, t: Payload, ran: Result<Report>)
    ensures Threatens(Writing(t.item, WritesFor(s, turn, mayRetry, t, ran)), t.item)
  {
    var writes := WritesFor(s, turn, mayRetry, t, ran);
    assert Overwrites(writes[0]) || Overwrites(writes[1]);
  }

  lemma RanEnds(s: Settings, w: Plant, k: nat, turn: Turn, p: Payload) returns (n: nat)
    requires k in w.hands && w.hands[k].Ran? && RegularHand(w.hands[k]) && w.hands[k].t.item == p.item
    requires p.status.Queued? && p.item in w.stores.jobs
    ensures !Stands(After(s, w, Again(k, turn, n)), p)
  {
    var t, ran := w.hands[k].t, w.hands[k].ran;
    var mayRetry := MayRetry(s, w.stores.jobs, t.item);
    FirstWriteOverwrites(s, turn, mayRetry, t, ran);
    WritesAreOwn(s, turn, mayRetry, t, ran);
    var m := WriteEnds(s, Proceed(s, w, k, turn), k, turn, p);
    n := m + 1;
    OneThen(s, w, k, turn, m);
  }

  lemma MarkedBecomesRan(s: Settings, w: Plant, k: nat, turn: Turn) returns (v: Plant)
    requires k in w.hands && w.hands[k].Marked? && RegularHand(w.hands[k])
    ensures v == Apply(s, w, Advance(k, turn)) && v.stores == w.stores
    ensures k in v.hands && v.hands[k].Ran? && v.hands[k].t == w.hands[k].t && RegularHand(v.hands[k])
  {
    v := Proceed(s, w, k, turn);
    if ExecuteTask(turn.env, w.hands[k].t).Ok? {
      ExecutionStatus(turn.env, w.hands[k].t);
    }
  }

  lemma MarkedEnds(s: Settings, w: Plant, k: nat, turn: Turn, p: Payload) returns (n: nat)
    requires k in w.hands && w.hands[k].Marked? && RegularHand(w.hands[k]) && w.hands[k].t.item == p.item
    requires p.status.Queued? && p.item in w.stores.jobs
    ensures !Stands(After(s, w, Again(k, turn, n)), p)
  {
    var v := MarkedBecomesRan(s, w, k, turn);
    var m := RanEnds(s, v, k, turn, p);
    n := OneMoreEnds(s, w, v, k, turn, m, p);
  }

  lemma OneMoreEnds(s: Settings, w: Plant, v: Plant, k: nat, turn: Turn, m: nat, p: Payload) returns (n: nat)
    requires k in w.hands && v == Apply(s, w, Advance(k, turn)) && !Stands(After(s, v, Again(k, turn, m)), p)
    ensures !Stands(After(s, w, Again(k, turn, n)), p)
  {
    n := m + 1;
    OneThen(s, w, k, turn, m);
  }

  lemma TakenEnds(s: Settings, w: Plant, k: nat, turn: Turn, p: Payload)
    requires k in w.hands && w.hands[k] == Taken(p.item) && p.status.Queued? && Stands(w, p)
    ensures !Stands(After(s, w, Again(k, turn, 2)), p)
  {
    LoadAndMark(s, w, k, turn, p.item);
  }

  /** The condition is exact: a worker that has the item and something left to do for it, going on alone,
      replaces the stored task or ends its row. (One that had taken the item but not loaded it executes the
      task it was created as.) */
  lemma CreationIsOverwritten(s: Settings, w: Plant, k: nat, turn: Turn, p: Payload) returns (n: nat)
    requires Regular(w) && Stands(w, p) && p.status.Queued? && k in w.hands && Threatens(w.hands[k], p.item)
    ensures !Stands(After(s, w, Again(k, turn, n)), p)
  {
    assert RegularHand(w.hands[k]);
    match w.hands[k]
    case Taken(_) =>
      n := 2;
      TakenEnds(s, w, k, turn, p);
    case Loaded(t) =>
      n := 1;
      FirstOne(s, w, k, turn);
    case Marked(_) => n := MarkedEnds(s, w, k, turn, p);
    case Ran(_, _) => n := RanEnds(s, w, k, turn, p);
    case Writing(_, _) => n := WriteEnds(s, w, k, turn, p);
  }

  /** ... and a pending cancellation, once stored, replaces it as well. */
  lemma CreationIsCancelled(s: Settings, w: Plant, p: Payload, q: Payload)
    requires Regular(w) && p.status.Queued? && q in w.cancels && q.item == p.item
    ensures !Stands(Apply(s, w, CancelStore(q)), p)
  {
  }
}
