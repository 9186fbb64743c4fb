/** The retry budget of every row, one command at a time. */
module Budgets {
  import opened Text
  import opened Items
  import opened Execution
  import opened Gateway
  import SqliteQueue
  import opened Repositories
  import opened Delivery
  import opened Retries
  import opened Interleaving
  import opened Creations
  import opened Agreement

  predicate IsRetry(write: Write) { write.PutRow? && write.row.RowRetry? }

  predicate HasRetry(writes: seq<Write>) { exists j :: 0 <= j < |writes| && IsRetry(writes[j]) }

  ghost predicate OneRetry(writes: seq<Write>) {
    forall a, b :: 0 <= a < b < |writes| ==> !(IsRetry(writes[a]) && IsRetry(writes[b]))
  }

  /** A worker that has a retry left to write has it once, and the row still allows it. */
  ghost predicate BudgetHand(s: Settings, w: Plant, h: Hand) {
    h.Writing? ==> OneRetry(h.writes) && (HasRetry(h.writes) ==> MayRetry(s, w.stores.jobs, h.item))
  }

  ghost predicate InBudget(s: Settings, w: Plant) {
    WithinBudget(s, w.stores.jobs) && forall k :: k in w.hands ==> BudgetHand(s, w, w.hands[k])
  }

  /** The writes of an execution contain a retry only if one was allowed, and at most one. */
  lemma WritesRetryOnce(s: Settings, turn: Turn, mayRetry: bool, t: Payload, ran: Result<Report>)
    ensures OneRetry(WritesFor(s, turn, mayRetry, t, ran))
    ensures HasRetry(WritesFor(s, turn, mayRetry, t, ran)) ==> mayRetry
  {
  }

  lemma RestOfWrites(writes: seq<Write>)
    requires writes != [] && OneRetry(writes)
    ensures OneRetry(writes[1..]) && (HasRetry(writes[1..]) ==> HasRetry(writes))
    ensures IsRetry(writes[0]) ==> HasRetry(writes) && !HasRetry(writes[1..])
  {
    assert forall j :: 0 <= j < |writes[1..]| ==> writes[1..][j] == writes[j + 1];
  }

  /** A write for one item leaves the attempts of all others, and of its own unless it is a retry. */
  lemma PutAttempts(w: World, item: Item, write: Write, x: Item)
    ensures var was, now := SqliteQueue.AttemptsOf(w.jobs, x), SqliteQueue.AttemptsOf(Put(w, item, write).jobs, x);
            now <= was + 1 && (x != item || !IsRetry(write) ==> now == was)
    ensures x in Put(w, item, write).jobs <==> x in w.jobs
  {
  }

  lemma WriteInBudget(s: Settings, w: Plant, k: nat, turn: Turn)
    requires Apart(w) && InBudget(s, w) && k in w.hands && w.hands[k].Writing? && w.hands[k].writes != []
    ensures InBudget(s, Proceed(s, w, k, turn))
  {
    var v, item, writes := Proceed(s, w, k, turn), w.hands[k].item, w.hands[k].writes;
    assert BudgetHand(s, w, w.hands[k]);
    RestOfWrites(writes);
    forall x
      ensures x in v.stores.jobs <==> x in w.stores.jobs
      ensures var was, now := SqliteQueue.AttemptsOf(w.stores.jobs, x), SqliteQueue.AttemptsOf(v.stores.jobs, x);
              now <= was + 1 && (x != item || !IsRetry(writes[0]) ==> now == was)
    {
      PutAttempts(w.stores, item, writes[0], x);
    }
    forall x | x in v.stores.jobs ensures v.stores.jobs[x].attempts <= Larger(0, s.maxAttempts - 1) {
      assert v.stores.jobs[x].attempts == SqliteQueue.AttemptsOf(v.stores.jobs, x);
    }
    forall l | l in v.hands ensures BudgetHand(s, v, v.hands[l]) {
      if l != k {
        assert BudgetHand(s, w, w.hands[l]) && ItemOf(w.hands[l]) != item;
      }
    }
  }

  lemma ProceedInBudget(s: Settings, w: Plant, k: nat, turn: Turn)
    requires Apart(w) && InBudget(s, w) && k in w.hands
    ensures InBudget(s, Proceed(s, w, k, turn))
  {
    match w.hands[k]
    case Ran(t, ran) => WritesRetryOnce(s, turn, MayRetry(s, w.stores.jobs, t.item), t, ran);
    case Writing(item, writes) => if writes != [] { WriteInBudget(s, w, k, turn); }
    case _ =>
  }

  /** Every command keeps the budget while no item is in two hands. */
  lemma StepInBudget(s: Settings, w: Plant, c: Command)
    requires Apart(w) && InBudget(s, w)
    ensures InBudget(s, Apply(s, w, c))
  {
    if c.Advance? && c.worker in w.hands {
      ProceedInBudget(s, w, c.worker, c.turn);
    } else {
      SameAttempts(s, w, c);
    }
  }

  /** Other commands keep the attempts of every row; a new row starts with none. */
  lemma AttemptsStay(s: Settings, w: Plant, c: Command, x: Item)
    requires !(c.Advance? && c.worker in w.hands)
    ensures SqliteQueue.AttemptsOf(Apply(s, w, c).stores.jobs, x) == SqliteQueue.AttemptsOf(w.stores.jobs, x)
    ensures x in w.stores.jobs ==> x in Apply(s, w, c).stores.jobs
  {
  }

  lemma HandsStay(s: Settings, w: Plant, c: Command, k: nat)
    requires !(c.Advance? && c.worker in w.hands) && k in Apply(s, w, c).hands
    ensures var h := Apply(s, w, c).hands[k]; h.Taken? || (k in w.hands && h == w.hands[k])
  {
  }

  lemma SameAttempts(s: Settings, w: Plant, c: Command)
    requires InBudget(s, w) && !(c.Advance? && c.worker in w.hands)
    ensures InBudget(s, Apply(s, w, c))
  {
    var v := Apply(s, w, c);
    forall x | x in v.stores.jobs ensures v.stores.jobs[x].attempts <= Larger(0, s.maxAttempts - 1) {
      AttemptsStay(s, w, c, x);
    }
    forall k | k in v.hands ensures BudgetHand(s, v, v.hands[k]) {
      HandsStay(s, w, c, k);
      if !v.hands[k].Taken? {
        SameHand(s, w, c, k);
      }
    }
  }

  lemma SameHand(s: Settings, w: Plant, c: Command, k: nat)
    requires !(c.Advance? && c.worker in w.hands) && k in w.hands && BudgetHand(s, w, w.hands[k])
    ensures BudgetHand(s, Apply(s, w, c), w.hands[k])
  {
    AttemptsStay(s, w, c, ItemOf(w.hands[k]));
  }

  /** In every run of proper commands, with any number of workers, the attempts of every row stay at most
      one below the maximum. */
  lemma {:induction false} CommandsStayWithinBudget(s: Settings, w: Plant, cs: seq<Command>, saved: Report -> Saved)
    requires Consistent(w, saved) && InBudget(s, w) && PossibleRun(s, w, cs, saved) && ProperRun(s, w, cs)
    ensures InBudget(s, After(s, w, cs)) && WithinBudget(s, After(s, w, cs).stores.jobs)
  {
    if cs != [] {
      var front := cs[..|cs| - 1];
      CommandsStayWithinBudget(s, w, front, saved);
      CommandsConsistent(s, w, front, saved);
      StepInBudget(s, After(s, w, front), cs[|cs| - 1]);
    }
  }

  // ---------- one item in two hands ----------

  predicate Fails(turn: Turn, t: Payload) {
    var ran := ExecuteTask(turn.env, t);
    ran.Raised? || Recoverable(ran.value)
  }

  /** A retry and a task are left to write, in either order. */
  predicate WillRetry(h: Hand, item: Item) {
    && h.Writing? && h.item == item && |h.writes| == 2
    && ((IsRetry(h.writes[0]) && h.writes[1].PutTask?) || (h.writes[0].PutTask? && IsRetry(h.writes[1])))
  }

  /** A worker whose execution fails, with an attempt left, comes to the point where it writes the retry. */
  lemma ComesToRetry(s: Settings, w: Plant, k: nat, turn: Turn, item: Item)
    requires k in w.hands && w.hands[k] == Taken(item) && MayRetry(s, w.stores.jobs, item)
    requires item in w.stores.tasks && w.stores.tasks[item].item == item && !w.stores.tasks[item].status.Cancelled?
    requires Fails(turn, w.stores.tasks[item])
    ensures var v, t := After(s, w, Again(k, turn, 4)), w.stores.tasks[item].(status := Running);
            && v.stores == w.stores.(tasks := w.stores.tasks[item := t])
            && k in v.hands && WillRetry(v.hands[k], item) && v.hands == w.hands[k := v.hands[k]]
  {
    UpToWrites(s, w, k, turn, item);
    ExecutionIgnoresStatus(turn.env, w.stores.tasks[item], Running);
  }

  lemma RetrySpends(s: Settings, w: Plant, k: nat, turn: Turn, item: Item)
    requires k in w.hands && WillRetry(w.hands[k], item) && item in w.stores.jobs
    ensures var v := After(s, w, Again(k, turn, 2));
            && item in v.stores.jobs && v.stores.jobs[item].attempts == w.stores.jobs[item].attempts + 1
            && v.hands == w.hands[k := Writing(item, [])]
  {
    var writes := w.hands[k].writes;
    WritesOneByOne(s, w, k, turn, 2);
    assert writes[..2] == [writes[0], writes[1]] && writes[2..] == [];
    PutTwo(w.stores, item, writes[0], writes[1]);
  }

  lemma BothComeToRetry(s: Settings, w: Plant, k: nat, l: nat, item: Item, turn: Turn) returns (v: Plant)
    requires k != l && k in w.hands && l in w.hands && w.hands[k] == Taken(item) == w.hands[l]
    requires item in w.stores.tasks && w.stores.tasks[item].item == item && !w.stores.tasks[item].status.Cancelled?
    requires Fails(turn, w.stores.tasks[item]) && MayRetry(s, w.stores.jobs, item)
    ensures v == After(s, w, Again(k, turn, 4) + Again(l, turn, 4)) && v.stores.jobs == w.stores.jobs
    ensures k in v.hands && l in v.hands && WillRetry(v.hands[k], item) && WillRetry(v.hands[l], item)
  {
    ComesToRetry(s, w, k, turn, item);
    v := After(s, w, Again(k, turn, 4));
    ExecutionIgnoresStatus(turn.env, w.stores.tasks[item], Running);
    ComesToRetry(s, v, l, turn, item);
    v := After(s, v, Again(l, turn, 4));
    AfterBoth(s, w, Again(k, turn, 4), Again(l, turn, 4));
  }

  lemma BothSpend(s: Settings, w: Plant, k: nat, l: nat, item: Item, turn: Turn) returns (v: Plant)
    requires k != l && k in w.hands && l in w.hands && WillRetry(w.hands[k], item) && WillRetry(w.hands[l], item)
    requires item in w.stores.jobs
    ensures v == After(s, w, Again(k, turn, 2) + Again(l, turn, 2)) && item in v.stores.jobs
    ensures v.stores.jobs[item].attempts == w.stores.jobs[item].attempts + 2
  {
    RetrySpends(s, w, k, turn, item);
    v := After(s, w, Again(k, turn, 2));
    RetrySpends(s, v, l, turn, item);
    v := After(s, v, Again(l, turn, 2));
    AfterBoth(s, w, Again(k, turn, 2), Again(l, turn, 2));
  }

  /** With one item in two hands the budget fails: if its execution fails and one attempt is left, both
      workers find it allowed, and both write it. */
  lemma TwoHandsOverspend(s: Settings, w: Plant, k: nat, l: nat, item: Item, turn: Turn)
    requires k != l && k in w.hands && l in w.hands && w.hands[k] == Taken(item) == w.hands[l]
    requires item in w.stores.tasks && w.stores.tasks[item].item == item && !w.stores.tasks[item].status.Cancelled?
    requires Fails(turn, w.stores.tasks[item])
    requires item in w.stores.jobs && w.stores.jobs[item].attempts == s.maxAttempts - 2
    ensures var up, down := Again(k, turn, 4) + Again(l, turn, 4), Again(k, turn, 2) + Again(l, turn, 2);
            !WithinBudget(s, After(s, w, up + down).stores.jobs)
  {
    var up, down := Again(k, turn, 4) + Again(l, turn, 4), Again(k, turn, 2) + Again(l, turn, 2);
    var ready := BothComeToRetry(s, w, k, l, item, turn);
    var end := BothSpend(s, ready, k, l, item, turn);
    AfterBoth(s, w, up, down);
    assert end.stores.jobs[item].attempts == s.maxAttempts;
  }
}
