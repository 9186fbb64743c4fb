/** The tables store times as text and compare text. Wherever text order is time order, every such
    comparison decides as it would on times, and the models on times are models of the tables. The
    ISO texts the program writes are such texts. */
module StoredTimes {
  import opened Text
  import opened Items
  import opened Iso
  import opened SqliteQueue
  import opened RequestAuth

  /** Which text stands for which time. */
  type Written = (string, int) -> bool

  ghost predicate KeepsOrder(writes: Written) {
    forall a, m, b, n :: writes(a, m) && writes(b, n) ==> (Less(a, b) <==> m < n)
  }

  /** `text` is the ISO text of the instant that lies `time` microseconds after the start of year 1. */
  ghost predicate IsoText(text: string, time: int) {
    exists i :: Iso.Valid(i) && text == IsoFormat(i) && time == Micros(i)
  }

  lemma IsoKeepsOrder()
    ensures KeepsOrder(IsoText)
  {
    forall a, m, b, n | IsoText(a, m) && IsoText(b, n) ensures Less(a, b) <==> m < n {
      var i :| Iso.Valid(i) && a == IsoFormat(i) && m == Micros(i);
      var j :| Iso.Valid(j) && b == IsoFormat(j) && n == Micros(j);
      TextOrderIsTimeOrder(i, j);
    }
  }

  // ---------- the job table ----------

  datatype TextRow = TextRow(state: JobState, availableAt: string, createdAt: string)

  ghost predicate SameRow(writes: Written, r: TextRow, j: Job) {
    r.state == j.state && writes(r.availableAt, j.availableAt) && writes(r.createdAt, j.createdAt)
  }

  ghost predicate SameRows(writes: Written, table: map<Item, TextRow>, jobs: Jobs) {
    table.Keys == jobs.Keys && forall i :: i in table ==> SameRow(writes, table[i], jobs[i])
  }

  /** `state = 'queued' and available_at <= ?`, on text. */
  predicate TextEligible(table: map<Item, TextRow>, item: Item, now: string) {
    item in table && table[item].state == JobQueued && !Less(now, table[item].availableAt)
  }

  /** `order by created_at limit 1`, on text. */
  ghost predicate IsTextPick(table: map<Item, TextRow>, now: string, pick: Option<Item>) {
    match pick
    case None => forall i :: i in table ==> !TextEligible(table, i, now)
    case Some(p) =>
      && TextEligible(table, p, now)
      && forall i :: i in table && TextEligible(table, i, now) ==> !Less(table[i].createdAt, table[p].createdAt)
  }

  /** The statement on text may hand out exactly the items the statement on times may. */
  lemma TextPickIsPick(writes: Written, table: map<Item, TextRow>, jobs: Jobs, now: string, time: int,
      pick: Option<Item>)
    requires KeepsOrder(writes) && SameRows(writes, table, jobs) && writes(now, time)
    ensures IsTextPick(table, now, pick) <==> IsPick(jobs, time, pick)
  {
    forall i | i in table ensures TextEligible(table, i, now) <==> Eligible(jobs, i, time) {
      assert SameRow(writes, table[i], jobs[i]);
    }
    if pick.Some? && pick.value in table {
      var p := pick.value;
      forall i | i in table
        ensures !Less(table[i].createdAt, table[p].createdAt) <==> jobs[p].createdAt <= jobs[i].createdAt
      {
        assert SameRow(writes, table[i], jobs[i]) && SameRow(writes, table[p], jobs[p]);
      }
    }
  }

  // ---------- the nonce table ----------

  ghost predicate SameNonces(writes: Written, table: map<string, string>, times: NonceTable) {
    table.Keys == times.Keys && forall n :: n in table ==> writes(table[n], times[n])
  }

  /** `delete ... where expires_at < ?`, then insert unless the nonce is there, on text. */
  function RememberText(table: map<string, string>, nonce: string, time: string, expires: string):
      (bool, map<string, string>)
  {
    var kept := map n | n in table && !Less(table[n], time) :: table[n];
    if nonce in kept then (false, kept) else (true, kept[nonce := expires])
  }

  /** One call on the text table answers, and leaves behind, what the call on times does. */
  lemma TextNoncesAreTimes(writes: Written, table: map<string, string>, times: NonceTable,
                           nonce: string, text: string, time: int, expires: string, window: int)
    requires KeepsOrder(writes) && SameNonces(writes, table, times) && writes(text, time)
    requires writes(expires, time + window)
    ensures var (a, table') := RememberText(table, nonce, text, expires);
            var (b, times') := Remember(times, nonce, time, window);
            a == b && SameNonces(writes, table', times')
  {
    assert forall n :: n in table ==> (Less(table[n], text) <==> times[n] < time);
  }

  // ---------- the texts the program writes ----------

  /** Purging and picking on the stored ISO texts is purging and picking on times. */
  lemma IsoTablesAreTimes(table: map<Item, TextRow>, jobs: Jobs, now: string, time: int, pick: Option<Item>,
                          nonces: map<string, string>, times: NonceTable, nonce: string, expires: string, window: int)
    requires SameRows(IsoText, table, jobs) && SameNonces(IsoText, nonces, times)
    requires IsoText(now, time) && IsoText(expires, time + window)
    ensures IsTextPick(table, now, pick) <==> IsPick(jobs, time, pick)
    ensures var (a, nonces') := RememberText(nonces, nonce, now, expires);
            var (b, times') := Remember(times, nonce, time, window);
            a == b && SameNonces(IsoText, nonces', times')
  {
    IsoKeepsOrder();
    TextPickIsPick(IsoText, table, jobs, now, time, pick);
    TextNoncesAreTimes(IsoText, nonces, times, nonce, now, time, expires, window);
  }
}
