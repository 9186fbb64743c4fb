/** Signed requests and the nonce table that keeps them from being accepted twice.
    Times are integers (instants); digests and MACs are function parameters. */
module RequestAuth {
  import opened Text

  datatype Request = Request(verb: string, path: string, timestamp: string, nonce: string, body: string,
      signature: string)

  datatype Config = Config(
    secret: string,
    skew: int,
    window: int,
    parse: string -> Option<int>,
    digest: string -> string,
    mac: (string, string) -> string)

  datatype Outcome = Accepted | InvalidTimestamp | TimestampOutOfWindow | InvalidSignature | ReplayDetected

  /** nonce -> expiry */
  type NonceTable = map<string, int>

  function UpperChar(c: char): char { if 'a' <= c <= 'z' then (c as int - 32) as char else c }

  function Upper(s: string): string {
    seq(|s|, i requires 0 <= i < |s| => UpperChar(s[i]))
  }

  function CanonicalRequest(cfg: Config, r: Request): string {
    Upper(r.verb) + "\n" + r.path + "\n" + r.timestamp + "\n" + r.nonce + "\n" + cfg.digest(r.body)
  }

  function BuildSignature(cfg: Config, r: Request): string {
    cfg.mac(cfg.secret, CanonicalRequest(cfg, r))
  }

  // ---------- the nonce table ----------

  function Purge(table: NonceTable, time: int): NonceTable {
    map n | n in table && !(table[n] < time) :: table[n]
  }

  /** Purge entries that expired before the request's own time, then insert the nonce if absent. */
  function Remember(table: NonceTable, nonce: string, time: int, window: int): (bool, NonceTable) {
    var kept := Purge(table, time);
    if nonce in kept then (false, kept) else (true, kept[nonce := time + window])
  }

  class SqliteNonceRepository {
    var nonces: NonceTable
    const window: int

    constructor (window: int)
      ensures nonces == map[] && this.window == window
    {
      nonces := map[];
      this.window := window;
    }

    method RememberOnce(nonce: string, time: int) returns (isNew: bool)
      modifies this
      ensures (isNew, nonces) == Remember(old(nonces), nonce, time, window)
      ensures isNew <==> nonce !in old(nonces) || old(nonces)[nonce] < time
      ensures forall n :: n in nonces <==> n == nonce || (n in old(nonces) && time <= old(nonces)[n])
      ensures forall n :: n in nonces ==> nonces[n] == if n == nonce && isNew then time + window else old(nonces)[n]
    {
      nonces := map n | n in nonces && !(nonces[n] < time) :: nonces[n];
      if nonce in nonces {
        return false;
      }
      nonces := nonces[nonce := time + window];
      return true;
    }
  }

  class InMemoryNonceStore {
    var seen: set<string>

    constructor ()
      ensures seen == {}
    {
      seen := {};
    }

    method RememberOnce(nonce: string, time: int) returns (isNew: bool)
      modifies this
      ensures isNew <==> nonce !in old(seen)
      ensures seen == old(seen) + {nonce}
    {
      if nonce in seen {
        return false;
      }
      seen := seen + {nonce};
      return true;
    }
  }

  // ---------- verification of one request ----------

  predicate InSkew(now: int, time: int, skew: int) { -skew <= now - time <= skew }

  /** Passes every check before the nonce table. */
  predicate Authentic(cfg: Config, now: int, r: Request) {
    && cfg.parse(r.timestamp).Some?
    && InSkew(now, cfg.parse(r.timestamp).value, cfg.skew)
    && r.signature == BuildSignature(cfg, r)
  }

  function Verify(cfg: Config, table: NonceTable, now: int, r: Request): (Outcome, NonceTable) {
    if cfg.parse(r.timestamp).None? then (InvalidTimestamp, table)
    else
      var time := cfg.parse(r.timestamp).value;
      if !InSkew(now, time, cfg.skew) then (TimestampOutOfWindow, table)
      else if r.signature != BuildSignature(cfg, r) then (InvalidSignature, table)
      else
        var (isNew, table') := Remember(table, r.nonce, time, cfg.window);
        (if isNew then Accepted else ReplayDetected, table')
  }

  /** The first check before the nonce store that refuses the request. */
  function Refused(cfg: Config, now: int, r: Request): Option<Outcome> {
    if cfg.parse(r.timestamp).None? then Some(InvalidTimestamp)
    else if !InSkew(now, cfg.parse(r.timestamp).value, cfg.skew) then Some(TimestampOutOfWindow)
    else if r.signature != BuildSignature(cfg, r) then Some(InvalidSignature)
    else None
  }

  /** Stamped within the skew, and signed with the secret over verb, path, timestamp, nonce and body digest,
      each on a line of its own. */
  predicate Genuine(cfg: Config, now: int, r: Request) {
    && cfg.parse(r.timestamp).Some?
    && now - cfg.parse(r.timestamp).value <= cfg.skew && cfg.parse(r.timestamp).value - now <= cfg.skew
    && r.signature == cfg.mac(cfg.secret,
         Upper(r.verb) + "\n" + r.path + "\n" + r.timestamp + "\n" + r.nonce + "\n" + cfg.digest(r.body))
  }

  /** Every outcome against the table, and the table left behind: only a genuine request touches it. */
  lemma OutcomesAre(cfg: Config, table: NonceTable, now: int, r: Request)
    ensures var (outcome, after) := Verify(cfg, table, now, r);
            && (outcome == InvalidTimestamp <==> cfg.parse(r.timestamp).None?)
            && (outcome in {Accepted, ReplayDetected} <==> Genuine(cfg, now, r))
            && (outcome == TimestampOutOfWindow ==>
                  now - cfg.parse(r.timestamp).value > cfg.skew || cfg.parse(r.timestamp).value - now > cfg.skew)
            && (Genuine(cfg, now, r) ==>
                  var time := cfg.parse(r.timestamp).value;
                  && (outcome == Accepted <==> r.nonce !in table || table[r.nonce] < time)
                  && (forall n :: n in after <==> n == r.nonce || (n in table && time <= table[n]))
                  && (forall n :: n in after && n != r.nonce ==> after[n] == table[n])
                  && (outcome == Accepted ==> after[r.nonce] == time + cfg.window))
            && (!Genuine(cfg, now, r) ==> after == table)
  {
  }

  /** The MAC has no collisions in key and text together. */
  ghost predicate KeysSeparate(mac: (string, string) -> string) {
    forall s, x, t, y :: mac(s, x) == mac(t, y) ==> s == t && x == y
  }

  /** Under different secrets no two requests, alike or not, are genuine with one signature; so what is signed
      with another secret is refused. */
  lemma SecretsSeparate(a: Config, b: Config, now: int, then': int, r: Request, q: Request)
    requires a.mac == b.mac && KeysSeparate(a.mac) && a.secret != b.secret
    ensures Genuine(a, now, r) && Genuine(b, then', q) ==> r.signature != q.signature
    ensures forall table :: Genuine(a, now, r) ==>
              Verify(b, table, then', r).0 in {InvalidTimestamp, TimestampOutOfWindow, InvalidSignature}
  {
    forall table | Genuine(a, now, r)
      ensures Verify(b, table, then', r).0 in {InvalidTimestamp, TimestampOutOfWindow, InvalidSignature}
    {
      OutcomesAre(b, table, then', r);
    }
  }

  /** Upper-casing touches the letters only, and forgets the case. */
  lemma UpperLaws(s: string)
    ensures |Upper(s)| == |s| && forall i :: 0 <= i < |s| ==> !('a' <= Upper(s)[i] <= 'z')
    ensures forall i :: 0 <= i < |s| && !('a' <= s[i] <= 'z') ==> Upper(s)[i] == s[i]
    ensures Upper(Lower(s)) == Upper(s)
  {
  }

  /** The optional nonce store: none, the table, or the in-memory set. */
  datatype NonceStore = NoStore | InTable(table: SqliteNonceRepository) | InMemory(memory: InMemoryNonceStore)

  function Objects(store: NonceStore): set<object> {
    match store
    case NoStore => {}
    case InTable(table) => {table}
    case InMemory(memory) => {memory}
  }

  /** The in-memory store forgets nothing. */
  function VerifyInMemory(cfg: Config, seen: set<string>, now: int, r: Request): (Outcome, set<string>) {
    match Refused(cfg, now, r)
    case Some(outcome) => (outcome, seen)
    case None => (if r.nonce in seen then ReplayDetected else Accepted, seen + {r.nonce})
  }

  method VerifySignature(cfg: Config, store: NonceStore, now: int, r: Request) returns (outcome: Outcome)
    requires store.InTable? ==> store.table.window == cfg.window
    modifies Objects(store)
    ensures store.NoStore? ==> outcome == match Refused(cfg, now, r) case Some(refusal) => refusal case None => Accepted
    ensures store.InTable? ==> (outcome, store.table.nonces) == Verify(cfg, old(store.table.nonces), now, r)
    ensures outcome in {Accepted, ReplayDetected} <==> Genuine(cfg, now, r)
    ensures outcome == InvalidTimestamp <==> cfg.parse(r.timestamp).None?
    ensures store.NoStore? ==> outcome != ReplayDetected
    ensures store.InTable? && Genuine(cfg, now, r) ==>
              var before, time := old(store.table.nonces), cfg.parse(r.timestamp).value;
              outcome == Accepted <==> r.nonce !in before || before[r.nonce] < time
    ensures store.InMemory? && Genuine(cfg, now, r) ==> (outcome == Accepted <==> r.nonce !in old(store.memory.seen))
    ensures store.InMemory? ==> (outcome, store.memory.seen) == VerifyInMemory(cfg, old(store.memory.seen), now, r)
  {
    var parsed := cfg.parse(r.timestamp);
    if parsed.None? {
      return InvalidTimestamp;
    }
    var gap := if now < parsed.value then parsed.value - now else now - parsed.value;
    if gap > cfg.skew {
      return TimestampOutOfWindow;
    }
    var expected := BuildSignature(cfg, r);
    if expected != r.signature {
      return InvalidSignature;
    }
    var isNew := true;
    match store {
      case NoStore =>
      case InTable(table) => isNew := table.RememberOnce(r.nonce, parsed.value);
      case InMemory(memory) => isNew := memory.RememberOnce(r.nonce, parsed.value);
    }
    return if isNew then Accepted else ReplayDetected;
  }

  // ---------- runs ----------

  datatype Event = Event(now: int, request: Request)

  function TableAfter(cfg: Config, table: NonceTable, events: seq<Event>): NonceTable {
    if events == [] then table
    else
      var last := events[|events| - 1];
      Verify(cfg, TableAfter(cfg, table, events[..|events| - 1]), last.now, last.request).1
  }

  function OutcomeAt(cfg: Config, table: NonceTable, events: seq<Event>, i: nat): Outcome
    requires i < |events|
  {
    Verify(cfg, TableAfter(cfg, table, events[..i]), events[i].now, events[i].request).0
  }

  predicate ClockNeverGoesBack(events: seq<Event>) {
    forall i, j :: 0 <= i < j < |events| ==> events[i].now <= events[j].now
  }

  /** No authentic request is stamped more than `d` ahead of the clock. */
  predicate LeadAtMost(cfg: Config, d: int, events: seq<Event>) {
    forall i :: 0 <= i < |events| && Authentic(cfg, events[i].now, events[i].request) ==>
      cfg.parse(events[i].request.timestamp).value <= events[i].now + d
  }

  /** The same nonce at the same request time. */
  predicate SameStamp(cfg: Config, a: Request, b: Request) {
    a.nonce == b.nonce && cfg.parse(a.timestamp) == cfg.parse(b.timestamp)
  }

  ghost predicate NeverAcceptedTwice(cfg: Config, table: NonceTable, events: seq<Event>) {
    forall i, j :: 0 <= i < j < |events| && SameStamp(cfg, events[i].request, events[j].request) ==>
      !(OutcomeAt(cfg, table, events, i) == Accepted && OutcomeAt(cfg, table, events, j) == Accepted)
  }

  /** An accepted nonce survives every purge up to any moment at which it could still be replayed. */
  lemma {:induction false} NonceStays(cfg: Config, d: int, table: NonceTable, events: seq<Event>, i: nat, k: nat,
      now: int)
    requires ClockNeverGoesBack(events) && LeadAtMost(cfg, d, events) && cfg.window >= cfg.skew + d
    requires i < k <= |events| && OutcomeAt(cfg, table, events, i) == Accepted
    requires now <= cfg.parse(events[i].request.timestamp).value + cfg.skew
    requires forall m :: i < m < k ==> events[m].now <= now
    ensures var r := events[i].request;
            var t := TableAfter(cfg, table, events[..k]);
            r.nonce in t && t[r.nonce] == cfg.parse(r.timestamp).value + cfg.window
    decreases k
  {
    assert events[..k][..k - 1] == events[..k - 1];
    if k > i + 1 {
      NonceStays(cfg, d, table, events, i, k - 1, now);
      if Authentic(cfg, events[k - 1].now, events[k - 1].request) {
        assert cfg.parse(events[k - 1].request.timestamp).value <= events[k - 1].now + d;
      }
    }
  }

  /** Replay safety over whole runs, from any table, however other requests purge it. */
  lemma NoReplay(cfg: Config, d: int, table: NonceTable, events: seq<Event>)
    requires ClockNeverGoesBack(events) && LeadAtMost(cfg, d, events) && cfg.window >= cfg.skew + d
    ensures NeverAcceptedTwice(cfg, table, events)
  {
    forall i, j | 0 <= i < j < |events| && SameStamp(cfg, events[i].request, events[j].request)
      ensures !(OutcomeAt(cfg, table, events, i) == Accepted && OutcomeAt(cfg, table, events, j) == Accepted)
    {
      if OutcomeAt(cfg, table, events, i) == Accepted && OutcomeAt(cfg, table, events, j) == Accepted {
        NonceStays(cfg, d, table, events, i, j, events[j].now);
      }
    }
  }

  /** A window of twice the skew needs no assumption about client clocks. */
  lemma TwiceTheSkewSuffices(cfg: Config, table: NonceTable, events: seq<Event>)
    requires ClockNeverGoesBack(events) && cfg.window >= 2 * cfg.skew
    ensures NeverAcceptedTwice(cfg, table, events)
  {
    NoReplay(cfg, cfg.skew, table, events);
  }

  function Signed(cfg: Config, timestamp: string, nonce: string): (r: Request)
    ensures r.signature == BuildSignature(cfg, r) && r.timestamp == timestamp && r.nonce == nonce
  {
    var r := Request("GET", "/", timestamp, nonce, "", "");
    r.(signature := BuildSignature(cfg, r))
  }

  /** Three requests that get one accepted twice when the window is any shorter: the second one,
      stamped `d` ahead, purges the first one's nonce while the first can still be replayed. */
  function ReplayRun(cfg: Config, d: nat, early: string, late: string): seq<Event>
    requires cfg.parse(early).Some?
  {
    var time := cfg.parse(early).value;
    [Event(time, Signed(cfg, early, "a")),
     Event(time + cfg.skew, Signed(cfg, late, "b")),
     Event(time + cfg.skew, Signed(cfg, early, "a"))]
  }

  lemma ShortWindowReplays(cfg: Config, d: nat, early: string, late: string)
    requires d <= cfg.skew && cfg.window < cfg.skew + d
    requires cfg.parse(early).Some? && cfg.parse(late) == Some(cfg.parse(early).value + cfg.skew + d)
    ensures var events := ReplayRun(cfg, d, early, late);
            && ClockNeverGoesBack(events) && LeadAtMost(cfg, d, events)
            && !NeverAcceptedTwice(cfg, map[], events)
  {
    var time := cfg.parse(early).value;
    var events := ReplayRun(cfg, d, early, late);
    var a, b := events[0].request, events[1].request;
    assert a.nonce != b.nonce;
    assert events[..0] == [] && events[..1][..0] == [] && events[..2][..1] == events[..1];
    var t1 := TableAfter(cfg, map[], events[..1]);
    var none: NonceTable := map[];
    assert TableAfter(cfg, none, events[..0]) == none;
    assert Purge(none, time) == none;
    assert t1 == map["a" := time + cfg.window];
    var t2 := TableAfter(cfg, map[], events[..2]);
    assert t2 == Remember(t1, "b", time + cfg.skew + d, cfg.window).1;
    assert "a" !in t2;
    assert OutcomeAt(cfg, map[], events, 0) == Accepted;
    assert OutcomeAt(cfg, map[], events, 2) == Accepted;
    assert SameStamp(cfg, events[0].request, events[2].request);
  }

  /** The exact bound: for clients that may lead the clock by up to `d`, no run accepts a request
      twice if and only if the window is at least the skew plus `d`. */
  lemma WindowIsExact(cfg: Config, d: nat, early: string, late: string)
    requires d <= cfg.skew
    requires cfg.parse(early).Some? && cfg.parse(late) == Some(cfg.parse(early).value + cfg.skew + d)
    ensures cfg.window >= cfg.skew + d <==>
            (forall table, events | ClockNeverGoesBack(events) && LeadAtMost(cfg, d, events) ::
               NeverAcceptedTwice(cfg, table, events))
  {
    if cfg.window >= cfg.skew + d {
      forall table, events | ClockNeverGoesBack(events) && LeadAtMost(cfg, d, events)
        ensures NeverAcceptedTwice(cfg, table, events)
      {
        NoReplay(cfg, d, table, events);
      }
    } else {
      ShortWindowReplays(cfg, d, early, late);
      var events := ReplayRun(cfg, d, early, late);
      assert !NeverAcceptedTwice(cfg, map[], events);
    }
  }

  function SeenAfter(cfg: Config, seen: set<string>, events: seq<Event>): set<string> {
    if events == [] then seen
    else
      var last := events[|events| - 1];
      VerifyInMemory(cfg, SeenAfter(cfg, seen, events[..|events| - 1]), last.now, last.request).1
  }

  lemma {:induction false} SeenStays(cfg: Config, seen: set<string>, events: seq<Event>, i: nat, k: nat)
    requires i < k <= |events| && Refused(cfg, events[i].now, events[i].request).None?
    ensures events[i].request.nonce in SeenAfter(cfg, seen, events[..k])
    decreases k
  {
    assert events[..k][..k - 1] == events[..k - 1];
    if k > i + 1 {
      SeenStays(cfg, seen, events, i, k - 1);
    }
  }

  /** With the in-memory store no nonce is accepted twice, whatever the clocks and the times. */
  lemma MemoryNeverAcceptsTwice(cfg: Config, seen: set<string>, events: seq<Event>, i: nat, j: nat)
    requires i < j < |events| && events[i].request.nonce == events[j].request.nonce
    requires VerifyInMemory(cfg, SeenAfter(cfg, seen, events[..i]), events[i].now, events[i].request).0 == Accepted
    ensures VerifyInMemory(cfg, SeenAfter(cfg, seen, events[..j]), events[j].now, events[j].request).0 != Accepted
  {
    SeenStays(cfg, seen, events, i, j);
  }

  // ---------- what a signature covers ----------

  predicate OneLine(s: string) { forall i :: 0 <= i < |s| ==> s[i] != '\n' }

  lemma FirstLine(a: string, b: string, c: string, d: string)
    requires OneLine(a) && OneLine(c) && a + "\n" + b == c + "\n" + d
    ensures a == c && b == d
  {
    var s, t := a + "\n" + b, c + "\n" + d;
    assert s[|a|] == '\n' && t[|c|] == '\n';
    assert a == s[..|a|] && c == t[..|c|];
    assert b == s[|a| + 1..] && d == t[|c| + 1..];
  }

  function Lines(s: string): nat { if s == "" then 0 else Lines(s[1..]) + if s[0] == '\n' then 1 else 0 }

  lemma {:induction false} LinesOfBoth(a: string, b: string)
    ensures Lines(a + b) == Lines(a) + Lines(b)
  {
    if a == "" {
      assert a + b == b;
    } else {
      assert (a + b)[1..] == a[1..] + b;
      LinesOfBoth(a[1..], b);
    }
  }

  lemma {:induction false} NoLines(s: string)
    ensures Lines(s) == 0 <==> OneLine(s)
  {
    if s != "" {
      NoLines(s[1..]);
      assert s == [s[0]] + s[1..];
      assert forall i :: 0 <= i < |s| - 1 ==> s[1..][i] == s[i + 1];
      if OneLine(s[1..]) && s[0] != '\n' {
        forall i | 0 <= i < |s| ensures s[i] != '\n' {
          assert i > 0 ==> s[1..][i - 1] == s[i];
        }
      }
    }
  }

  /** Joining by a line break adds one. */
  lemma LinesOfJoined(a: string, b: string)
    ensures Lines(a + "\n" + b) == Lines(a) + 1 + Lines(b)
  {
    LinesOfBoth(a + "\n", b);
    LinesOfBoth(a, "\n");
    assert "\n"[1..] == "" && Lines("\n") == 1;
  }

  lemma LinesOfSigned(cfg: Config, r: Request)
    ensures Lines(CanonicalRequest(cfg, r)) ==
              4 + Lines(Upper(r.verb)) + Lines(r.path) + Lines(r.timestamp) + Lines(r.nonce) + Lines(cfg.digest(r.body))
  {
    Canonical(cfg, r);
    LinesOfJoined(Upper(r.verb), Rest1(cfg, r));
    LinesOfJoined(r.path, Rest2(cfg, r));
    LinesOfJoined(r.timestamp, Rest3(cfg, r));
    LinesOfJoined(r.nonce, cfg.digest(r.body));
  }

  ghost predicate CollisionFree(cfg: Config) {
    && (forall s, x, y :: cfg.mac(s, x) == cfg.mac(s, y) ==> x == y)
    && (forall x, y :: cfg.digest(x) == cfg.digest(y) ==> x == y)
    && (forall x :: OneLine(cfg.digest(x)))
  }

  predicate FieldsOneLine(r: Request) {
    OneLine(Upper(r.verb)) && OneLine(r.path) && OneLine(r.timestamp) && OneLine(r.nonce)
  }

  /** The same verb up to case, path, timestamp, nonce and body. */
  predicate SameSigned(r: Request, q: Request) {
    Upper(r.verb) == Upper(q.verb) && r.path == q.path && r.timestamp == q.timestamp && r.nonce == q.nonce
        && r.body == q.body
  }

  /** With collision-free digest and MAC and digests of one line, a request that is signed like one whose
      fields have one line each is that request. */
  lemma SignatureCoversRequest(cfg: Config, r: Request, q: Request)
    requires CollisionFree(cfg) && FieldsOneLine(r) && BuildSignature(cfg, r) == BuildSignature(cfg, q)
    ensures SameSigned(r, q)
  {
    LinesOfSigned(cfg, r);
    LinesOfSigned(cfg, q);
    LinesOfFields(cfg, r);
    LinesOfFields(cfg, q);
    Canonical(cfg, r);
    Canonical(cfg, q);
    FirstLine(Upper(r.verb), Rest1(cfg, r), Upper(q.verb), Rest1(cfg, q));
    FirstLine(r.path, Rest2(cfg, r), q.path, Rest2(cfg, q));
    FirstLine(r.timestamp, Rest3(cfg, r), q.timestamp, Rest3(cfg, q));
    FirstLine(r.nonce, cfg.digest(r.body), q.nonce, cfg.digest(q.body));
  }

  lemma LinesOfFields(cfg: Config, r: Request)
    requires CollisionFree(cfg)
    ensures var lines := Lines(Upper(r.verb)) + Lines(r.path) + Lines(r.timestamp) + Lines(r.nonce);
            lines + Lines(cfg.digest(r.body)) == 0 <==> FieldsOneLine(r)
  {
    NoLines(Upper(r.verb));
    NoLines(r.path);
    NoLines(r.timestamp);
    NoLines(r.nonce);
    NoLines(cfg.digest(r.body));
  }

  /** The request with a line break of one field moved to the join. */
  function Shifted(r: Request): (q: Request)
    requires !FieldsOneLine(r)
    ensures !SameSigned(r, q)
  {
    if !OneLine(Upper(r.verb)) then
      var i := BreakIn(Upper(r.verb));
      r.(verb := r.verb[..i], path := Upper(r.verb)[i + 1..], timestamp := r.path,
          nonce := r.timestamp + "\n" + r.nonce)
    else if !OneLine(r.path) then
      var i := BreakIn(r.path);
      r.(path := r.path[..i], timestamp := r.path[i + 1..], nonce := r.timestamp + "\n" + r.nonce)
    else if !OneLine(r.timestamp) then
      var i := BreakIn(r.timestamp);
      r.(timestamp := r.timestamp[..i], nonce := r.timestamp[i + 1..] + "\n" + r.nonce)
    else
      var i := BreakIn(r.nonce);
      r.(path := r.path + "\n" + r.timestamp, timestamp := r.nonce[..i], nonce := r.nonce[i + 1..])
  }

  function BreakIn(s: string): (i: nat)
    requires !OneLine(s)
    ensures i < |s| && s[i] == '\n'
  {
    if s[0] == '\n' then 0
    else
      BreakLater(s);
      1 + BreakIn(s[1..])
  }

  lemma BreakLater(s: string)
    requires !OneLine(s) && s[0] != '\n'
    ensures !OneLine(s[1..])
  {
    var i :| 0 <= i < |s| && s[i] == '\n';
    assert s[1..][i - 1] == '\n';
  }

  function Joined(a: string, b: string): string { a + "\n" + b }

  lemma JoinedAt(s: string, i: nat)
    requires i < |s| && s[i] == '\n'
    ensures s == Joined(s[..i], s[i + 1..])
  {
  }

  lemma JoinedAssociative(a: string, b: string, c: string)
    ensures Joined(Joined(a, b), c) == Joined(a, Joined(b, c))
  {
  }

  lemma CanonicalJoined(cfg: Config, r: Request)
    ensures CanonicalRequest(cfg, r) ==
              Joined(Upper(r.verb), Joined(r.path, Joined(r.timestamp, Joined(r.nonce, cfg.digest(r.body)))))
  {
    Canonical(cfg, r);
  }

  lemma ShiftedSignsAlike(cfg: Config, r: Request)
    requires !FieldsOneLine(r)
    ensures CanonicalRequest(cfg, Shifted(r)) == CanonicalRequest(cfg, r)
  {
    var e := cfg.digest(r.body);
    CanonicalJoined(cfg, r);
    CanonicalJoined(cfg, Shifted(r));
    if !OneLine(Upper(r.verb)) {
      ShiftedVerb(cfg, r, e);
    } else if !OneLine(r.path) {
      var i := BreakIn(r.path);
      JoinedAt(r.path, i);
      JoinedAssociative(r.path[..i], r.path[i + 1..], Joined(r.timestamp, Joined(r.nonce, e)));
      JoinedAssociative(r.timestamp, r.nonce, e);
    } else if !OneLine(r.timestamp) {
      var i := BreakIn(r.timestamp);
      JoinedAt(r.timestamp, i);
      JoinedAssociative(r.timestamp[..i], r.timestamp[i + 1..], Joined(r.nonce, e));
      JoinedAssociative(r.timestamp[i + 1..], r.nonce, e);
    } else {
      var i := BreakIn(r.nonce);
      JoinedAt(r.nonce, i);
      JoinedAssociative(r.nonce[..i], r.nonce[i + 1..], e);
      JoinedAssociative(r.path, r.timestamp, Joined(r.nonce, e));
    }
  }

  lemma ShiftedVerb(cfg: Config, r: Request, e: string)
    requires !OneLine(Upper(r.verb)) && e == cfg.digest(r.body)
    ensures CanonicalRequest(cfg, Shifted(r)) == CanonicalRequest(cfg, r)
  {
    var i := BreakIn(Upper(r.verb));
    CanonicalJoined(cfg, r);
    CanonicalJoined(cfg, Shifted(r));
    assert Upper(r.verb[..i]) == Upper(r.verb)[..i];
    JoinedAt(Upper(r.verb), i);
    JoinedAssociative(Upper(r.verb)[..i], Upper(r.verb)[i + 1..],
        Joined(r.path, Joined(r.timestamp, Joined(r.nonce, e))));
    JoinedAssociative(r.timestamp, r.nonce, e);
  }

  /** A signature determines its request if and only if each field of the request is one line. */
  lemma SignatureDeterminesIff(cfg: Config, r: Request)
    requires CollisionFree(cfg)
    ensures (forall q :: BuildSignature(cfg, q) == BuildSignature(cfg, r) ==> SameSigned(r, q)) <==> FieldsOneLine(r)
  {
    if FieldsOneLine(r) {
      forall q | BuildSignature(cfg, q) == BuildSignature(cfg, r) ensures SameSigned(r, q) {
        SignatureCoversRequest(cfg, r, q);
      }
    } else {
      ShiftedSignsAlike(cfg, r);
      assert BuildSignature(cfg, Shifted(r)) == BuildSignature(cfg, r) && !SameSigned(r, Shifted(r));
    }
  }

  function Rest3(cfg: Config, r: Request): string { r.nonce + "\n" + cfg.digest(r.body) }
  function Rest2(cfg: Config, r: Request): string { r.timestamp + "\n" + Rest3(cfg, r) }
  function Rest1(cfg: Config, r: Request): string { r.path + "\n" + Rest2(cfg, r) }

  lemma Canonical(cfg: Config, r: Request)
    ensures CanonicalRequest(cfg, r) == Upper(r.verb) + "\n" + Rest1(cfg, r)
  {
    assert CanonicalRequest(cfg, r) ==
        Upper(r.verb) + "\n" + (r.path + "\n" + (r.timestamp + "\n" + (r.nonce + "\n" + cfg.digest(r.body))));
  }
}
