/** Provider rows become one asset, one service and one evidence record each. */
module Normalizer {
  import opened Text
  import opened Models
  import opened Dedup
  import opened QueryPlanner

  /** The shortened SHA-1 digest behind every generated id. */
  type Hash = string -> string

  ghost predicate Injective(h: Hash) { forall x, y :: h(x) == h(y) ==> x == y }

  datatype Evidence = Evidence(evidenceId: string, planId: string, index: nat, firstSeen: string, lastSeen: string,
      confidence: real)

  datatype Batch = Batch(assets: seq<Asset>, services: seq<Service>, evidences: seq<Evidence>)

  const DEFAULT_SEEN_AT := "2026-05-17T10:00:00+08:00"

  function AssetId(h: Hash, taskId: string, host: string): string {
    "asset_" + h(taskId + "|" + host)
  }

  function ServiceId(h: Hash, taskId: string, host: string, port: int, protocol: string, service: string): string {
    "svc_" + h(taskId + "|" + host + "|" + IntText(port) + "|" + protocol + "|" + service)
  }

  function EvidenceId(h: Hash, taskId: string, planId: string, index: nat): string {
    "ev_" + h(taskId + ("|" + (planId + ("|" + Digits(index)))))
  }

  /** `domain or ip` as `_stable_id` prints it. */
  function HostText(domain: Option<string>, ip: Option<string>): string {
    TextOr(domain, TextOr(ip, ""))
  }

  datatype Record = Record(asset: Asset, service: Service, evidence: Evidence)

  function RecordOf(h: Hash, taskId: string, plan: Plan, index: nat, row: Row, port: int): Record {
    var domain := OrElse(row.host, row.domain);
    var host := HostText(domain, row.ip);
    var protocol := Lower(TextOr(row.protocol, "unknown"));
    var service := Lower(TextOr(row.service, TextOr(row.product, protocol)));
    var seenAt := TextOr(row.lastSeen, TextOr(row.lastUpdate, DEFAULT_SEEN_AT));
    var firstSeen := TextOr(row.firstSeen, seenAt);
    var assetId, evidenceId := AssetId(h, taskId, host), EvidenceId(h, taskId, plan.planId, index);
    Record(
      Asset(assetId, domain, row.ip, row.ownership, firstSeen, Some(seenAt), ["fofa"], [evidenceId]),
      Service(ServiceId(h, taskId, host, port, protocol, service), assetId, domain, row.ip, port, protocol, service,
              row.title, row.product, row.version, firstSeen, Some(seenAt), ["fofa"], [evidenceId]),
      Evidence(evidenceId, plan.planId, index, firstSeen, seenAt,
               if row.confidence.Confidence? then row.confidence.number else 0.7))
  }

  /** What stops the whole batch: a port that `int()` refuses, then an observation time out of range in
      UTC, then a confidence that `float()` refuses. */
  function RowError(row: Row): Option<string> {
    if row.port.BadPort? then Some("invalid literal for int()")
    else if row.overflows then Some("date value out of range")
    else if row.confidence.BadConfidence? then Some("could not convert to float")
    else None
  }

  function AddRecord(b: Batch, r: Record): Batch {
    Batch(b.assets + [r.asset], b.services + [r.service], b.evidences + [r.evidence])
  }

  /** Rows are numbered from 1. */
  function Normalize(h: Hash, taskId: string, plan: Plan, rows: seq<Row>): Result<Batch> {
    if rows == [] then Ok(Batch([], [], []))
    else match Normalize(h, taskId, plan, rows[..|rows| - 1])
      case Raised(e) => Raised(e)
      case Ok(b) =>
        var row := rows[|rows| - 1];
        match RowError(row)
        case Some(e) => Raised(e)
        case None =>
          Ok(AddRecord(b, RecordOf(h, taskId, plan, |rows|, row, if row.port.Port? then row.port.number else 0)))
  }

  lemma {:induction false} RaisedRowsStay(h: Hash, taskId: string, plan: Plan, rows: seq<Row>, n: nat)
    requires n <= |rows| && Normalize(h, taskId, plan, rows[..n]).Raised?
    ensures Normalize(h, taskId, plan, rows) == Normalize(h, taskId, plan, rows[..n])
    decreases |rows|
  {
    if n == |rows| {
      assert rows[..n] == rows;
    } else {
      assert rows[..|rows| - 1][..n] == rows[..n];
      RaisedRowsStay(h, taskId, plan, rows[..|rows| - 1], n);
    }
  }

  method NormalizeFofaResults(h: Hash, taskId: string, plan: Plan, rows: seq<Row>) returns (r: Result<Batch>)
    ensures r == Normalize(h, taskId, plan, rows)
  {
    var assets: seq<Asset>, services: seq<Service>, evidences: seq<Evidence> := [], [], [];
    for i := 0 to |rows|
      invariant Normalize(h, taskId, plan, rows[..i]) == Ok(Batch(assets, services, evidences))
    {
      assert rows[..i + 1][..i] == rows[..i];
      var row := rows[i];
      var refused := RowError(row);
      if refused.Some? {
        RaisedRowsStay(h, taskId, plan, rows, i + 1);
        return Raised(refused.value);
      }
      var record := RecordOf(h, taskId, plan, i + 1, row, if row.port.Port? then row.port.number else 0);
      assets := assets + [record.asset];
      services := services + [record.service];
      evidences := evidences + [record.evidence];
    }
    assert rows[..|rows|] == rows;
    return Ok(Batch(assets, services, evidences));
  }

  /** Some row cannot be read. */
  predicate Unreadable(rows: seq<Row>) {
    exists i :: 0 <= i < |rows| && RowError(rows[i]).Some?
  }

  lemma UnreadableMore(front: seq<Row>, last: Row)
    ensures Unreadable(front + [last]) <==> Unreadable(front) || RowError(last).Some?
  {
    var rows := front + [last];
    if i :| 0 <= i < |front| && RowError(front[i]).Some? {
      assert RowError(rows[i]).Some?;
    }
    if RowError(last).Some? {
      assert RowError(rows[|front|]).Some?;
    }
    if i :| 0 <= i < |rows| && RowError(rows[i]).Some? {
      assert i < |front| ==> RowError(front[i]).Some?;
    }
  }

  lemma {:induction false} NormalizeRaisesIff(h: Hash, taskId: string, plan: Plan, rows: seq<Row>)
    ensures Normalize(h, taskId, plan, rows).Raised? <==> Unreadable(rows)
  {
    if rows != [] {
      var front, last := rows[..|rows| - 1], rows[|rows| - 1];
      assert rows == front + [last];
      NormalizeRaisesIff(h, taskId, plan, front);
      UnreadableMore(front, last);
    }
  }

  // ---------- one asset, one service and one evidence per row ----------

  predicate Aligned(h: Hash, taskId: string, a: Asset, s: Service, e: Evidence) {
    && a.evidenceIds == [e.evidenceId] == s.evidenceIds
    && e.evidenceId == EvidenceId(h, taskId, e.planId, e.index)
    && s.assetId == a.assetId == AssetId(h, taskId, HostText(a.domain, a.ip))
    && s.domain == a.domain && s.ip == a.ip
  }

  ghost predicate AlignedLists(h: Hash, taskId: string, b: Batch) {
    && |b.assets| == |b.services| == |b.evidences|
    && forall i :: 0 <= i < |b.assets| ==> Aligned(h, taskId, b.assets[i], b.services[i], b.evidences[i])
  }

  lemma {:induction false} BatchIsAligned(h: Hash, taskId: string, plan: Plan, rows: seq<Row>)
    requires Normalize(h, taskId, plan, rows).Ok?
    ensures var b := Normalize(h, taskId, plan, rows).value;
            && AlignedLists(h, taskId, b) && |b.assets| == |rows|
            && forall i :: 0 <= i < |rows| ==> b.evidences[i].planId == plan.planId && b.evidences[i].index == i + 1
  {
    if rows != [] {
      BatchIsAligned(h, taskId, plan, rows[..|rows| - 1]);
    }
  }

  lemma PlanAndRow(m: nat, i: nat, n: nat, j: nat)
    requires PlanId(m) + ("|" + Digits(i)) == PlanId(n) + ("|" + Digits(j))
    ensures m == n && i == j
  {
    var a, b := Padded(m, 3), Padded(n, 3);
    Regroup("plan_", a, ['|'], Digits(i));
    Regroup("plan_", b, ['|'], Digits(j));
    DropFront("plan_", a + ['|'] + Digits(i), b + ['|'] + Digits(j));
    SplitAtMark(a, Digits(i), b, Digits(j), '|');
    ValueOfPadded(m, 3);
    ValueOfPadded(n, 3);
    ValueOfDigits(i);
    ValueOfDigits(j);
  }

  lemma Regroup(a: string, b: string, c: string, d: string)
    ensures (a + b) + (c + d) == a + (b + c + d)
  {
  }

  /** Evidence ids differ whenever plan number or row number differ. */
  lemma EvidenceIdsInjective(h: Hash, taskId: string, m: nat, i: nat, n: nat, j: nat)
    requires Injective(h) && EvidenceId(h, taskId, PlanId(m), i) == EvidenceId(h, taskId, PlanId(n), j)
    ensures m == n && i == j
  {
    var restI, restJ := PlanId(m) + ("|" + Digits(i)), PlanId(n) + ("|" + Digits(j));
    DropFront("ev_", h(taskId + ("|" + restI)), h(taskId + ("|" + restJ)));
    DropFront(taskId, "|" + restI, "|" + restJ);
    DropFront("|", restI, restJ);
    PlanAndRow(m, i, n, j);
  }

  lemma DropFront(front: string, a: string, b: string)
    requires front + a == front + b
    ensures a == b
  {
    assert a == (front + a)[|front|..] && b == (front + b)[|front|..];
  }

  lemma AssetIdsInjective(h: Hash, taskId: string, x: string, y: string)
    requires Injective(h) && AssetId(h, taskId, x) == AssetId(h, taskId, y)
    ensures x == y
  {
    DropFront("asset_", h(taskId + "|" + x), h(taskId + "|" + y));
    DropFront(taskId + "|", x, y);
  }
}
