/** From provider rows to the report, told on the fields of the rows and on what each fetch answered. */
module Records {
  import opened Text
  import opened Models
  import opened KeyedMerge
  import opened Dedup
  import opened Identities
  import opened QueryPlanner
  import opened Normalizer
  import opened Execution

  // ---------- what a row says ----------

  /** The first text of the list that is there and not empty. */
  function FirstOf(texts: seq<Option<string>>, default: string): string {
    if texts == [] then default else if Has(texts[0]) then texts[0].value else FirstOf(texts[1..], default)
  }

  function DomainOf(row: Row): Option<string> { if Has(row.host) then row.host else row.domain }

  function PortOf(row: Row): int { if row.port.Port? then row.port.number else 0 }

  function ProtocolOf(row: Row): string { Lower(FirstOf([row.protocol], "unknown")) }

  function SeenOf(row: Row): string { FirstOf([row.lastSeen, row.lastUpdate], "2026-05-17T10:00:00+08:00") }

  function EndpointOfRow(row: Row): Endpoint {
    Endpoint(Host(DomainOf(row), row.ip, "unknown"), PortOf(row), ProtocolOf(row),
             Lower(FirstOf([row.service, row.product], ProtocolOf(row))))
  }

  predicate AssetSays(a: Asset, row: Row) {
    && a.domain == DomainOf(row) && a.ip == row.ip && a.ownership == row.ownership && a.sources == ["fofa"]
    && a.lastSeen == Some(SeenOf(row)) && a.firstSeen == FirstOf([row.firstSeen], SeenOf(row))
  }

  predicate ServiceSays(s: Service, row: Row) {
    && s.domain == DomainOf(row) && s.ip == row.ip && EndpointOf(s) == EndpointOfRow(row) && s.sources == ["fofa"]
    && s.title == row.title && s.product == row.product && s.version == row.version
    && s.lastSeen == Some(SeenOf(row)) && s.firstSeen == FirstOf([row.firstSeen], SeenOf(row))
  }

  predicate EvidenceSays(e: Evidence, plan: Plan, index: nat, row: Row) {
    && e.planId == plan.planId && e.index == index
    && e.lastSeen == SeenOf(row) && e.firstSeen == FirstOf([row.firstSeen], SeenOf(row))
    && e.confidence == if row.confidence.Confidence? then row.confidence.number else 0.7
  }

  lemma RecordSays(h: Hash, taskId: string, plan: Plan, index: nat, row: Row)
    ensures var r := RecordOf(h, taskId, plan, index, row, PortOf(row));
            AssetSays(r.asset, row) && ServiceSays(r.service, row) && EvidenceSays(r.evidence, plan, index, row)
  {
    FirstOfOne(row.protocol, "unknown");
    FirstOfTwo(row.service, row.product, ProtocolOf(row));
    FirstOfTwo(row.lastSeen, row.lastUpdate, "2026-05-17T10:00:00+08:00");
    FirstOfOne(row.firstSeen, SeenOf(row));
  }

  lemma FirstOfOne(a: Option<string>, default: string)
    ensures FirstOf([a], default) == TextOr(a, default)
  {
    assert [a][1..] == [];
  }

  lemma FirstOfTwo(a: Option<string>, b: Option<string>, default: string)
    ensures FirstOf([a, b], default) == TextOr(a, TextOr(b, default))
  {
    assert [a, b][1..] == [b];
    FirstOfOne(b, default);
  }

  /** The records at each position say what the row at that position says. */
  ghost predicate BatchSays(b: Batch, plan: Plan, rows: seq<Row>) {
    && |b.assets| == |b.services| == |b.evidences| == |rows|
    && (forall i :: 0 <= i < |rows| ==> AssetSays(b.assets[i], rows[i]))
    && (forall i :: 0 <= i < |rows| ==> ServiceSays(b.services[i], rows[i]))
    && (forall i :: 0 <= i < |rows| ==> EvidenceSays(b.evidences[i], plan, i + 1, rows[i]))
  }

  predicate RecordSaysRow(r: Record, plan: Plan, index: nat, row: Row) {
    AssetSays(r.asset, row) && ServiceSays(r.service, row) && EvidenceSays(r.evidence, plan, index, row)
  }

  lemma BatchSaysMore(b: Batch, plan: Plan, rows: seq<Row>, r: Record)
    requires rows != [] && BatchSays(b, plan, rows[..|rows| - 1])
    requires RecordSaysRow(r, plan, |rows|, rows[|rows| - 1])
    ensures BatchSays(AddRecord(b, r), plan, rows)
  {
    var front := rows[..|rows| - 1];
    assert forall i :: 0 <= i < |front| ==> front[i] == rows[i];
  }

  /** The last record of a batch. */
  lemma LastRecord(h: Hash, taskId: string, plan: Plan, rows: seq<Row>) returns (b: Batch, r: Record)
    requires rows != [] && Normalize(h, taskId, plan, rows).Ok?
    ensures Normalize(h, taskId, plan, rows[..|rows| - 1]) == Ok(b)
    ensures Normalize(h, taskId, plan, rows) == Ok(AddRecord(b, r))
    ensures RecordSaysRow(r, plan, |rows|, rows[|rows| - 1])
  {
    var last := rows[|rows| - 1];
    b := Normalize(h, taskId, plan, rows[..|rows| - 1]).value;
    r := RecordOf(h, taskId, plan, |rows|, last, PortOf(last));
    RecordSays(h, taskId, plan, |rows|, last);
  }

  /** A batch is its rows. */
  lemma {:induction false} BatchSaysRows(h: Hash, taskId: string, plan: Plan, rows: seq<Row>)
    requires Normalize(h, taskId, plan, rows).Ok?
    ensures BatchSays(Normalize(h, taskId, plan, rows).value, plan, rows)
  {
    if rows != [] {
      var b, r := LastRecord(h, taskId, plan, rows);
      BatchSaysRows(h, taskId, plan, rows[..|rows| - 1]);
      BatchSaysMore(b, plan, rows, r);
    }
  }

  /** A batch is read exactly if every row has a number or nothing for a port, an observation time in range,
      and a number or nothing for a confidence. */
  lemma ReadIff(h: Hash, taskId: string, plan: Plan, rows: seq<Row>)
    ensures Normalize(h, taskId, plan, rows).Ok? <==>
            forall row :: row in rows ==> !row.port.BadPort? && !row.overflows && !row.confidence.BadConfidence?
  {
    NormalizeRaisesIff(h, taskId, plan, rows);
    if i :| 0 <= i < |rows| && RowError(rows[i]).Some? {
      assert rows[i] in rows;
    }
  }

  // ---------- what the fetches say ----------

  /** The errors of the failed fetches, in the order of the plans. */
  function Failures(provider: Provider, plans: seq<Plan>): seq<TaskError> {
    if plans == [] then []
    else
      var front, plan := Failures(provider, plans[..|plans| - 1]), plans[|plans| - 1];
      match provider(plan)
      case Rows(_) => front
      case Failed(message, recoverable, code) =>
        front + [TaskError(plan.queryType, plan.sourceQuery, message, recoverable, code)]
  }

  function Answered(provider: Provider, plans: seq<Plan>): nat {
    if plans == [] then 0
    else Answered(provider, plans[..|plans| - 1]) + if provider(plans[|plans| - 1]).Rows? then 1 else 0
  }

  function RowsAnswered(provider: Provider, plans: seq<Plan>): nat {
    if plans == [] then 0
    else
      var last := provider(plans[|plans| - 1]);
      RowsAnswered(provider, plans[..|plans| - 1]) + if last.Rows? then |last.rows| else 0
  }

  /** Where a record comes from. */
  datatype Source = Source(plan: Plan, index: nat, row: Row)

  function RowSources(plan: Plan, rows: seq<Row>): (r: seq<Source>)
    ensures |r| == |rows|
  {
    seq(|rows|, i requires 0 <= i < |rows| => Source(plan, i + 1, rows[i]))
  }

  /** The rows of all answers, plan by plan, numbered from 1 within each. */
  function Sources(provider: Provider, plans: seq<Plan>): seq<Source> {
    if plans == [] then []
    else
      var last := plans[|plans| - 1];
      Sources(provider, plans[..|plans| - 1]) +
      if provider(last).Rows? then RowSources(last, provider(last).rows) else []
  }

  /** The records say, position by position, what their sources say. */
  ghost predicate SaysSources(b: Batch, sources: seq<Source>) {
    && |b.assets| == |b.services| == |b.evidences| == |sources|
    && (forall i :: 0 <= i < |sources| ==> AssetSays(b.assets[i], sources[i].row))
    && (forall i :: 0 <= i < |sources| ==> ServiceSays(b.services[i], sources[i].row))
    && (forall i :: 0 <= i < |sources| ==>
          EvidenceSays(b.evidences[i], sources[i].plan, sources[i].index, sources[i].row))
  }

  lemma BatchSaysSources(b: Batch, plan: Plan, rows: seq<Row>)
    requires BatchSays(b, plan, rows)
    ensures SaysSources(b, RowSources(plan, rows))
  {
  }

  lemma SaysBoth(a: Batch, b: Batch, s: seq<Source>, t: seq<Source>)
    requires SaysSources(a, s) && SaysSources(b, t)
    ensures SaysSources(JoinBatches(a, b), s + t)
  {
  }

  lemma {:induction false} CollectedInOrder(h: Hash, taskId: string, plans: seq<Plan>, provider: Provider)
    requires Run(h, taskId, plans, provider).Ok?
    ensures SaysSources(Run(h, taskId, plans, provider).value.batch, Sources(provider, plans))
  {
    if plans != [] {
      var front, last := plans[..|plans| - 1], plans[|plans| - 1];
      CollectedInOrder(h, taskId, front, provider);
      if provider(last).Rows? {
        var more := Normalize(h, taskId, last, provider(last).rows).value;
        BatchSaysRows(h, taskId, last, provider(last).rows);
        BatchSaysSources(more, last, provider(last).rows);
        SaysBoth(Run(h, taskId, front, provider).value.batch, more, Sources(provider, front),
                 RowSources(last, provider(last).rows));
      }
    }
  }

  /** The evidence of a report is that of the rows of all answers, in order; assets and services are merged
      from the records of the same rows, in the same order. */
  lemma ReportInOrder(h: Hash, taskId: string, plans: seq<Plan>, provider: Provider) returns (b: Batch)
    requires Execute(h, taskId, plans, provider).Ok?
    ensures SaysSources(b, Sources(provider, plans))
    ensures var r := Execute(h, taskId, plans, provider).value;
            && r.evidences == b.evidences && ReportsEach(ASSET_MERGER, AssetName, b.assets, r.assets)
            && ((forall s :: s in b.services ==> Unbarred(s)) ==>
                  ReportsEach(SERVICE_MERGER, EndpointOf, b.services, r.services))
  {
    CollectedInOrder(h, taskId, plans, provider);
    b := Run(h, taskId, plans, provider).value.batch;
    AssetsByName(b.assets);
    if forall s :: s in b.services ==> Unbarred(s) {
      ServicesByEndpoint(b.services);
    }
  }

  /** With a collision-free digest, service ids within a task differ exactly with host, port, protocol or name,
      as long as hosts and protocols have no bar. */
  lemma ServiceIdsIff(h: Hash, taskId: string, e: Endpoint, f: Endpoint)
    requires Injective(h) && NoBar(e.host) && NoBar(f.host) && NoBar(e.protocol) && NoBar(f.protocol)
    ensures var a := ServiceId(h, taskId, e.host, e.port, e.protocol, e.service);
            var b := ServiceId(h, taskId, f.host, f.port, f.protocol, f.service);
            a == b <==> e == f
  {
    ServiceIdText(h, taskId, e);
    ServiceIdText(h, taskId, f);
    if ServiceId(h, taskId, e.host, e.port, e.protocol, e.service) ==
       ServiceId(h, taskId, f.host, f.port, f.protocol, f.service) {
      DropFront("svc_", h(taskId + "|" + KeyText(e)), h(taskId + "|" + KeyText(f)));
      DropFront(taskId + "|", KeyText(e), KeyText(f));
      KeyTextsDiffer(e, f);
    }
  }

  lemma ServiceIdText(h: Hash, taskId: string, e: Endpoint)
    ensures ServiceId(h, taskId, e.host, e.port, e.protocol, e.service) == "svc_" + h(taskId + "|" + KeyText(e))
  {
    assert taskId + "|" + e.host + "|" + IntText(e.port) + "|" + e.protocol + "|" + e.service ==
           taskId + "|" + KeyText(e);
  }

  /** A record's service id is that of its host, without a default, and of its port, protocol and name. */
  lemma ServiceIdSays(h: Hash, taskId: string, plan: Plan, index: nat, row: Row)
    ensures var e := EndpointOfRow(row);
            RecordOf(h, taskId, plan, index, row, PortOf(row)).service.serviceId ==
              ServiceId(h, taskId, Host(DomainOf(row), row.ip, ""), e.port, e.protocol, e.service)
  {
    RecordSays(h, taskId, plan, index, row);
  }

  lemma {:induction false} RunSays(h: Hash, taskId: string, plans: seq<Plan>, provider: Provider)
    requires Run(h, taskId, plans, provider).Ok?
    ensures var p := Run(h, taskId, plans, provider).value;
            && p.errors == Failures(provider, plans) && p.completed == Answered(provider, plans)
            && |p.errors| + p.completed == |plans|
            && |p.batch.evidences| == RowsAnswered(provider, plans)
  {
    if plans != [] {
      var front, last := plans[..|plans| - 1], plans[|plans| - 1];
      RunSays(h, taskId, front, provider);
      if provider(last).Rows? {
        BatchSaysRows(h, taskId, last, provider(last).rows);
      }
    }
  }

  ghost predicate AllAnswered(provider: Provider, plans: seq<Plan>) {
    forall plan :: plan in plans ==> provider(plan).Rows?
  }

  ghost predicate AllFailed(provider: Provider, plans: seq<Plan>) {
    forall plan :: plan in plans ==> provider(plan).Failed?
  }

  lemma LastAnswer(provider: Provider, front: seq<Plan>, last: Plan)
    ensures AllAnswered(provider, front + [last]) <==> AllAnswered(provider, front) && provider(last).Rows?
    ensures AllFailed(provider, front + [last]) <==> AllFailed(provider, front) && provider(last).Failed?
  {
    forall plan ensures plan in front + [last] <==> plan in front || plan == last {
    }
  }

  lemma {:induction false} AnsweredIff(provider: Provider, plans: seq<Plan>)
    ensures Answered(provider, plans) <= |plans|
    ensures Answered(provider, plans) == 0 <==> AllFailed(provider, plans)
    ensures Answered(provider, plans) == |plans| <==> AllAnswered(provider, plans)
  {
    if plans != [] {
      var front, last := plans[..|plans| - 1], plans[|plans| - 1];
      assert plans == front + [last];
      AnsweredIff(provider, front);
      LastAnswer(provider, front, last);
    }
  }

  /** The status, the errors and the numbers of a report are those of the fetches: failed if there are plans
      and all of them fail, a success if none does, a partial success otherwise. */
  lemma ReportSays(h: Hash, taskId: string, plans: seq<Plan>, provider: Provider)
    requires Execute(h, taskId, plans, provider).Ok?
    ensures var r := Execute(h, taskId, plans, provider).value;
            && r.errors == Failures(provider, plans)
            && r.quota.planned == |plans| && r.quota.completed == Answered(provider, plans) == r.quota.consumedPages
            && r.quota.failed == |plans| - Answered(provider, plans) && r.quota.plannedPages == PageSum(plans)
            && r.quota.resultCount == RowsAnswered(provider, plans) == |r.evidences|
            && r.status in {Success, PartialSuccess, FailedStatus}
            && (r.status.Success? <==> forall plan :: plan in plans ==> provider(plan).Rows?)
            && (r.status.FailedStatus? <==> plans != [] && forall plan :: plan in plans ==> provider(plan).Failed?)
  {
    RunSays(h, taskId, plans, provider);
    AnsweredIff(provider, plans);
  }

  // ---------- every row is in the report ----------

  /** A row that some plan was answered with. */
  predicate WasAnswered(provider: Provider, plans: seq<Plan>, row: Row) {
    exists i :: 0 <= i < |plans| && AnswerHas(provider, plans[i], row)
  }

  predicate AnswerHas(provider: Provider, plan: Plan, row: Row) {
    provider(plan).Rows? && row in provider(plan).rows
  }

  lemma WasAnsweredMore(provider: Provider, front: seq<Plan>, last: Plan, row: Row)
    ensures WasAnswered(provider, front + [last], row) <==>
            WasAnswered(provider, front, row) || AnswerHas(provider, last, row)
  {
    var plans := front + [last];
    assert plans[|front|] == last && forall i :: 0 <= i < |front| ==> plans[i] == front[i];
  }

  predicate IsOf(e: Endpoint, services: seq<Service>) {
    exists j :: 0 <= j < |services| && EndpointOf(services[j]) == e
  }

  lemma IsOfBoth(e: Endpoint, a: seq<Service>, b: seq<Service>)
    ensures IsOf(e, a + b) <==> IsOf(e, a) || IsOf(e, b)
  {
    var c := a + b;
    assert forall j :: 0 <= j < |a| ==> c[j] == a[j];
    assert forall j :: 0 <= j < |b| ==> c[|a| + j] == b[j];
  }

  ghost predicate RowWith(rows: seq<Row>, e: Endpoint) { exists row :: row in rows && EndpointOfRow(row) == e }

  lemma BatchEndpoints(h: Hash, taskId: string, plan: Plan, rows: seq<Row>, e: Endpoint)
    requires Normalize(h, taskId, plan, rows).Ok?
    ensures IsOf(e, Normalize(h, taskId, plan, rows).value.services) <==> RowWith(rows, e)
  {
    BatchSaysRows(h, taskId, plan, rows);
    var services := Normalize(h, taskId, plan, rows).value.services;
    if j :| 0 <= j < |services| && EndpointOf(services[j]) == e {
      assert ServiceSays(services[j], rows[j]) && rows[j] in rows;
    }
    if row :| row in rows && EndpointOfRow(row) == e {
      var j :| 0 <= j < |rows| && rows[j] == row;
      assert ServiceSays(services[j], rows[j]);
    }
  }

  ghost predicate AnsweredWith(provider: Provider, plans: seq<Plan>, e: Endpoint) {
    exists row :: WasAnswered(provider, plans, row) && EndpointOfRow(row) == e
  }

  lemma AnsweredWithMore(provider: Provider, front: seq<Plan>, last: Plan, e: Endpoint)
    ensures AnsweredWith(provider, front + [last], e) <==>
            AnsweredWith(provider, front, e) || (provider(last).Rows? && RowWith(provider(last).rows, e))
  {
    forall row ensures WasAnswered(provider, front + [last], row) <==>
                       WasAnswered(provider, front, row) || AnswerHas(provider, last, row)
    {
      WasAnsweredMore(provider, front, last, row);
    }
    if provider(last).Rows? && RowWith(provider(last).rows, e) {
      var row :| row in provider(last).rows && EndpointOfRow(row) == e;
      assert AnswerHas(provider, last, row);
    }
  }

  lemma {:induction false} CollectedEndpoints(h: Hash, taskId: string, plans: seq<Plan>, provider: Provider,
      e: Endpoint)
    requires Run(h, taskId, plans, provider).Ok?
    ensures IsOf(e, Run(h, taskId, plans, provider).value.batch.services) <==> AnsweredWith(provider, plans, e)
  {
    if plans != [] {
      var front, last := plans[..|plans| - 1], plans[|plans| - 1];
      assert plans == front + [last];
      CollectedEndpoints(h, taskId, front, provider, e);
      AnsweredWithMore(provider, front, last, e);
      if provider(last).Rows? {
        BatchEndpoints(h, taskId, last, provider(last).rows, e);
        IsOfBoth(e, Run(h, taskId, front, provider).value.batch.services,
                 Normalize(h, taskId, last, provider(last).rows).value.services);
      }
    }
  }

  /** What is collected is reported, each endpoint once. */
  lemma ReportedEndpoints(xs: seq<Service>, r: seq<Service>, e: Endpoint)
    requires ReportsEach(SERVICE_MERGER, EndpointOf, xs, r)
    ensures IsOf(e, r) <==> IsOf(e, xs)
    ensures forall i, j :: 0 <= i < j < |r| ==> EndpointOf(r[i]) != EndpointOf(r[j])
  {
    if j :| 0 <= j < |r| && EndpointOf(r[j]) == e {
      AlikeIsOf(xs, e);
    }
  }

  lemma {:induction false} AlikeIsOf(xs: seq<Service>, e: Endpoint)
    requires Alike(EndpointOf, xs, e) != []
    ensures IsOf(e, xs)
  {
    var front, last := xs[..|xs| - 1], xs[|xs| - 1];
    if EndpointOf(last) != e {
      AlikeIsOf(front, e);
      var j :| 0 <= j < |front| && EndpointOf(front[j]) == e;
      assert xs[j] == front[j];
    } else {
      assert xs[|xs| - 1] == last;
    }
  }

  /** No row has a bar in its host or protocol. */
  ghost predicate UnbarredRows(provider: Provider, plans: seq<Plan>) {
    forall row :: WasAnswered(provider, plans, row) ==>
        NoBar(EndpointOfRow(row).host) && NoBar(EndpointOfRow(row).protocol)
  }

  /** Over a whole run: an endpoint is reported if and only if some row of some answer has it, and then
      once. */
  lemma EndpointsAreReported(h: Hash, taskId: string, plans: seq<Plan>, provider: Provider, e: Endpoint)
    requires Execute(h, taskId, plans, provider).Ok? && UnbarredRows(provider, plans)
    ensures var services := Execute(h, taskId, plans, provider).value.services;
            && (IsOf(e, services) <==> AnsweredWith(provider, plans, e))
            && forall i, j :: 0 <= i < j < |services| ==> EndpointOf(services[i]) != EndpointOf(services[j])
  {
    var xs := Run(h, taskId, plans, provider).value.batch.services;
    forall p | 0 <= p < |xs| ensures Unbarred(xs[p]) {
      CollectedEndpoints(h, taskId, plans, provider, EndpointOf(xs[p]));
      assert IsOf(EndpointOf(xs[p]), xs);
    }
    ServicesByEndpoint(xs);
    ReportedEndpoints(xs, Dedupe(SERVICE_MERGER, xs), e);
    CollectedEndpoints(h, taskId, plans, provider, e);
  }
}
