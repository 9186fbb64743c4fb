/** Whether every reported service refers to a reported asset. */
module References {
  import opened Text
  import opened Models
  import opened KeyedMerge
  import opened Dedup
  import opened QueryPlanner
  import opened Normalizer
  import opened Execution

  function AssetHost(a: Asset): string { HostText(a.domain, a.ip) }

  ghost predicate IdFromHost(h: Hash, taskId: string, a: Asset) {
    a.assetId == AssetId(h, taskId, AssetHost(a))
  }

  ghost predicate IdsFromHosts(h: Hash, taskId: string, xs: seq<Asset>) {
    forall i :: 0 <= i < |xs| ==> IdFromHost(h, taskId, xs[i])
  }

  lemma KeyIsHost(h: Hash, taskId: string, a: Asset)
    requires IdFromHost(h, taskId, a)
    ensures AssetKey(a) == if AssetHost(a) != "" then AssetHost(a) else AssetId(h, taskId, "")
  {
  }

  lemma SameIdSameHost(h: Hash, taskId: string, a: Asset, b: Asset)
    requires Injective(h) && IdFromHost(h, taskId, a) && IdFromHost(h, taskId, b)
    ensures a.assetId == b.assetId <==> AssetHost(a) == AssetHost(b)
    ensures AssetHost(a) == AssetHost(b) ==> AssetKey(a) == AssetKey(b)
  {
    KeyIsHost(h, taskId, a);
    KeyIsHost(h, taskId, b);
    if a.assetId == b.assetId {
      AssetIdsInjective(h, taskId, AssetHost(a), AssetHost(b));
    }
  }

  /** Exactly one asset of the list has the id. */
  ghost predicate NamesOne(assets: seq<Asset>, id: string) {
    && (exists i :: 0 <= i < |assets| && assets[i].assetId == id)
    && (forall i, j :: 0 <= i < j < |assets| ==> !(assets[i].assetId == id && assets[j].assetId == id))
  }

  // ---------- which asset ids are reported ----------

  /** An entry has the host and the id of the first record of its key. */
  lemma EntryIsLeader(h: Hash, taskId: string, xs: seq<Asset>, i: nat) returns (q: nat)
    requires IdsFromHosts(h, taskId, xs) && i < |Dedupe(ASSET_MERGER, xs)|
    ensures Leads(ASSET_MERGER, xs, q)
    ensures var e := Dedupe(ASSET_MERGER, xs)[i];
            && e.assetId == xs[q].assetId && AssetHost(e) == AssetHost(xs[q]) && AssetKey(e) == AssetKey(xs[q])
            && IdFromHost(h, taskId, e)
  {
    AssetMergerLawful();
    q := EntryHasLeader(ASSET_MERGER, xs, i);
    AssetIdentity(Group(ASSET_MERGER, xs, AssetKey(xs[q])));
    assert IdFromHost(h, taskId, xs[q]);
  }

  lemma IdsAtMostOnce(h: Hash, taskId: string, xs: seq<Asset>)
    requires Injective(h) && IdsFromHosts(h, taskId, xs)
    ensures var es := Dedupe(ASSET_MERGER, xs); forall i, j :: 0 <= i < j < |es| ==> es[i].assetId != es[j].assetId
  {
    var es := Dedupe(ASSET_MERGER, xs);
    AssetMergerLawful();
    InsertAllKeepsDistinct(ASSET_MERGER, [], xs);
    forall i, j | 0 <= i < j < |es| ensures es[i].assetId != es[j].assetId {
      var p := EntryIsLeader(h, taskId, xs, i);
      var q := EntryIsLeader(h, taskId, xs, j);
      SameIdSameHost(h, taskId, es[i], es[j]);
    }
  }

  /** A record's asset id names exactly one reported asset if and only if the first record with its
      dedupe key has the same host text. */
  lemma NamedIff(h: Hash, taskId: string, xs: seq<Asset>, p: nat, q: nat)
    requires Injective(h) && IdsFromHosts(h, taskId, xs) && p < |xs|
    requires Leads(ASSET_MERGER, xs, q) && AssetKey(xs[q]) == AssetKey(xs[p])
    ensures NamesOne(Dedupe(ASSET_MERGER, xs), xs[p].assetId) <==> AssetHost(xs[q]) == AssetHost(xs[p])
  {
    var es := Dedupe(ASSET_MERGER, xs);
    IdsAtMostOnce(h, taskId, xs);
    AssetMergerLawful();
    var e := LeaderHasEntry(ASSET_MERGER, xs, q);
    AssetIdentity(Group(ASSET_MERGER, xs, AssetKey(xs[q])));
    assert es[e].assetId == xs[q].assetId && IdFromHost(h, taskId, xs[p]) && IdFromHost(h, taskId, xs[q]);
    SameIdSameHost(h, taskId, xs[p], xs[q]);
    if i :| 0 <= i < |es| && es[i].assetId == xs[p].assetId {
      var r := EntryIsLeader(h, taskId, xs, i);
      SameIdSameHost(h, taskId, es[i], xs[p]);
      assert r == q;
    }
  }

  /** Two different hosts share a dedupe key only as nothing and the id generated for nothing. */
  lemma SharedKey(h: Hash, taskId: string, a: Asset, b: Asset)
    requires IdFromHost(h, taskId, a) && IdFromHost(h, taskId, b)
    ensures AssetKey(a) == AssetKey(b) <==>
            AssetHost(a) == AssetHost(b) || {AssetHost(a), AssetHost(b)} == {"", AssetId(h, taskId, "")}
  {
    KeyIsHost(h, taskId, a);
    KeyIsHost(h, taskId, b);
    assert AssetId(h, taskId, "")[0] == 'a';
  }

  predicate HasHost(xs: seq<Asset>, host: string) {
    exists i :: 0 <= i < |xs| && AssetHost(xs[i]) == host
  }

  /** Every collected asset id names exactly one reported asset if and only if there is not both a
      record without host and IP and one whose host or IP is the id generated for it. */
  lemma AllNamedIff(h: Hash, taskId: string, xs: seq<Asset>)
    requires Injective(h) && IdsFromHosts(h, taskId, xs)
    ensures (forall p :: 0 <= p < |xs| ==> NamesOne(Dedupe(ASSET_MERGER, xs), xs[p].assetId)) <==>
            !(HasHost(xs, "") && HasHost(xs, AssetId(h, taskId, "")))
  {
    if HasHost(xs, "") && HasHost(xs, AssetId(h, taskId, "")) {
      var i :| 0 <= i < |xs| && AssetHost(xs[i]) == "";
      var j :| 0 <= j < |xs| && AssetHost(xs[j]) == AssetId(h, taskId, "");
      OneOfTwoUnnamed(h, taskId, xs, i, j);
    } else {
      forall p | 0 <= p < |xs| ensures NamesOne(Dedupe(ASSET_MERGER, xs), xs[p].assetId) {
        var q := LeaderOf(ASSET_MERGER, xs, p);
        assert IdFromHost(h, taskId, xs[p]) && IdFromHost(h, taskId, xs[q]);
        SharedKey(h, taskId, xs[q], xs[p]);
        if AssetHost(xs[q]) != AssetHost(xs[p]) {
          BothHosts(xs, q, p, AssetId(h, taskId, ""));
          assert false;
        }
        NamedIff(h, taskId, xs, p, q);
      }
    }
  }

  lemma BothHosts(xs: seq<Asset>, i: nat, j: nat, id: string)
    requires i < |xs| && j < |xs| && {AssetHost(xs[i]), AssetHost(xs[j])} == {"", id}
    ensures HasHost(xs, "") && HasHost(xs, id)
  {
    assert "" in {AssetHost(xs[i]), AssetHost(xs[j])} && id in {AssetHost(xs[i]), AssetHost(xs[j])};
  }

  lemma OneOfTwoUnnamed(h: Hash, taskId: string, xs: seq<Asset>, i: nat, j: nat)
    requires Injective(h) && IdsFromHosts(h, taskId, xs) && i < |xs| && j < |xs|
    requires AssetHost(xs[i]) == "" && AssetHost(xs[j]) == AssetId(h, taskId, "")
    ensures !NamesOne(Dedupe(ASSET_MERGER, xs), xs[i].assetId) || !NamesOne(Dedupe(ASSET_MERGER, xs), xs[j].assetId)
  {
    var q := LeaderOf(ASSET_MERGER, xs, i);
    assert IdFromHost(h, taskId, xs[i]) && IdFromHost(h, taskId, xs[j]);
    SharedKey(h, taskId, xs[i], xs[j]);
    NamedIff(h, taskId, xs, i, q);
    NamedIff(h, taskId, xs, j, q);
    assert AssetId(h, taskId, "") != "";
  }

  // ---------- which services resolve ----------

  ghost predicate Collected(h: Hash, taskId: string, b: Batch) {
    && IdsFromHosts(h, taskId, b.assets) && |b.services| == |b.assets|
    && forall i :: 0 <= i < |b.assets| ==> b.services[i].assetId == b.assets[i].assetId
  }

  lemma RunsCollect(h: Hash, taskId: string, plans: seq<Plan>, provider: Provider)
    requires Injective(h) && PlannedIds(plans) && Run(h, taskId, plans, provider).Ok?
    ensures Collected(h, taskId, Run(h, taskId, plans, provider).value.batch)
  {
    RunCollects(h, taskId, plans, provider);
    var b := Run(h, taskId, plans, provider).value.batch;
    forall i | 0 <= i < |b.assets|
      ensures IdFromHost(h, taskId, b.assets[i]) && b.services[i].assetId == b.assets[i].assetId
    {
      assert Aligned(h, taskId, b.assets[i], b.services[i], b.evidences[i]);
    }
  }

  /** The first asset with the dedupe key of record `p` has its host. */
  ghost predicate HostLeads(xs: seq<Asset>, p: nat)
    requires p < |xs|
  {
    exists q: nat :: Leads(ASSET_MERGER, xs, q) && AssetKey(xs[q]) == AssetKey(xs[p])
        && AssetHost(xs[q]) == AssetHost(xs[p])
  }

  lemma OneLeader(xs: seq<Asset>, q: nat, r: nat)
    requires Leads(ASSET_MERGER, xs, q) && Leads(ASSET_MERGER, xs, r) && AssetKey(xs[q]) == AssetKey(xs[r])
    ensures q == r
  {
    assert ASSET_MERGER.key(xs[q]) == ASSET_MERGER.key(xs[r]);
  }

  lemma HostLeadsIff(h: Hash, taskId: string, xs: seq<Asset>, p: nat)
    requires Injective(h) && IdsFromHosts(h, taskId, xs) && p < |xs|
    ensures NamesOne(Dedupe(ASSET_MERGER, xs), xs[p].assetId) <==> HostLeads(xs, p)
  {
    var q := LeaderOf(ASSET_MERGER, xs, p);
    NamedIff(h, taskId, xs, p, q);
    if r: nat :|
      && Leads(ASSET_MERGER, xs, r) && AssetKey(xs[r]) == AssetKey(xs[p])
      && AssetHost(xs[r]) == AssetHost(xs[p])
    {
      OneLeader(xs, q, r);
    }
  }

  ghost predicate ServicesResolve(assets: seq<Asset>, services: seq<Service>) {
    forall j :: 0 <= j < |services| ==> NamesOne(assets, services[j].assetId)
  }

  /** The reported services resolve if and only if, for each record that is the first with its service
      key, the first asset with its asset key has its host. */
  lemma ResolveIff(h: Hash, taskId: string, b: Batch)
    requires Injective(h) && Collected(h, taskId, b)
    ensures ServicesResolve(Dedupe(ASSET_MERGER, b.assets), Dedupe(SERVICE_MERGER, b.services)) <==>
            (forall p: nat :: Leads(SERVICE_MERGER, b.services, p) ==> HostLeads(b.assets, p))
  {
    var assets, services := Dedupe(ASSET_MERGER, b.assets), Dedupe(SERVICE_MERGER, b.services);
    ServiceMergerLawful();
    if ServicesResolve(assets, services) {
      forall p: nat | Leads(SERVICE_MERGER, b.services, p) ensures HostLeads(b.assets, p) {
        var j := LeaderHasEntry(SERVICE_MERGER, b.services, p);
        ServiceIdentity(Group(SERVICE_MERGER, b.services, ServiceKey(b.services[p])));
        assert NamesOne(assets, services[j].assetId);
        HostLeadsIff(h, taskId, b.assets, p);
      }
    }
    if forall p: nat :: Leads(SERVICE_MERGER, b.services, p) ==> HostLeads(b.assets, p) {
      forall j | 0 <= j < |services| ensures NamesOne(assets, services[j].assetId) {
        var p := EntryHasLeader(SERVICE_MERGER, b.services, j);
        ServiceIdentity(Group(SERVICE_MERGER, b.services, ServiceKey(b.services[p])));
        HostLeadsIff(h, taskId, b.assets, p);
      }
    }
  }

  /** Over a whole run, exactly. */
  lemma ReferencesResolveIff(h: Hash, taskId: string, plans: seq<Plan>, provider: Provider)
    requires Injective(h) && PlannedIds(plans) && Execute(h, taskId, plans, provider).Ok?
    ensures var r, b := Execute(h, taskId, plans, provider).value, Run(h, taskId, plans, provider).value.batch;
            && |b.assets| == |b.services|
            && (ServicesResolve(r.assets, r.services) <==>
                  (forall p: nat :: Leads(SERVICE_MERGER, b.services, p) ==> HostLeads(b.assets, p)))
  {
    RunsCollect(h, taskId, plans, provider);
    ResolveIff(h, taskId, Run(h, taskId, plans, provider).value.batch);
  }

  /** Every reported service refers to exactly one reported asset, unless the run has both a row without
      host and IP and a row whose host or IP is the id generated for such rows. */
  lemma ReferencesResolve(h: Hash, taskId: string, plans: seq<Plan>, provider: Provider)
    requires Injective(h) && PlannedIds(plans) && Execute(h, taskId, plans, provider).Ok?
    requires var assets := Run(h, taskId, plans, provider).value.batch.assets;
             !(HasHost(assets, "") && HasHost(assets, AssetId(h, taskId, "")))
    ensures var r := Execute(h, taskId, plans, provider).value; ServicesResolve(r.assets, r.services)
  {
    var b := Run(h, taskId, plans, provider).value.batch;
    RunsCollect(h, taskId, plans, provider);
    AllNamedIff(h, taskId, b.assets);
    forall p: nat | Leads(SERVICE_MERGER, b.services, p) ensures HostLeads(b.assets, p) {
      HostLeadsIff(h, taskId, b.assets, p);
    }
    ResolveIff(h, taskId, b);
  }

  lemma BlankLeads(h: Hash, taskId: string, xs: seq<Asset>, i: nat, p: nat)
    requires Injective(h) && IdsFromHosts(h, taskId, xs) && Leads(ASSET_MERGER, xs, i) && AssetHost(xs[i]) == ""
    requires p < |xs| && AssetHost(xs[p]) == AssetId(h, taskId, "")
    ensures !HostLeads(xs, p)
  {
    assert IdFromHost(h, taskId, xs[i]) && IdFromHost(h, taskId, xs[p]);
    SharedKey(h, taskId, xs[i], xs[p]);
    NamedIff(h, taskId, xs, p, i);
    HostLeadsIff(h, taskId, xs, p);
    assert AssetId(h, taskId, "") != "";
  }

  /** In any run whose first row with that asset key has neither host nor IP, the service of a later row
      whose host is the generated id dangles, if it is the first with its service key. */
  lemma BlankFirstDangles(h: Hash, taskId: string, plans: seq<Plan>, provider: Provider, b: Batch, i: nat, p: nat)
    requires Injective(h) && PlannedIds(plans) && Execute(h, taskId, plans, provider).Ok?
    requires b == Run(h, taskId, plans, provider).value.batch
    requires Leads(ASSET_MERGER, b.assets, i) && AssetHost(b.assets[i]) == ""
    requires p < |b.assets| && AssetHost(b.assets[p]) == AssetId(h, taskId, "") && Leads(SERVICE_MERGER, b.services, p)
    ensures var r := Execute(h, taskId, plans, provider).value; !ServicesResolve(r.assets, r.services)
  {
    RunsCollect(h, taskId, plans, provider);
    BlankLeads(h, taskId, b.assets, i, p);
    ReferencesResolveIff(h, taskId, plans, provider);
  }

  const BLANK_ROW :=
    Row(None, None, None, NoPort, None, None, None, None, None, None, None, None, false, NoConfidence, 0.5)

  /** Every fetch returns these rows. */
  function Returning(rows: seq<Row>): Provider { (p: Plan) => Rows(rows) }

  function GeneratedHostRows(h: Hash, taskId: string): seq<Row> {
    [BLANK_ROW, BLANK_ROW.(host := Some(AssetId(h, taskId, "")))]
  }

  /** The smallest such run: a row without host and IP, then one whose host is the id the first got. */
  lemma GeneratedHostDangles(h: Hash, taskId: string, plan: Plan)
    requires Injective(h)
    ensures var r := Execute(h, taskId, [plan], Returning(GeneratedHostRows(h, taskId)));
            && r.Ok? && |r.value.services| == 2 && |r.value.assets| == 1
            && r.value.services[1].assetId != r.value.assets[0].assetId
  {
    var a, b := TwoRows(h, taskId, plan);
    RunOne(h, taskId, plan, GeneratedHostRows(h, taskId));
    DistinctServiceKeys(h, taskId, a.service, b.service);
    TwoRecords(h, taskId, a, b);
  }

  /** The records of the two rows. */
  lemma TwoRows(h: Hash, taskId: string, plan: Plan) returns (a: Record, b: Record)
    ensures Normalize(h, taskId, plan, GeneratedHostRows(h, taskId)) ==
            Ok(Batch([a.asset, b.asset], [a.service, b.service], [a.evidence, b.evidence]))
    ensures a.asset.assetId == AssetId(h, taskId, "") && AssetHost(a.asset) == ""
    ensures HostText(a.service.domain, a.service.ip) == "" && b.service.domain == Some(AssetId(h, taskId, ""))
    ensures b.asset.domain == Some(AssetId(h, taskId, "")) && IdFromHost(h, taskId, b.asset)
    ensures b.service.assetId == b.asset.assetId
  {
    a := BlankRecord(h, taskId, plan);
    b := HostedRecord(h, taskId, plan);
    NormalizeTwo(h, taskId, plan, BLANK_ROW, BLANK_ROW.(host := Some(AssetId(h, taskId, ""))));
    TwoAdded(a, b);
  }

  lemma BlankRecord(h: Hash, taskId: string, plan: Plan) returns (a: Record)
    ensures a == RecordOf(h, taskId, plan, 1, BLANK_ROW, 0)
    ensures a.asset.assetId == AssetId(h, taskId, "") && AssetHost(a.asset) == ""
    ensures HostText(a.service.domain, a.service.ip) == ""
  {
    a := RecordOf(h, taskId, plan, 1, BLANK_ROW, 0);
  }

  lemma HostedRecord(h: Hash, taskId: string, plan: Plan) returns (b: Record)
    ensures b == RecordOf(h, taskId, plan, 2, BLANK_ROW.(host := Some(AssetId(h, taskId, ""))), 0)
    ensures b.asset.domain == Some(AssetId(h, taskId, "")) == b.service.domain && IdFromHost(h, taskId, b.asset)
    ensures b.service.assetId == b.asset.assetId
  {
    b := RecordOf(h, taskId, plan, 2, BLANK_ROW.(host := Some(AssetId(h, taskId, ""))), 0);
  }

  lemma NormalizeTwo(h: Hash, taskId: string, plan: Plan, x: Row, y: Row)
    requires RowError(x).None? && x.port.NoPort? && RowError(y).None? && y.port.NoPort?
    ensures Normalize(h, taskId, plan, [x, y]) ==
            Ok(AddRecord(AddRecord(Batch([], [], []), RecordOf(h, taskId, plan, 1, x, 0)),
                         RecordOf(h, taskId, plan, 2, y, 0)))
  {
    NormalizeMore(h, taskId, plan, [], x);
    NormalizeMore(h, taskId, plan, [x], y);
    assert [] + [x] == [x] && [x] + [y] == [x, y];
  }

  lemma TwoAdded(a: Record, b: Record)
    ensures AddRecord(AddRecord(Batch([], [], []), a), b) ==
            Batch([a.asset, b.asset], [a.service, b.service], [a.evidence, b.evidence])
  {
  }

  lemma NormalizeMore(h: Hash, taskId: string, plan: Plan, rows: seq<Row>, row: Row)
    requires Normalize(h, taskId, plan, rows).Ok? && RowError(row).None? && row.port.NoPort?
    ensures var b, r := Normalize(h, taskId, plan, rows).value, RecordOf(h, taskId, plan, |rows| + 1, row, 0);
            Normalize(h, taskId, plan, rows + [row]) == Ok(AddRecord(b, r))
  {
    assert (rows + [row])[..|rows|] == rows;
  }

  lemma RunOne(h: Hash, taskId: string, plan: Plan, rows: seq<Row>)
    requires Normalize(h, taskId, plan, rows).Ok?
    ensures Run(h, taskId, [plan], Returning(rows)) == Ok(Progress(Normalize(h, taskId, plan, rows).value, [], 1))
  {
    var b := Normalize(h, taskId, plan, rows).value;
    assert [plan][..0] == [];
    assert JoinBatches(Batch([], [], []), b) == b;
  }

  lemma DistinctServiceKeys(h: Hash, taskId: string, s: Service, t: Service)
    requires HostText(s.domain, s.ip) == "" && t.domain == Some(AssetId(h, taskId, ""))
    ensures ServiceKey(s) != ServiceKey(t)
  {
    assert ServiceKey(s)[0] == 'u';
    assert ServiceKey(t)[0] == 'a';
  }

  lemma TwoRecords(h: Hash, taskId: string, a: Record, b: Record)
    requires Injective(h)
    requires a.asset.assetId == AssetId(h, taskId, "") && AssetHost(a.asset) == ""
    requires b.asset.domain == Some(AssetId(h, taskId, "")) && IdFromHost(h, taskId, b.asset)
    requires b.service.assetId == b.asset.assetId && ServiceKey(a.service) != ServiceKey(b.service)
    ensures Dedupe(ASSET_MERGER, [a.asset, b.asset]) == [MergeAssets(a.asset, b.asset)]
    ensures Dedupe(SERVICE_MERGER, [a.service, b.service]) == [a.service, b.service]
    ensures b.service.assetId != a.asset.assetId
  {
    assert [a.asset, b.asset][..1] == [a.asset] && [a.service, b.service][..1] == [a.service];
    InsertOne(ASSET_MERGER, [], a.asset);
    InsertOne(SERVICE_MERGER, [], a.service);
    assert [a.service][1..] == [] && [a.asset][1..] == [];
    assert [a.service] + [b.service] == [a.service, b.service];
    assert Insert(SERVICE_MERGER, [], b.service) == [b.service];
    if b.service.assetId == a.asset.assetId {
      AssetIdsInjective(h, taskId, AssetId(h, taskId, ""), "");
    }
  }
}
