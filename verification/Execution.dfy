/** Running a plan list against a provider and reporting what was found. */
module Execution {
  import opened Text
  import opened Models
  import opened KeyedMerge
  import opened Dedup
  import opened QueryPlanner
  import opened Normalizer

  datatype Status = Queued | Running | Retrying | Success | PartialSuccess | FailedStatus | Cancelled

  datatype TaskError = TaskError(queryType: string, sourceQuery: string, message: string, recoverable: bool,
      code: Option<string>)

  /** The provider, one `fetch` per plan. */
  type Provider = Plan -> Fetched

  datatype Quota = Quota(planned: nat, completed: nat, failed: nat, plannedPages: int, consumedPages: nat,
      resultCount: nat)

  datatype Report = Report(status: Status, errors: seq<TaskError>, quota: Quota,
                           assets: seq<Asset>, services: seq<Service>, evidences: seq<Evidence>)

  // ---------- the loop over plans ----------

  datatype Progress = Progress(batch: Batch, errors: seq<TaskError>, completed: nat)

  function JoinBatches(a: Batch, b: Batch): Batch {
    Batch(a.assets + b.assets, a.services + b.services, a.evidences + b.evidences)
  }

  function ErrorOf(plan: Plan, message: string, recoverable: bool, code: Option<string>): TaskError {
    TaskError(plan.queryType, plan.sourceQuery, message, recoverable, code)
  }

  /** A provider error is recorded and the loop goes on; an unreadable row ends the run. */
  function Collect(h: Hash, taskId: string, p: Progress, plan: Plan, fetched: Fetched): Result<Progress> {
    match fetched
    case Failed(message, recoverable, code) => Ok(p.(errors := p.errors + [ErrorOf(plan, message, recoverable, code)]))
    case Rows(rows) =>
      match Normalize(h, taskId, plan, rows)
      case Raised(e) => Raised(e)
      case Ok(b) => Ok(p.(batch := JoinBatches(p.batch, b), completed := p.completed + 1))
  }

  function Run(h: Hash, taskId: string, plans: seq<Plan>, provider: Provider): Result<Progress> {
    if plans == [] then Ok(Progress(Batch([], [], []), [], 0))
    else match Run(h, taskId, plans[..|plans| - 1], provider)
      case Raised(e) => Raised(e)
      case Ok(p) => Collect(h, taskId, p, plans[|plans| - 1], provider(plans[|plans| - 1]))
  }

  lemma OnePlanMore(h: Hash, taskId: string, plans: seq<Plan>, provider: Provider, n: nat, p: Progress)
    requires n < |plans| && Run(h, taskId, plans[..n], provider) == Ok(p)
    ensures Run(h, taskId, plans[..n + 1], provider) == Collect(h, taskId, p, plans[n], provider(plans[n]))
  {
    assert plans[..n + 1][..n] == plans[..n];
  }

  function StatusFor(completed: nat, errors: seq<TaskError>): Status {
    if errors != [] && completed > 0 then PartialSuccess
    else if errors != [] then FailedStatus
    else Success
  }

  function PageSum(plans: seq<Plan>): int {
    if plans == [] then 0 else PageSum(plans[..|plans| - 1]) + plans[|plans| - 1].pageLimit
  }

  function Execute(h: Hash, taskId: string, plans: seq<Plan>, provider: Provider): Result<Report> {
    match Run(h, taskId, plans, provider)
    case Raised(e) => Raised(e)
    case Ok(p) =>
      Ok(Report(StatusFor(p.completed, p.errors), p.errors,
                Quota(|plans|, p.completed, |p.errors|, PageSum(plans), p.completed, |p.batch.evidences|),
                Dedupe(ASSET_MERGER, p.batch.assets), Dedupe(SERVICE_MERGER, p.batch.services), p.batch.evidences))
  }

  lemma {:induction false} RaisedPlansStay(h: Hash, taskId: string, plans: seq<Plan>, provider: Provider, n: nat)
    requires n <= |plans| && Run(h, taskId, plans[..n], provider).Raised?
    ensures Run(h, taskId, plans, provider) == Run(h, taskId, plans[..n], provider)
    decreases |plans|
  {
    if n == |plans| {
      assert plans[..n] == plans;
    } else {
      assert plans[..|plans| - 1][..n] == plans[..n];
      RaisedPlansStay(h, taskId, plans[..|plans| - 1], provider, n);
    }
  }

  method ExecuteWithClient(h: Hash, taskId: string, plans: seq<Plan>, provider: Provider) returns (r: Result<Report>)
    ensures r == Execute(h, taskId, plans, provider)
  {
    var batch, errors, completed := Batch([], [], []), [], 0;
    for n := 0 to |plans|
      invariant completed >= 0 && Run(h, taskId, plans[..n], provider) == Ok(Progress(batch, errors, completed))
    {
      var fetched := provider(plans[n]);
      OnePlanMore(h, taskId, plans, provider, n, Progress(batch, errors, completed));
      if fetched.Failed? {
        errors := errors + [ErrorOf(plans[n], fetched.message, fetched.recoverable, fetched.code)];
      } else {
        var more := NormalizeFofaResults(h, taskId, plans[n], fetched.rows);
        if more.Raised? {
          RaisedPlansStay(h, taskId, plans, provider, n + 1);
          return Raised(more.message);
        }
        completed := completed + 1;
        batch := JoinBatches(batch, more.value);
      }
    }
    assert plans[..|plans|] == plans;
    var assets := DeduplicateAssets(batch.assets);
    var services := DeduplicateServices(batch.services);
    var quota := Quota(|plans|, completed, |errors|, PageSum(plans), completed, |batch.evidences|);
    return Ok(Report(StatusFor(completed, errors), errors, quota, assets, services, batch.evidences));
  }

  // ---------- what the loop collects ----------

  /** Evidence ids in the order their rows were read. */
  function IdsOf(es: seq<Evidence>): (ids: seq<string>)
    ensures |ids| == |es|
  {
    seq(|es|, i requires 0 <= i < |es| => es[i].evidenceId)
  }

  ghost predicate DistinctIds(es: seq<Evidence>) {
    forall i, j :: 0 <= i < j < |es| ==> es[i].evidenceId != es[j].evidenceId
  }

  /** Plans as the planner numbers them. */
  ghost predicate PlannedIds(plans: seq<Plan>) {
    forall i :: 0 <= i < |plans| ==> plans[i].planId == PlanId(i + 1)
  }

  /** Each evidence comes from one of the first `n` plans. */
  ghost predicate FromPlans(es: seq<Evidence>, n: nat) {
    forall i :: 0 <= i < |es| ==> FromPlan(es[i], n)
  }

  ghost predicate FromPlan(e: Evidence, n: nat) {
    exists k: nat :: 1 <= k <= n && e.planId == PlanId(k)
  }

  lemma {:induction false} RunCollects(h: Hash, taskId: string, plans: seq<Plan>, provider: Provider)
    requires Injective(h) && PlannedIds(plans) && Run(h, taskId, plans, provider).Ok?
    ensures var p := Run(h, taskId, plans, provider).value;
            && p.completed + |p.errors| == |plans|
            && AlignedLists(h, taskId, p.batch) && DistinctIds(p.batch.evidences)
            && FromPlans(p.batch.evidences, |plans|)
  {
    if plans != [] {
      var front, plan := plans[..|plans| - 1], plans[|plans| - 1];
      RunCollects(h, taskId, front, provider);
      var p := Run(h, taskId, front, provider).value;
      if provider(plan).Rows? {
        var b := Normalize(h, taskId, plan, provider(plan).rows).value;
        BatchIsAligned(h, taskId, plan, provider(plan).rows);
        JoinAligned(h, taskId, p.batch, b);
        JoinDistinct(h, taskId, p.batch, b, |plans|);
      } else {
        WiderRange(p.batch.evidences, |front|, |plans|);
      }
    }
  }

  lemma WiderRange(es: seq<Evidence>, m: nat, n: nat)
    requires FromPlans(es, m) && m <= n
    ensures FromPlans(es, n)
  {
    forall i | 0 <= i < |es| ensures FromPlan(es[i], n) {
      assert FromPlan(es[i], m);
    }
  }

  lemma JoinAligned(h: Hash, taskId: string, a: Batch, b: Batch)
    requires AlignedLists(h, taskId, a) && AlignedLists(h, taskId, b)
    ensures AlignedLists(h, taskId, JoinBatches(a, b))
  {
  }

  lemma JoinDistinct(h: Hash, taskId: string, a: Batch, b: Batch, n: nat)
    requires Injective(h) && n >= 1
    requires AlignedLists(h, taskId, a) && DistinctIds(a.evidences) && FromPlans(a.evidences, n - 1)
    requires AlignedLists(h, taskId, b)
    requires forall i :: 0 <= i < |b.evidences| ==> b.evidences[i].planId == PlanId(n) && b.evidences[i].index == i + 1
    ensures DistinctIds(JoinBatches(a, b).evidences) && FromPlans(JoinBatches(a, b).evidences, n)
  {
    var es := JoinBatches(a, b).evidences;
    forall i, j | 0 <= i < j < |es| ensures es[i].evidenceId != es[j].evidenceId {
      if j >= |a.evidences| {
        var f := b.evidences[j - |a.evidences|];
        assert es[j] == f && Aligned(h, taskId, b.assets[j - |a.evidences|], b.services[j - |a.evidences|], f);
        if i < |a.evidences| {
          assert Aligned(h, taskId, a.assets[i], a.services[i], a.evidences[i]);
          assert FromPlan(a.evidences[i], n - 1);
          var k: nat :| 1 <= k <= n - 1 && a.evidences[i].planId == PlanId(k);
          if es[i].evidenceId == es[j].evidenceId {
            EvidenceIdsInjective(h, taskId, k, es[i].index, n, f.index);
          }
        } else {
          var e := b.evidences[i - |a.evidences|];
          assert Aligned(h, taskId, b.assets[i - |a.evidences|], b.services[i - |a.evidences|], e);
          if es[i].evidenceId == es[j].evidenceId {
            EvidenceIdsInjective(h, taskId, n, e.index, n, f.index);
          }
        }
      }
    }
    forall i | 0 <= i < |es| ensures FromPlan(es[i], n) {
      if i < |a.evidences| {
        assert FromPlan(a.evidences[i], n - 1);
      } else {
        assert es[i].planId == PlanId(n);
      }
    }
  }

  // ---------- what deduplication does to evidence ----------

  /** The ids of `lists` are exactly `ids`, each in one list and once. */
  ghost predicate Partitions(lists: seq<seq<string>>, ids: seq<string>) {
    && (forall id :: id in ids <==> exists i :: 0 <= i < |lists| && id in lists[i])
    && (forall i, j, id :: 0 <= i < j < |lists| && id in lists[i] ==> id !in lists[j])
    && (forall i, a, b :: 0 <= i < |lists| && 0 <= a < b < |lists[i]| ==> lists[i][a] != lists[i][b])
  }

  /** Merging unites evidence ids. */
  ghost predicate UnitesIds<T(!new)>(m: Merger<T>, ids: T -> seq<string>) {
    && (forall x, y :: ids(m.merge(x, y)) == MergeUnique(ids(x), ids(y)))
  }

  lemma {:induction false} UnitedIds<T(!new)>(m: Merger<T>, ids: T -> seq<string>, group: seq<T>)
    requires UnitesIds(m, ids) && group != [] && forall i :: 0 <= i < |group| ==> |ids(group[i])| == 1
    ensures forall id :: id in ids(MergeAll(m, group)) <==> exists i :: 0 <= i < |group| && id in ids(group[i])
    ensures var r := ids(MergeAll(m, group)); forall a, b :: 0 <= a < b < |r| ==> r[a] != r[b]
  {
    if |group| > 1 {
      var front, last := group[..|group| - 1], group[|group| - 1];
      UnitedIds(m, ids, front);
      UniqueMembers(ids(MergeAll(m, front)) + ids(last));
      assert forall i :: 0 <= i < |front| ==> front[i] == group[i];
    }
  }

  function ListsOf<T>(ids: T -> seq<string>, xs: seq<T>): (ls: seq<seq<string>>)
    ensures |ls| == |xs|
    ensures forall i :: 0 <= i < |xs| ==> ls[i] == ids(xs[i])
  {
    seq(|xs|, i requires 0 <= i < |xs| => ids(xs[i]))
  }

  /** Some record of key `k` carries `id`. */
  ghost predicate Carries<T(!new)>(m: Merger<T>, xs: seq<T>, all: seq<string>, k: string, id: string)
    requires |all| == |xs|
  {
    exists p :: 0 <= p < |xs| && all[p] == id && m.key(xs[p]) == k
  }

  /** `list` holds the ids carried by the records of key `k`, each once. */
  ghost predicate ListsKey<T(!new)>(m: Merger<T>, xs: seq<T>, all: seq<string>, k: string, list: seq<string>)
    requires |all| == |xs|
  {
    && (forall id :: id in list <==> Carries(m, xs, all, k, id))
    && (forall a, b :: 0 <= a < b < |list| ==> list[a] != list[b])
  }

  /** Records carrying one id each, all different: deduplication distributes the ids over its
      entries, each to exactly one. */
  lemma DedupePartitionsIds<T(!new)>(m: Merger<T>, ids: T -> seq<string>, xs: seq<T>, all: seq<string>)
    requires Lawful(m) && UnitesIds(m, ids)
    requires |all| == |xs| && forall i :: 0 <= i < |xs| ==> ids(xs[i]) == [all[i]]
    requires forall i, j :: 0 <= i < j < |all| ==> all[i] != all[j]
    ensures Partitions(ListsOf(ids, Dedupe(m, xs)), all)
  {
    var entries := Dedupe(m, xs);
    DedupeIsGroupMerge(m, xs);
    InsertAllKeepsDistinct(m, [], xs);
    forall i | 0 <= i < |entries| ensures ListsKey(m, xs, all, m.key(entries[i]), ids(entries[i])) {
      IdsOfEntry(m, ids, xs, all, m.key(entries[i]));
    }
    forall p | 0 <= p < |xs| ensures HasKey(m, entries, m.key(xs[p])) {
      assert HasKey(m, xs, m.key(xs[p]));
    }
    KeyedListsPartition(m, xs, all, entries, ListsOf(ids, entries));
  }

  lemma CarriedOnce<T(!new)>(m: Merger<T>, xs: seq<T>, all: seq<string>, k: string, l: string, id: string)
    requires |all| == |xs| && forall i, j :: 0 <= i < j < |all| ==> all[i] != all[j]
    requires Carries(m, xs, all, k, id) && Carries(m, xs, all, l, id)
    ensures k == l
  {
    var p :| 0 <= p < |xs| && all[p] == id && m.key(xs[p]) == k;
    var q :| 0 <= q < |xs| && all[q] == id && m.key(xs[q]) == l;
    assert p == q;
  }

  lemma KeyedListsPartition<T(!new)>(m: Merger<T>, xs: seq<T>, all: seq<string>, entries: seq<T>,
      lists: seq<seq<string>>)
    requires |all| == |xs| && |lists| == |entries| && DistinctKeys(m, entries)
    requires forall i, j :: 0 <= i < j < |all| ==> all[i] != all[j]
    requires forall i :: 0 <= i < |entries| ==> ListsKey(m, xs, all, m.key(entries[i]), lists[i])
    requires forall p :: 0 <= p < |xs| ==> HasKey(m, entries, m.key(xs[p]))
    ensures Partitions(lists, all)
  {
    forall id ensures id in all <==> exists i :: 0 <= i < |lists| && id in lists[i] {
      if id in all {
        var p :| 0 <= p < |all| && all[p] == id;
        var i :| 0 <= i < |entries| && m.key(entries[i]) == m.key(xs[p]);
        assert Carries(m, xs, all, m.key(entries[i]), id);
        assert id in lists[i];
      }
      if i :| 0 <= i < |lists| && id in lists[i] {
        assert Carries(m, xs, all, m.key(entries[i]), id);
      }
    }
    forall i, j, id | 0 <= i < j < |lists| && id in lists[i] ensures id !in lists[j] {
      if id in lists[j] {
        CarriedOnce(m, xs, all, m.key(entries[i]), m.key(entries[j]), id);
        assert false;
      }
    }
  }

  lemma IdsOfEntry<T(!new)>(m: Merger<T>, ids: T -> seq<string>, xs: seq<T>, all: seq<string>, k: string)
    requires UnitesIds(m, ids) && Group(m, xs, k) != []
    requires |all| == |xs| && forall i :: 0 <= i < |xs| ==> ids(xs[i]) == [all[i]]
    ensures ListsKey(m, xs, all, k, ids(MergeAll(m, Group(m, xs, k))))
  {
    var g := Group(m, xs, k);
    GroupMembers(m, xs, k);
    forall i | 0 <= i < |g| ensures exists p :: 0 <= p < |xs| && g[i] == xs[p] && m.key(xs[p]) == k {
      assert g[i] in g;
    }
    UnitedIds(m, ids, g);
    forall id ensures id in ids(MergeAll(m, g)) <==> Carries(m, xs, all, k, id) {
      if Carries(m, xs, all, k, id) {
        var p :| 0 <= p < |xs| && all[p] == id && m.key(xs[p]) == k;
        assert xs[p] in g;
      }
    }
  }

  // ---------- main results ----------

  function AssetIds(): Asset -> seq<string> { (a: Asset) => a.evidenceIds }

  function ServiceIds(): Service -> seq<string> { (s: Service) => s.evidenceIds }

  /** Over any plans, rows and fetch failures: every plan is completed or failed, evidence ids are
      all different, and each is in exactly one reported asset and one reported service, once. */
  lemma EvidenceIsPartitioned(h: Hash, taskId: string, plans: seq<Plan>, provider: Provider)
    requires Injective(h) && PlannedIds(plans) && Execute(h, taskId, plans, provider).Ok?
    ensures var r := Execute(h, taskId, plans, provider).value;
            && r.quota.completed + r.quota.failed == r.quota.planned == |plans|
            && DistinctIds(r.evidences)
            && Partitions(ListsOf(AssetIds(), r.assets), IdsOf(r.evidences))
            && Partitions(ListsOf(ServiceIds(), r.services), IdsOf(r.evidences))
  {
    RunCollects(h, taskId, plans, provider);
    var b := Run(h, taskId, plans, provider).value.batch;
    AssetMergerLawful();
    ServiceMergerLawful();
    assert forall i :: 0 <= i < |b.assets| ==> Aligned(h, taskId, b.assets[i], b.services[i], b.evidences[i]);
    DedupePartitionsIds(ASSET_MERGER, AssetIds(), b.assets, IdsOf(b.evidences));
    DedupePartitionsIds(SERVICE_MERGER, ServiceIds(), b.services, IdsOf(b.evidences));
  }
}
