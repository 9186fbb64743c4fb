/** From seeds to a report: safety checks, the plan list with its budgets, and the run. */
module Workflow {
  import opened Text
  import opened Models
  import opened QueryPlanner
  import opened Normalizer
  import opened Execution
  import opened Networks
  import opened ScopeGuard

  /** Text checks the model leaves to its environment: the domain pattern and the address parser. */
  datatype Rules = Rules(validDomain: string -> bool, parse: AddressParser)

  /** Everything outside the program that an execution depends on. */
  datatype Env = Env(hash: Hash, provider: Provider, rules: Rules)

  const MAX_SEED_COUNT := 20
  const MIN_IPV4_PREFIX := 24
  const MAX_TOTAL_PAGES := 30
  const MAX_RESULT_LIMIT_PER_PLAN := 1000

  // ---------- seeds ----------

  function CheckSeed(rules: Rules, seed: Seed): Option<string> {
    var value := Strip(seed.value);
    if seed.note.None? || Strip(seed.note.value) == "" then Some("Seed must include authorization_note")
    else if value == "" then Some("Seed value is empty")
    else match seed.kind
      case RootDomain => if rules.validDomain(value) then None else Some("Seed is not a valid domain")
      case EmailDomain => if rules.validDomain(value) then None else Some("Seed is not a valid domain")
      case OrganizationName => if |value| < 3 then Some("Seed organization name is too short") else None
      case IpCidr =>
        (match rules.parse(value)
         case None => Some("Seed is not a valid IP CIDR")
         case Some(n) => if n.v4 && n.prefix < MIN_IPV4_PREFIX then Some("Seed IP range is too broad") else None)
      case OtherKind(_) => Some("Unsupported seed type")
  }

  function FirstSeedError(rules: Rules, seeds: seq<Seed>): Option<string> {
    if seeds == [] then None
    else match CheckSeed(rules, seeds[0])
      case Some(e) => Some(e)
      case None => FirstSeedError(rules, seeds[1..])
  }

  function ValidateSeeds(rules: Rules, seeds: seq<Seed>): Option<string> {
    if |seeds| > MAX_SEED_COUNT then Some("Seed count exceeds limit") else FirstSeedError(rules, seeds)
  }

  // ---------- plans ----------

  function BuildQueryPlans(taskId: string, seeds: seq<Seed>, strategy: Strategy, maxPlans: int, pageLimit: int,
      resultLimit: int)
    : Result<seq<Plan>>
  {
    match PlanQueries(taskId, seeds, pageLimit, resultLimit, strategy)
    case Raised(e) => Raised(e)
    case Ok(plans) => if |plans| > maxPlans then Raised("exceeding query plan budget") else Ok(plans)
  }

  function EnforcePlanQuota(plans: seq<Plan>): Option<string> {
    if PageSum(plans) > MAX_TOTAL_PAGES then Some("Query plan exceeds page budget")
    else if exists i :: 0 <= i < |plans| && plans[i].resultLimit > MAX_RESULT_LIMIT_PER_PLAN
    then Some("Query plan result limit exceeds maximum")
    else None
  }

  lemma {:induction false} OnePageEach(plans: seq<Plan>)
    requires forall i :: 0 <= i < |plans| ==> plans[i].pageLimit == 1
    ensures PageSum(plans) == |plans|
  {
    if plans != [] {
      OnePageEach(plans[..|plans| - 1]);
    }
  }

  /** For one-page plans the quota is exactly: at most 30 plans, each asking for at most 1000 rows. */
  lemma QuotaIsExact(taskId: string, seeds: seq<Seed>, strategy: Strategy, maxPlans: int, resultLimit: int)
    requires BuildQueryPlans(taskId, seeds, strategy, maxPlans, 1, resultLimit).Ok?
    ensures var plans := BuildQueryPlans(taskId, seeds, strategy, maxPlans, 1, resultLimit).value;
            EnforcePlanQuota(plans) == None <==> |plans| <= 30 && (plans == [] || resultLimit <= 1000)
  {
    var plans := BuildQueryPlans(taskId, seeds, strategy, maxPlans, 1, resultLimit).value;
    PlansAreNumbered(taskId, seeds, 1, resultLimit, strategy);
    OnePageEach(plans);
    if plans != [] && resultLimit > 1000 {
      assert plans[0].resultLimit > MAX_RESULT_LIMIT_PER_PLAN;
    }
  }

  // ---------- the run ----------

  function RunDiscovery(env: Env, taskId: string, seeds: seq<Seed>, strategy: Strategy, maxPlans: int, pageLimit: int,
      resultLimit: int)
    : Result<Report>
  {
    match ValidateSeeds(env.rules, seeds)
    case Some(e) => Raised(e)
    case None =>
      match BuildQueryPlans(taskId, seeds, strategy, maxPlans, pageLimit, resultLimit)
      case Raised(e) => Raised(e)
      case Ok(plans) =>
        match EnforcePlanQuota(plans)
        case Some(e) => Raised(e)
        case None => Execute(env.hash, taskId, plans, env.provider)
  }

  method RunDiscoveryFromSeeds(env: Env, taskId: string, seeds: seq<Seed>, strategy: Strategy, maxPlans: int,
      pageLimit: int, resultLimit: int)
    returns (r: Result<Report>)
    ensures r == RunDiscovery(env, taskId, seeds, strategy, maxPlans, pageLimit, resultLimit)
  {
    var unsafe := ValidateSeeds(env.rules, seeds);
    if unsafe.Some? {
      return Raised(unsafe.value);
    }
    var planned := PlanFofaQueries(taskId, seeds, pageLimit, resultLimit, strategy);
    if planned.Raised? {
      return Raised(planned.message);
    }
    if |planned.value| > maxPlans {
      return Raised("exceeding query plan budget");
    }
    var tooMuch := EnforcePlanQuota(planned.value);
    if tooMuch.Some? {
      return Raised(tooMuch.value);
    }
    r := ExecuteWithClient(env.hash, taskId, planned.value, env.provider);
  }

  /** A discovery run that succeeds reports on the whole plan list: evidence is partitioned over the
      assets and over the services, whatever the provider answered. */
  lemma DiscoveryPartitionsEvidence(env: Env, taskId: string, seeds: seq<Seed>, strategy: Strategy, maxPlans: int,
      pageLimit: int, resultLimit: int)
    requires Injective(env.hash)
    requires RunDiscovery(env, taskId, seeds, strategy, maxPlans, pageLimit, resultLimit).Ok?
    ensures var r := RunDiscovery(env, taskId, seeds, strategy, maxPlans, pageLimit, resultLimit).value;
            && r.quota.completed + r.quota.failed == r.quota.planned == TotalCount(strategy, seeds)
            && DistinctIds(r.evidences)
            && Partitions(ListsOf(AssetIds(), r.assets), IdsOf(r.evidences))
            && Partitions(ListsOf(ServiceIds(), r.services), IdsOf(r.evidences))
  {
    var plans := BuildQueryPlans(taskId, seeds, strategy, maxPlans, pageLimit, resultLimit).value;
    PlansAreNumbered(taskId, seeds, pageLimit, resultLimit, strategy);
    EvidenceIsPartitioned(env.hash, taskId, plans, env.provider);
  }

  /** What the run reports when there are no seeds at all. */
  const NOTHING_FOUND := Report(Success, [], Quota(0, 0, 0, 0, 0, 0), [], [], [])

  lemma NoSeedsSucceed(env: Env, taskId: string, strategy: Strategy, maxPlans: int, pageLimit: int, resultLimit: int)
    requires !strategy.OtherStrategy? && maxPlans >= 0
    ensures RunDiscovery(env, taskId, [], strategy, maxPlans, pageLimit, resultLimit) == Ok(NOTHING_FOUND)
  {
    assert PlanQueries(taskId, [], pageLimit, resultLimit, strategy) == Ok([]);
    assert EnforcePlanQuota([]) == None;
  }
}
