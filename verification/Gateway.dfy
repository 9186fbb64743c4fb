/** Task creation at the gateway, the task store, and the plans a worker rebuilds from it. */
module Gateway {
  import opened Text
  import opened Items
  import opened Models
  import opened QueryPlanner
  import opened Execution
  import opened ScopeGuard
  import opened Workflow
  import opened SqliteQueue

  datatype StoredRequest = StoredRequest(acceptedScope: Scope, engines: seq<string>, resultLimit: int,
      strategy: Strategy, maxQueryPlans: int)

  /** A stored task: as queued it carries the request; as stored after a run it carries the report. */
  datatype Payload = Payload(item: Item, status: Status, errors: seq<TaskError>,
                             request: Option<StoredRequest>, note: Option<string>, report: Option<Report>)

  type Tasks = map<Item, Payload>

  class TaskRepository {
    var tasks: Tasks

    constructor ()
      ensures tasks == map[]
    {
      tasks := map[];
    }

    /** Create and update are the same upsert. */
    method Update(payload: Payload)
      modifies this
      ensures tasks == old(tasks)[payload.item := payload]
    {
      tasks := tasks[payload.item := payload];
    }

    method Load(item: Item) returns (r: Option<Payload>)
      ensures r == if item in tasks then Some(tasks[item]) else None
    {
      r := if item in tasks then Some(tasks[item]) else None;
    }
  }

  // ---------- seeds from a scope ----------

  const DEFAULT_NOTE := "Tenant scope profile authorization."

  function NoteText(note: Option<string>): string {
    if note.Some? && note.value != "" then note.value else DEFAULT_NOTE
  }

  function SeedOf(n: nat, kind: SeedKind, value: string, note: Option<string>): Seed {
    Seed("seed_" + Padded(n, 3), kind, value, Some(NoteText(note)))
  }

  function AddSeeds(seeds: seq<Seed>, kind: SeedKind, values: seq<string>, note: Option<string>): seq<Seed> {
    if values == [] then seeds
    else
      var front := AddSeeds(seeds, kind, values[..|values| - 1], note);
      front + [SeedOf(|front| + 1, kind, values[|values| - 1], note)]
  }

  /** Root domains, domains, networks, organizations: in this order, numbered throughout. */
  function SeedsFromScope(scope: Scope, note: Option<string>): seq<Seed> {
    var a := AddSeeds([], RootDomain, ValuesOf(scope, RootDomains), note);
    var b := AddSeeds(a, RootDomain, ValuesOf(scope, Domains), note);
    var c := AddSeeds(b, IpCidr, ValuesOf(scope, IpCidrs), note);
    AddSeeds(c, OrganizationName, ValuesOf(scope, OrgNames), note)
  }

  method AppendSeeds(before: seq<Seed>, kind: SeedKind, values: seq<string>, note: Option<string>)
      returns (seeds: seq<Seed>)
    ensures seeds == AddSeeds(before, kind, values, note)
  {
    seeds := before;
    for i := 0 to |values|
      invariant seeds == AddSeeds(before, kind, values[..i], note)
    {
      assert values[..i + 1][..i] == values[..i];
      seeds := seeds + [SeedOf(|seeds| + 1, kind, values[i], note)];
    }
    assert values[..|values|] == values;
  }

  method CollectSeeds(scope: Scope, note: Option<string>) returns (seeds: seq<Seed>)
    ensures seeds == SeedsFromScope(scope, note)
  {
    seeds := AppendSeeds([], RootDomain, ValuesOf(scope, RootDomains), note);
    seeds := AppendSeeds(seeds, RootDomain, ValuesOf(scope, Domains), note);
    seeds := AppendSeeds(seeds, IpCidr, ValuesOf(scope, IpCidrs), note);
    seeds := AppendSeeds(seeds, OrganizationName, ValuesOf(scope, OrgNames), note);
  }

  /** The note is filled in before it is stored or after it is loaded; the seeds are the same. */
  lemma {:induction false} AddSeedsNote(seeds: seq<Seed>, kind: SeedKind, values: seq<string>, note: Option<string>)
    ensures AddSeeds(seeds, kind, values, Some(NoteText(note))) == AddSeeds(seeds, kind, values, note)
  {
    if values != [] {
      AddSeedsNote(seeds, kind, values[..|values| - 1], note);
    }
  }

  lemma SeedsIgnoreNoteDefault(scope: Scope, note: Option<string>)
    ensures SeedsFromScope(scope, Some(NoteText(note))) == SeedsFromScope(scope, note)
  {
    var a := AddSeeds([], RootDomain, ValuesOf(scope, RootDomains), note);
    var b := AddSeeds(a, RootDomain, ValuesOf(scope, Domains), note);
    var c := AddSeeds(b, IpCidr, ValuesOf(scope, IpCidrs), note);
    AddSeedsNote([], RootDomain, ValuesOf(scope, RootDomains), note);
    AddSeedsNote(a, RootDomain, ValuesOf(scope, Domains), note);
    AddSeedsNote(b, IpCidr, ValuesOf(scope, IpCidrs), note);
    AddSeedsNote(c, OrganizationName, ValuesOf(scope, OrgNames), note);
  }

  // ---------- creating a task ----------

  datatype Request = Request(taskId: Option<string>, profileId: Option<string>, scope: Option<Scope>,
                             engines: Option<seq<string>>, strategy: Option<Strategy>, resultLimit: Option<int>)

  datatype Decision =
    | Rejected(code: string, accepted: Scope, rejected: seq<Rejection>)
    | Crashed(message: string)
    | Queue(payload: Payload, plans: seq<Plan>)

  function Or<T>(a: Option<T>, default: T): T { if a.Some? then a.value else default }

  function TaskIdOf(r: Request, generated: string): string {
    if r.taskId.Some? && r.taskId.value != "" then r.taskId.value else generated
  }

  function EnginesOf(r: Request): seq<string> {
    if r.engines.Some? && r.engines.value != [] then r.engines.value else ["fofa"]
  }

  function ResultLimitOf(p: Profile, r: Request): int { Or(r.resultLimit, Or(p.maxResults, 100)) }

  function MaxPlansOf(p: Profile): int { Or(p.maxQueries, 30) }

  const GATEWAY_PLAN_CAP := 10000

  /** The decision once the scope has been validated. */
  function Judge(p: Profile, r: Request, taskId: string, validated: Result<Validation>): Decision {
    match validated
    case Raised(e) => Crashed(e)
    case Ok(v) =>
      var resultLimit, strategy := ResultLimitOf(p, r), Or(r.strategy, Baseline);
      if v.rejected != [] then Rejected("scope_out_of_bounds", v.accepted, v.rejected)
      else match BuildQueryPlans(taskId, SeedsFromScope(v.accepted, p.note), strategy, GATEWAY_PLAN_CAP, 1, resultLimit)
        case Raised(e) => Crashed(e)
        case Ok(plans) =>
          if |plans| > MaxPlansOf(p) then Rejected("query_plan_budget_exceeded", v.accepted, [])
          else Queue(Payload(Item(p.tenantId, taskId), Queued, [],
                             Some(StoredRequest(v.accepted, EnginesOf(r), resultLimit, strategy, MaxPlansOf(p))),
                             p.note, None),
                     plans)
  }

  function Decide(parse: AddressParser, p: Profile, r: Request, generated: string): Decision {
    var engines, resultLimit := EnginesOf(r), ResultLimitOf(p, r);
    if r.profileId != Some(p.profileId) then Rejected("profile_id_mismatch", map[], [])
    else if Or(r.strategy, Baseline).OtherStrategy? then Rejected("invalid_discovery_strategy", map[], [])
    else if !LimitsPass(p, engines, resultLimit) then Rejected("scope_validation_failed", map[], [])
    else Judge(p, r, TaskIdOf(r, generated), ValidateScope(parse, p, Or(r.scope, map[]), engines, resultLimit))
  }

  method CreateTask(parse: AddressParser, p: Profile, r: Request, generated: string, now: int,
                    repository: TaskRepository, queue: SqliteTaskQueue)
    returns (d: Decision)
    modifies repository, queue
    ensures d == Decide(parse, p, r, generated)
    ensures d.Queue? ==> repository.tasks == old(repository.tasks)[d.payload.item := d.payload]
    ensures d.Queue? ==> queue.jobs == Enqueue(old(queue.jobs), d.payload.item, now)
    ensures !d.Queue? ==> repository.tasks == old(repository.tasks) && queue.jobs == old(queue.jobs)
  {
    var taskId, engines := TaskIdOf(r, generated), EnginesOf(r);
    var resultLimit, strategy := ResultLimitOf(p, r), Or(r.strategy, Baseline);
    if r.profileId != Some(p.profileId) {
      return Rejected("profile_id_mismatch", map[], []);
    }
    if strategy.OtherStrategy? {
      return Rejected("invalid_discovery_strategy", map[], []);
    }
    if !LimitsPass(p, engines, resultLimit) {
      return Rejected("scope_validation_failed", map[], []);
    }
    var validated := ValidateRequestedScope(parse, p, Or(r.scope, map[]), engines, resultLimit);
    if validated.Raised? {
      return Crashed(validated.message);
    }
    var v := validated.value;
    if v.rejected != [] {
      return Rejected("scope_out_of_bounds", v.accepted, v.rejected);
    }
    var seeds := CollectSeeds(v.accepted, p.note);
    var plans := BuildQueryPlans(taskId, seeds, strategy, GATEWAY_PLAN_CAP, 1, resultLimit);
    if plans.Raised? {
      return Crashed(plans.message);
    }
    if |plans.value| > MaxPlansOf(p) {
      return Rejected("query_plan_budget_exceeded", v.accepted, []);
    }
    var payload := Payload(Item(p.tenantId, taskId), Queued, [],
                           Some(StoredRequest(v.accepted, engines, resultLimit, strategy, MaxPlansOf(p))),
                           p.note, None);
    repository.Update(payload);
    queue.EnqueueItem(payload.item, now);
    return Queue(payload, plans.value);
  }

  // ---------- what the worker makes of a stored task ----------

  function WorkerSeeds(t: Payload): seq<Seed> {
    SeedsFromScope(if t.request.Some? then t.request.value.acceptedScope else map[], Some(NoteText(t.note)))
  }

  function WorkerPlans(t: Payload): Result<seq<Plan>> {
    if t.request.Some?
    then BuildQueryPlans(t.item.taskId, WorkerSeeds(t), t.request.value.strategy, t.request.value.maxQueryPlans, 1,
        t.request.value.resultLimit)
    else BuildQueryPlans(t.item.taskId, WorkerSeeds(t), Baseline, 30, 1, 100)
  }

  /** The plan list the gateway counted is, plan for plan, the list the worker rebuilds; the plan
      budget cannot fail there, and with the usual limits the quota cannot either. */
  lemma WorkerRebuildsPlans(parse: AddressParser, p: Profile, r: Request, generated: string)
    requires Decide(parse, p, r, generated).Queue?
    ensures var d := Decide(parse, p, r, generated);
            && WorkerPlans(d.payload) == Ok(d.plans)
            && (MaxPlansOf(p) <= 30 && ResultLimitOf(p, r) <= 1000 ==> EnforcePlanQuota(d.plans) == None)
  {
    var d := Decide(parse, p, r, generated);
    var stored := d.payload.request.value;
    SeedsIgnoreNoteDefault(stored.acceptedScope, p.note);
    QuotaIsExact(d.payload.item.taskId, WorkerSeeds(d.payload), stored.strategy, stored.maxQueryPlans,
        stored.resultLimit);
  }
}
