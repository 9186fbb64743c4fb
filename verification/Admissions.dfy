/** Which requests are queued and which attempts are let through, told on what was asked for. */
module Admissions {
  import opened Text
  import opened Items
  import opened Models
  import opened QueryPlanner
  import opened PlanList
  import opened Execution
  import opened Networks
  import opened ScopeGuard
  import opened ScopeNames
  import opened Workflow
  import opened Gateway
  import opened Outcomes

  // ---------- the seeds of a scope ----------

  function NoteOr(note: Option<string>): string {
    if note.Some? && note.value != "" then note.value else "Tenant scope profile authorization."
  }

  /** One seed of this kind for each value, numbered from `n` + 1, with the note or its default. */
  function SeedsOf(n: nat, kind: SeedKind, values: seq<string>, note: Option<string>): (r: seq<Seed>)
    ensures |r| == |values|
  {
    seq(|values|, i requires 0 <= i < |values| =>
      Seed("seed_" + Padded(n + i + 1, 3), kind, values[i], Some(NoteOr(note))))
  }

  lemma SeedsOfBoth(n: nat, kind: SeedKind, a: seq<string>, b: seq<string>, note: Option<string>)
    ensures SeedsOf(n, kind, a + b, note) == SeedsOf(n, kind, a, note) + SeedsOf(n + |a|, kind, b, note)
  {
  }

  lemma OneSeedAdded(seeds: seq<Seed>, kind: SeedKind, front: seq<string>, last: string, note: Option<string>)
    ensures seeds + SeedsOf(|seeds|, kind, front, note) + [SeedOf(|seeds| + |front| + 1, kind, last, note)] ==
            seeds + SeedsOf(|seeds|, kind, front + [last], note)
  {
    SeedsOfBoth(|seeds|, kind, front, [last], note);
    var r := SeedsOf(|seeds| + |front|, kind, [last], note);
    assert r[0] == Seed("seed_" + Padded(|seeds| + |front| + 0 + 1, 3), kind, last, Some(NoteOr(note)));
    assert r == [SeedOf(|seeds| + |front| + 1, kind, last, note)];
  }

  lemma {:induction false} SeedsAdded(seeds: seq<Seed>, kind: SeedKind, values: seq<string>, note: Option<string>)
    ensures AddSeeds(seeds, kind, values, note) == seeds + SeedsOf(|seeds|, kind, values, note)
  {
    if values == [] {
      assert seeds + SeedsOf(|seeds|, kind, values, note) == seeds;
    } else {
      var front, last := values[..|values| - 1], values[|values| - 1];
      SeedsAdded(seeds, kind, front, note);
      OneSeedAdded(seeds, kind, front, last, note);
      assert values == front + [last];
    }
  }

  /** The names of a scope, root domains before domains. */
  function NamesIn(scope: Scope): seq<string> { ValuesOf(scope, RootDomains) + ValuesOf(scope, Domains) }

  /** The seeds of the first two loops. */
  function NameSeeds(scope: Scope, note: Option<string>): seq<Seed> {
    AddSeeds(AddSeeds([], RootDomain, ValuesOf(scope, RootDomains), note), RootDomain, ValuesOf(scope, Domains), note)
  }

  lemma AddedToNone(kind: SeedKind, values: seq<string>, note: Option<string>)
    ensures AddSeeds([], kind, values, note) == SeedsOf(0, kind, values, note)
  {
    SeedsAdded([], kind, values, note);
    assert [] + SeedsOf(0, kind, values, note) == SeedsOf(0, kind, values, note);
  }

  lemma BothNames(roots: seq<string>, domains: seq<string>, note: Option<string>)
    ensures AddSeeds(AddSeeds([], RootDomain, roots, note), RootDomain, domains, note) ==
            SeedsOf(0, RootDomain, roots + domains, note)
  {
    AddedToNone(RootDomain, roots, note);
    AddedToSome(SeedsOf(0, RootDomain, roots, note), RootDomain, roots, domains, note);
  }

  lemma AddedToSome(a: seq<Seed>, kind: SeedKind, before: seq<string>, values: seq<string>, note: Option<string>)
    requires a == SeedsOf(0, kind, before, note)
    ensures AddSeeds(a, kind, values, note) == SeedsOf(0, kind, before + values, note)
  {
    SeedsAdded(a, kind, values, note);
    SeedsOfBoth(0, kind, before, values, note);
  }

  /** What a scope becomes: its names, then its networks, then its organizations, numbered throughout. */
  function ExpectedSeeds(names: seq<string>, networks: seq<string>, orgs: seq<string>,
      note: Option<string>): seq<Seed> {
    SeedsOf(0, RootDomain, names, note) + SeedsOf(|names|, IpCidr, networks, note) +
    SeedsOf(|names| + |networks|, OrganizationName, orgs, note)
  }

  lemma OthersAfterNames(a: seq<Seed>, names: seq<string>, networks: seq<string>, orgs: seq<string>,
      note: Option<string>)
    requires a == SeedsOf(0, RootDomain, names, note)
    ensures AddSeeds(AddSeeds(a, IpCidr, networks, note), OrganizationName, orgs, note) ==
            ExpectedSeeds(names, networks, orgs, note)
  {
    SeedsAdded(a, IpCidr, networks, note);
    SeedsAdded(a + SeedsOf(|names|, IpCidr, networks, note), OrganizationName, orgs, note);
  }

  lemma SeedsAre(scope: Scope, note: Option<string>)
    ensures SeedsFromScope(scope, note) ==
            ExpectedSeeds(NamesIn(scope), ValuesOf(scope, IpCidrs), ValuesOf(scope, OrgNames), note)
  {
    BothNames(ValuesOf(scope, RootDomains), ValuesOf(scope, Domains), note);
    OthersAfterNames(NameSeeds(scope, note), NamesIn(scope), ValuesOf(scope, IpCidrs), ValuesOf(scope, OrgNames), note);
  }

  // ---------- how many queries a scope makes ----------

  function PerSeed(strategy: Strategy, kind: SeedKind): nat {
    if strategy.Easm? && (kind.RootDomain? || kind.OrganizationName?) then 3 else 1
  }

  function Times(n: nat, each: nat): nat { if n == 0 then 0 else Times(n - 1, each) + each }

  lemma {:induction false} TimesIs(n: nat)
    ensures Times(n, 1) == n && Times(n, 3) == 3 * n
  {
    if n > 0 {
      TimesIs(n - 1);
    }
  }

  lemma {:induction false} QuestionsAdded(strategy: Strategy, seeds: seq<Seed>, kind: SeedKind, values: seq<string>,
      note: Option<string>)
    requires !strategy.OtherStrategy? && kind in {RootDomain, IpCidr, OrganizationName}
    ensures |Questions(strategy, AddSeeds(seeds, kind, values, note))| ==
            |Questions(strategy, seeds)| + Times(|values|, PerSeed(strategy, kind))
  {
    if values != [] {
      var front := AddSeeds(seeds, kind, values[..|values| - 1], note);
      QuestionsAdded(strategy, seeds, kind, values[..|values| - 1], note);
      assert AddSeeds(seeds, kind, values, note)[..|front|] == front;
    }
  }

  lemma NameQuestions(strategy: Strategy, scope: Scope, note: Option<string>)
    requires !strategy.OtherStrategy?
    ensures |Questions(strategy, NameSeeds(scope, note))| ==
            Times(|ValuesOf(scope, RootDomains)|, PerSeed(strategy, RootDomain)) +
            Times(|ValuesOf(scope, Domains)|, PerSeed(strategy, RootDomain))
  {
    QuestionsAdded(strategy, [], RootDomain, ValuesOf(scope, RootDomains), note);
    QuestionsAdded(strategy, AddSeeds([], RootDomain, ValuesOf(scope, RootDomains), note), RootDomain,
                   ValuesOf(scope, Domains), note);
  }

  lemma OtherQuestions(strategy: Strategy, a: seq<Seed>, networks: seq<string>, orgs: seq<string>, note: Option<string>)
    requires !strategy.OtherStrategy?
    ensures |Questions(strategy, AddSeeds(AddSeeds(a, IpCidr, networks, note), OrganizationName, orgs, note))| ==
            |Questions(strategy, a)| + Times(|networks|, 1) + Times(|orgs|, PerSeed(strategy, OrganizationName))
  {
    QuestionsAdded(strategy, a, IpCidr, networks, note);
    QuestionsAdded(strategy, AddSeeds(a, IpCidr, networks, note), OrganizationName, orgs, note);
  }

  /** The queries a scope makes: one for every network, and one, or three under the extended strategy, for
      every name and every organization. */
  function QueriesOf(strategy: Strategy, scope: Scope): nat {
    var named := |ValuesOf(scope, RootDomains)| + |ValuesOf(scope, Domains)| + |ValuesOf(scope, OrgNames)|;
    |ValuesOf(scope, IpCidrs)| + if strategy.Easm? then 3 * named else named
  }

  lemma CountIs(strategy: Strategy, scope: Scope, note: Option<string>)
    requires !strategy.OtherStrategy?
    ensures |Questions(strategy, SeedsFromScope(scope, note))| == QueriesOf(strategy, scope)
  {
    NameQuestions(strategy, scope, note);
    OtherQuestions(strategy, NameSeeds(scope, note), ValuesOf(scope, IpCidrs), ValuesOf(scope, OrgNames), note);
    TimesIs(|ValuesOf(scope, RootDomains)|);
    TimesIs(|ValuesOf(scope, Domains)|);
    TimesIs(|ValuesOf(scope, IpCidrs)|);
    TimesIs(|ValuesOf(scope, OrgNames)|);
  }

  // ---------- the safety checks of an attempt ----------

  lemma BlankIff(s: string)
    ensures Strip(s) == "" <==> Spaces(s)
  {
    if Strip(s) == "" {
      var a, b := StripTakes(s);
      assert s == a + "" + b;
    } else if Spaces(s) {
      AllSpaces(s);
    }
  }

  /** A note and a value that are not blank, and a value that fits the kind: a domain the pattern accepts, an
      organization of three characters, an address block, of at most 256 addresses for IPv4. */
  predicate SeedFits(rules: Rules, seed: Seed) {
    && seed.note.Some? && !Spaces(seed.note.value) && !Spaces(seed.value)
    && var value := Strip(seed.value);
       match seed.kind
       case RootDomain => rules.validDomain(value)
       case EmailDomain => rules.validDomain(value)
       case OrganizationName => |value| >= 3
       case IpCidr => rules.parse(value).Some? && (rules.parse(value).value.v4 ==>
           rules.parse(value).value.prefix >= 24)
       case OtherKind(_) => false
  }

  lemma SeedFitsIff(rules: Rules, seed: Seed)
    ensures CheckSeed(rules, seed).None? <==> SeedFits(rules, seed)
  {
    BlankIff(seed.value);
    if seed.note.Some? {
      BlankIff(seed.note.value);
    }
  }

  ghost predicate AllFit(rules: Rules, seeds: seq<Seed>) { forall seed :: seed in seeds ==> SeedFits(rules, seed) }

  lemma {:induction false} SeedsFit(rules: Rules, seeds: seq<Seed>)
    ensures FirstSeedError(rules, seeds).None? <==> AllFit(rules, seeds)
  {
    if seeds != [] {
      SeedFitsIff(rules, seeds[0]);
      SeedsFit(rules, seeds[1..]);
      forall seed ensures seed in seeds <==> seed == seeds[0] || seed in seeds[1..] {
        InBoth(seeds, [seeds[0]], seeds[1..], seed);
      }
    }
  }

  /** Seeds pass if and only if there are at most 20 and each of them fits. */
  lemma SeedsPassIff(rules: Rules, seeds: seq<Seed>)
    ensures ValidateSeeds(rules, seeds).None? <==>
            |seeds| <= 20 && forall seed :: seed in seeds ==> SeedFits(rules, seed)
  {
    SeedsFit(rules, seeds);
  }

  lemma FittingIsPlannable(rules: Rules, scope: Scope, note: Option<string>)
    requires AllFit(rules, SeedsFromScope(scope, note))
    ensures var seeds := SeedsFromScope(scope, note); forall i :: 0 <= i < |seeds| ==> Plannable(seeds[i])
  {
    var seeds := SeedsFromScope(scope, note);
    SeedsAre(scope, note);
    forall i | 0 <= i < |seeds| ensures Plannable(seeds[i]) {
      assert seeds[i] in seeds && SeedFits(rules, seeds[i]);
      assert seeds[i].kind in {RootDomain, IpCidr, OrganizationName};
      BlankIff(seeds[i].value);
    }
  }

  /** The plans of a scope, when each seed fits: their number decides. */
  lemma BuiltIff(rules: Rules, taskId: string, scope: Scope, note: Option<string>, strategy: Strategy, maxPlans: int,
      resultLimit: int)
    requires AllFit(rules, SeedsFromScope(scope, note))
    ensures var n, built := QueriesOf(strategy, scope),
                            BuildQueryPlans(taskId, SeedsFromScope(scope, note), strategy, maxPlans, 1, resultLimit);
            && (built.Ok? <==> !strategy.OtherStrategy? && n <= maxPlans)
            && (built.Ok? ==> |built.value| == n
                              && (EnforcePlanQuota(built.value).None? <==> n <= 30 && (n == 0 || resultLimit <= 1000)))
  {
    FittingIsPlannable(rules, scope, note);
    if !strategy.OtherStrategy? {
      CountIs(strategy, scope, note);
    }
    PlannedIff(taskId, SeedsFromScope(scope, note), 1, resultLimit, strategy);
    if BuildQueryPlans(taskId, SeedsFromScope(scope, note), strategy, maxPlans, 1, resultLimit).Ok? {
      QuotaIsExact(taskId, SeedsFromScope(scope, note), strategy, maxPlans, resultLimit);
    }
  }

  /** An attempt is let through if and only if there are at most 20 seeds, each of them fits, the strategy is
      known, and the queries stay within the stored maximum, within 30, and within 1000 rows each. */
  lemma AdmittedIff(env: Env, t: Payload)
    requires t.request.Some?
    ensures var r, seeds := t.request.value, WorkerSeeds(t);
            Admitted(env, t) <==>
              && |seeds| <= 20 && (forall seed :: seed in seeds ==> SeedFits(env.rules, seed))
              && !r.strategy.OtherStrategy?
              && var n := QueriesOf(r.strategy, r.acceptedScope);
                 n <= r.maxQueryPlans && n <= 30 && (n == 0 || r.resultLimit <= 1000)
  {
    var r, seeds := t.request.value, WorkerSeeds(t);
    SeedsPassIff(env.rules, seeds);
    if forall seed :: seed in seeds ==> SeedFits(env.rules, seed) {
      BuiltIff(env.rules, t.item.taskId, r.acceptedScope, Some(NoteText(t.note)), r.strategy, r.maxQueryPlans,
               r.resultLimit);
    }
  }

  lemma {:induction false} PagesAre(plans: seq<Plan>, pageLimit: nat)
    requires forall i :: 0 <= i < |plans| ==> plans[i].pageLimit == pageLimit
    ensures PageSum(plans) == Times(|plans|, pageLimit)
  {
    if plans != [] {
      PagesAre(plans[..|plans| - 1], pageLimit);
    }
  }

  /** The first error of a discovery, in this order: too many seeds, one that does not fit, an unknown strategy
      or a seed no query can be made of, too many queries, too many pages, too many rows; without any of these
      it executes the plans that ask the questions of the seeds. */
  lemma DiscoveryIs(env: Env, taskId: string, seeds: seq<Seed>, strategy: Strategy, maxPlans: int, pageLimit: nat,
      resultLimit: int)
    ensures var d := RunDiscovery(env, taskId, seeds, strategy, maxPlans, pageLimit, resultLimit);
            var n := |Questions(strategy, seeds)|;
            if |seeds| > 20 then d == Raised("Seed count exceeds limit")
            else if !AllFit(env.rules, seeds) then d.Raised?
            else if strategy.OtherStrategy? then d == Raised("Unsupported discovery strategy")
            else if !AllPlannable(seeds) then d.Raised?
            else if n > maxPlans then d == Raised("exceeding query plan budget")
            else if n * pageLimit > 30 then d == Raised("Query plan exceeds page budget")
            else if n > 0 && resultLimit > 1000 then d == Raised("Query plan result limit exceeds maximum")
            else exists plans :: AskInOrder(plans, Questions(strategy, seeds), 1, taskId, pageLimit, resultLimit)
                                 && d == Execute(env.hash, taskId, plans, env.provider)
  {
    SeedsFit(env.rules, seeds);
    PlannedIff(taskId, seeds, pageLimit, resultLimit, strategy);
    assert (forall i :: 0 <= i < |seeds| ==> Plannable(seeds[i])) <==> AllPlannable(seeds);
    if |seeds| <= 20 && AllFit(env.rules, seeds) && !strategy.OtherStrategy? && AllPlannable(seeds) {
      QuotaIs(PlanQueries(taskId, seeds, pageLimit, resultLimit, strategy).value, Questions(strategy, seeds), taskId,
              pageLimit, resultLimit);
    }
  }

  lemma QuotaIs(plans: seq<Plan>, qs: seq<Question>, taskId: string, pageLimit: nat, resultLimit: int)
    requires AskInOrder(plans, qs, 1, taskId, pageLimit, resultLimit)
    ensures EnforcePlanQuota(plans) ==
            if |qs| * pageLimit > 30 then Some("Query plan exceeds page budget")
            else if |qs| > 0 && resultLimit > 1000 then Some("Query plan result limit exceeds maximum")
            else None
  {
    PagesAre(plans, pageLimit);
    ProductIs(|plans|, pageLimit);
    if plans != [] && resultLimit > 1000 {
      assert plans[0].resultLimit == resultLimit;
    }
  }

  lemma {:induction false} ProductIs(n: nat, each: nat)
    ensures Times(n, each) == n * each
  {
    if n > 0 {
      ProductIs(n - 1, each);
    }
  }

  ghost predicate AllPlannable(seeds: seq<Seed>) { forall seed :: seed in seeds ==> Plannable(seed) }

  // ---------- the decision about a request ----------

  function ScopeOf(r: Request): Scope { if r.scope.Some? then r.scope.value else map[] }

  /** The trimmed values asked for under a key: of the request, or of the default scope if it has none. */
  function Asked(p: Profile, r: Request, key: ScopeKey): seq<string> {
    Trimmed(ValuesOf(Effective(p, ScopeOf(r)), key))
  }

  function EnginesAsked(r: Request): seq<string> {
    if r.engines.Some? && r.engines.value != [] then r.engines.value else ["fofa"]
  }

  function StrategyAsked(r: Request): Strategy { if r.strategy.Some? then r.strategy.value else Baseline }

  function LimitAsked(p: Profile, r: Request): int {
    if r.resultLimit.Some? then r.resultLimit.value else if p.maxResults.Some? then p.maxResults.value else 100
  }

  function MostPlans(p: Profile): int { if p.maxQueries.Some? then p.maxQueries.value else 30 }

  /** An active profile, engines of the profile, and a result limit within its own, if it has one. */
  predicate WithinLimits(p: Profile, r: Request) {
    && p.active && (forall e :: e in EnginesAsked(r) ==> e in p.engines)
    && (p.maxResults.Some? ==> LimitAsked(p, r) <= p.maxResults.value)
  }

  ghost predicate SomeRaises(parse: AddressParser, p: Profile, r: Request) {
    exists x :: x in Asked(p, r, IpCidrs) && NetworkRaises(parse, p, x)
  }

  ghost predicate Wants(p: Profile, r: Request, key: ScopeKey, x: string) { !key.OtherKey? && x in Asked(p, r, key) }

  ghost predicate AllGranted(parse: AddressParser, p: Profile, r: Request) {
    forall key, x :: Wants(p, r, key, x) ==> Passes(parse, p, key, x)
  }

  ghost predicate WantsBlank(p: Profile, r: Request) { exists key :: Wants(p, r, key, "") }

  function QueriesAsked(p: Profile, r: Request): nat {
    var named := |Asked(p, r, RootDomains)| + |Asked(p, r, Domains)| + |Asked(p, r, OrgNames)|;
    |Asked(p, r, IpCidrs)| + if StrategyAsked(r).Easm? then 3 * named else named
  }

  /** What the validation makes of the request. */
  function Validated(parse: AddressParser, p: Profile, r: Request): Result<Validation> {
    ValidateScope(parse, p, ScopeOf(r), EnginesAsked(r), LimitAsked(p, r))
  }

  lemma ValidatedIff(parse: AddressParser, p: Profile, r: Request)
    ensures LimitsPass(p, EnginesAsked(r), LimitAsked(p, r)) <==> WithinLimits(p, r)
    ensures WithinLimits(p, r) ==> (Validated(parse, p, r).Ok? <==> !SomeRaises(parse, p, r))
  {
    LimitsIff(parse, p, ScopeOf(r), EnginesAsked(r), LimitAsked(p, r));
    ValidationIff(parse, p, ScopeOf(r), EnginesAsked(r), LimitAsked(p, r));
  }

  lemma RejectedIff(parse: AddressParser, p: Profile, r: Request, v: Validation)
    requires Validated(parse, p, r) == Ok(v)
    ensures forall key, x :: Rejection(key, x) in v.rejected <==> Wants(p, r, key, x) && !Passes(parse, p, key, x)
  {
    forall key, x
      ensures Rejection(key, x) in v.rejected <==> Wants(p, r, key, x) && !Passes(parse, p, key, x)
    {
      if key.OtherKey? {
        ReturnedIsSplit(parse, p, ScopeOf(r), EnginesAsked(r), LimitAsked(p, r), v);
        InRejected(parse, p, Effective(p, ScopeOf(r)), CHECKED_KEYS, key, x);
        FourKeys(key);
      } else {
        AcceptedIff(parse, p, ScopeOf(r), EnginesAsked(r), LimitAsked(p, r), v, key, x);
      }
    }
  }

  lemma NoneRejectedIff(parse: AddressParser, p: Profile, r: Request, v: Validation)
    requires Validated(parse, p, r) == Ok(v)
    ensures v.rejected == [] <==> AllGranted(parse, p, r)
  {
    RejectedIff(parse, p, r, v);
    if v.rejected != [] {
      var first := v.rejected[0];
      assert Rejection(first.key, first.value) in v.rejected;
    }
  }

  lemma {:induction false} AllAllowed(check: Checker, values: seq<string>)
    requires forall x :: x in Trimmed(values) ==> check(x) == Allowed
    ensures WithVerdict(check, values, Allowed) == Trimmed(values)
  {
    if values != [] {
      var front := values[..|values| - 1];
      LastOfLists(check, values);
      forall x | x in Trimmed(front) ensures check(x) == Allowed {
        InBoth(Trimmed(values), Trimmed(front), [Strip(values[|values| - 1])], x);
      }
      assert Strip(values[|values| - 1]) in Trimmed(values);
      AllAllowed(check, front);
    }
  }

  /** If everything asked for is granted, all of it is accepted, in order. */
  lemma AcceptsAll(parse: AddressParser, p: Profile, r: Request, v: Validation, key: ScopeKey)
    requires Validated(parse, p, r) == Ok(v) && AllGranted(parse, p, r) && !key.OtherKey?
    ensures ValuesOf(v.accepted, key) == Asked(p, r, key)
  {
    var scope := Effective(p, ScopeOf(r));
    ReturnedIsSplit(parse, p, ScopeOf(r), EnginesAsked(r), LimitAsked(p, r), v);
    FourKeys(key);
    forall x | x in Trimmed(ValuesOf(scope, key)) ensures Check(parse, p, key, x) == Allowed {
      assert Wants(p, r, key, x);
      VerdictsArePassed(parse, p, scope, key, x);
      InVerdict(CheckerOf(parse, p, key), ValuesOf(scope, key), Allowed, x);
    }
    AllAllowed(CheckerOf(parse, p, key), ValuesOf(scope, key));
  }

  lemma PlannableOf(n: nat, kind: SeedKind, values: seq<string>, note: Option<string>)
    requires kind in {RootDomain, IpCidr, OrganizationName}
    ensures AllPlannable(SeedsOf(n, kind, values, note)) <==> NoneBlank(values)
  {
    var seeds := SeedsOf(n, kind, values, note);
    forall i | 0 <= i < |values| ensures seeds[i] in seeds && values[i] in values {
    }
    assert forall i :: 0 <= i < |values| ==> (Plannable(seeds[i]) <==> Strip(values[i]) != "");
  }

  lemma PlannableBoth(a: seq<Seed>, b: seq<Seed>)
    ensures AllPlannable(a + b) <==> AllPlannable(a) && AllPlannable(b)
  {
    forall seed ensures seed in a + b <==> seed in a || seed in b {
      InBoth(a + b, a, b, seed);
    }
  }

  ghost predicate NoneBlank(values: seq<string>) { forall x :: x in values ==> Strip(x) != "" }

  /** A text that trims to something, under each of the four keys. */
  ghost predicate NoBlank(scope: Scope) {
    NoneBlank(NamesIn(scope)) && NoneBlank(ValuesOf(scope, IpCidrs)) && NoneBlank(ValuesOf(scope, OrgNames))
  }

  lemma PlannableExpected(names: seq<string>, networks: seq<string>, orgs: seq<string>, note: Option<string>)
    ensures AllPlannable(ExpectedSeeds(names, networks, orgs, note)) <==>
            NoneBlank(names) && NoneBlank(networks) && NoneBlank(orgs)
  {
    var a, b := SeedsOf(0, RootDomain, names, note), SeedsOf(|names|, IpCidr, networks, note);
    PlannableBoth(a + b, SeedsOf(|names| + |networks|, OrganizationName, orgs, note));
    PlannableBoth(a, b);
    PlannableOf(0, RootDomain, names, note);
    PlannableOf(|names|, IpCidr, networks, note);
    PlannableOf(|names| + |networks|, OrganizationName, orgs, note);
  }

  lemma PlannableScope(scope: Scope, note: Option<string>)
    ensures AllPlannable(SeedsFromScope(scope, note)) <==> NoBlank(scope)
  {
    SeedsAre(scope, note);
    PlannableExpected(NamesIn(scope), ValuesOf(scope, IpCidrs), ValuesOf(scope, OrgNames), note);
  }

  /** The plans of a scope are built exactly if no value is blank and they stay within the maximum. */
  lemma ScopeBuiltIff(taskId: string, scope: Scope, note: Option<string>, strategy: Strategy, maxPlans: int,
      resultLimit: int)
    requires !strategy.OtherStrategy?
    ensures var built := BuildQueryPlans(taskId, SeedsFromScope(scope, note), strategy, maxPlans, 1, resultLimit);
            && (built.Ok? <==> NoBlank(scope) && QueriesOf(strategy, scope) <= maxPlans)
            && (built.Ok? ==> |built.value| == QueriesOf(strategy, scope))
  {
    var seeds := SeedsFromScope(scope, note);
    PlannedIff(taskId, seeds, 1, resultLimit, strategy);
    PlannableScope(scope, note);
    CountIs(strategy, scope, note);
    assert (forall i :: 0 <= i < |seeds| ==> Plannable(seeds[i])) <==> AllPlannable(seeds);
  }

  lemma AcceptedIsAsked(parse: AddressParser, p: Profile, r: Request, v: Validation)
    requires Validated(parse, p, r) == Ok(v) && AllGranted(parse, p, r)
    ensures NoBlank(v.accepted) <==> !WantsBlank(p, r)
    ensures QueriesOf(StrategyAsked(r), v.accepted) == QueriesAsked(p, r)
  {
    forall key: ScopeKey | !key.OtherKey? ensures ValuesOf(v.accepted, key) == Asked(p, r, key) {
      AcceptsAll(parse, p, r, v, key);
    }
    forall key, x | Wants(p, r, key, x) ensures Strip(x) == x {
      AskedIsTrimmed(ValuesOf(Effective(p, ScopeOf(r)), key), x);
    }
    BlankIsWanted(p, r, v.accepted);
  }

  lemma AskedIsTrimmed(values: seq<string>, x: string)
    requires x in Trimmed(values)
    ensures Strip(x) == x
  {
    var i :| 0 <= i < |values| && Trimmed(values)[i] == x;
    StripIdempotent(values[i]);
  }

  lemma BlankIsWanted(p: Profile, r: Request, accepted: Scope)
    requires forall key: ScopeKey :: !key.OtherKey? ==> ValuesOf(accepted, key) == Asked(p, r, key)
    requires forall key, x :: Wants(p, r, key, x) ==> Strip(x) == x
    ensures NoBlank(accepted) <==> !WantsBlank(p, r)
  {
    assert forall x :: x in NamesIn(accepted) <==> Wants(p, r, RootDomains, x) || Wants(p, r, Domains, x);
    assert forall x :: x in ValuesOf(accepted, IpCidrs) <==> Wants(p, r, IpCidrs, x);
    assert forall x :: x in ValuesOf(accepted, OrgNames) <==> Wants(p, r, OrgNames, x);
  }

  lemma JudgeIs(parse: AddressParser, p: Profile, r: Request, generated: string, v: Validation)
    requires Validated(parse, p, r) == Ok(v) && !StrategyAsked(r).OtherStrategy?
    ensures var d := Judge(p, r, TaskIdOf(r, generated), Ok(v));
            if !AllGranted(parse, p, r) then d.Rejected? && d.code == "scope_out_of_bounds" && d.rejected != []
            else if WantsBlank(p, r) || QueriesAsked(p, r) > 10000 then d.Crashed?
            else if QueriesAsked(p, r) > MostPlans(p) then d.Rejected? && d.code == "query_plan_budget_exceeded"
            else d.Queue? && |d.plans| == QueriesAsked(p, r)
  {
    NoneRejectedIff(parse, p, r, v);
    if AllGranted(parse, p, r) {
      AcceptedIsAsked(parse, p, r, v);
      ScopeBuiltIff(TaskIdOf(r, generated), v.accepted, p.note, StrategyAsked(r), 10000, LimitAsked(p, r));
    }
  }

  /** What becomes of a request. In this order it is refused for another profile, for an unknown strategy, or
      for a limit; it raises if a network does; it is refused if anything asked for is not granted; it raises
      for a blank value or more than 10000 queries; it is refused for more queries than the profile allows;
      otherwise it is queued. */
  lemma DecideIs(parse: AddressParser, p: Profile, r: Request, generated: string)
    ensures var d := Decide(parse, p, r, generated);
            if r.profileId != Some(p.profileId) then d == Rejected("profile_id_mismatch", map[], [])
            else if StrategyAsked(r).OtherStrategy? then d == Rejected("invalid_discovery_strategy", map[], [])
            else if !WithinLimits(p, r) then d == Rejected("scope_validation_failed", map[], [])
            else if SomeRaises(parse, p, r) then d.Crashed?
            else if !AllGranted(parse, p, r) then d.Rejected? && d.code == "scope_out_of_bounds" && d.rejected != []
            else if WantsBlank(p, r) || QueriesAsked(p, r) > 10000 then d.Crashed?
            else if QueriesAsked(p, r) > MostPlans(p) then d.Rejected? && d.code == "query_plan_budget_exceeded"
            else d.Queue? && |d.plans| == QueriesAsked(p, r)
  {
    ValidatedIff(parse, p, r);
    if !StrategyAsked(r).OtherStrategy? && Validated(parse, p, r).Ok? {
      JudgeIs(parse, p, r, generated, Validated(parse, p, r).value);
    }
  }

  /** A request refused for its scope is told exactly what was not granted. */
  lemma RefusalSays(parse: AddressParser, p: Profile, r: Request, generated: string)
    requires var d := Decide(parse, p, r, generated); d.Rejected? && d.code == "scope_out_of_bounds"
    ensures forall key, x :: Rejection(key, x) in Decide(parse, p, r, generated).rejected <==>
              Wants(p, r, key, x) && !Passes(parse, p, key, x)
  {
    RejectedIff(parse, p, r, Validated(parse, p, r).value);
  }

  /** The accepted scope is what was asked for, and nothing under other keys. */
  ghost predicate HoldsAsked(p: Profile, r: Request, accepted: Scope) {
    forall key :: ValuesOf(accepted, key) == if key.OtherKey? then [] else Asked(p, r, key)
  }

  lemma AcceptedHolds(parse: AddressParser, p: Profile, r: Request, v: Validation)
    requires Validated(parse, p, r) == Ok(v) && AllGranted(parse, p, r)
    ensures HoldsAsked(p, r, v.accepted)
  {
    ReturnedIsSplit(parse, p, ScopeOf(r), EnginesAsked(r), LimitAsked(p, r), v);
    forall key ensures ValuesOf(v.accepted, key) == if key.OtherKey? then [] else Asked(p, r, key) {
      FourKeys(key);
      if !key.OtherKey? {
        AcceptsAll(parse, p, r, v, key);
      }
    }
  }

  predicate IsTaskFor(p: Profile, r: Request, generated: string, t: Payload) {
    && t.item.tenantId == p.tenantId
    && t.item.taskId == (if r.taskId.Some? && r.taskId.value != "" then r.taskId.value else generated)
    && t.status.Queued? && t.errors == [] && t.note == p.note && t.report.None? && t.request.Some?
    && t.request.value.engines == EnginesAsked(r) && t.request.value.resultLimit == LimitAsked(p, r)
    && t.request.value.strategy == StrategyAsked(r) && t.request.value.maxQueryPlans == MostPlans(p)
  }

  lemma JudgeQueues(parse: AddressParser, p: Profile, r: Request, generated: string, v: Validation)
    requires Validated(parse, p, r) == Ok(v) && Judge(p, r, TaskIdOf(r, generated), Ok(v)).Queue?
    ensures var t := Judge(p, r, TaskIdOf(r, generated), Ok(v)).payload;
            IsTaskFor(p, r, generated, t) && HoldsAsked(p, r, t.request.value.acceptedScope)
  {
    NoneRejectedIff(parse, p, r, v);
    AcceptedHolds(parse, p, r, v);
  }

  /** A queued task asks for what was asked for, under the ids and limits of the request or their defaults. */
  lemma QueuedIs(parse: AddressParser, p: Profile, r: Request, generated: string)
    requires Decide(parse, p, r, generated).Queue?
    ensures var t := Decide(parse, p, r, generated).payload;
            IsTaskFor(p, r, generated, t) && HoldsAsked(p, r, t.request.value.acceptedScope)
  {
    JudgeQueues(parse, p, r, generated, Validated(parse, p, r).value);
  }
}
