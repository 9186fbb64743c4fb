/** The plan list as a list of questions: which seed asks what, in which order, under which number. */
module PlanList {
  import opened Text
  import opened Models
  import opened QueryPlanner

  /** What one query asks: fields with their unescaped values, and how the query is labelled. */
  datatype Question = Question(seedId: string, terms: seq<Term>, queryType: string, intent: string)

  /** The questions of one seed with the trimmed value `v`. */
  function QuestionsOf(strategy: Strategy, seed: Seed, v: string): seq<Question> {
    match (strategy, seed.kind)
    case (_, IpCidr) => [Question(seed.seedId, [Term("ip", v)], "ip_range", "ip_range_match")]
    case (Baseline, RootDomain) => [Question(seed.seedId, [Term("domain", v)], "domain", "root_domain_match")]
    case (Baseline, OrganizationName) =>
      [Question(seed.seedId, [Term("cert.subject.org", v), Term("title", v)], "organization", "organization_match")]
    case (Easm, RootDomain) =>
      [Question(seed.seedId, [Term("domain", v)], "domain", "root_domain_match"),
       Question(seed.seedId, [Term("host", "." + v)], "domain", "host_suffix_match"),
       Question(seed.seedId, [Term("cert.domain", v)], "certificate", "certificate_domain_match")]
    case (Easm, OrganizationName) =>
      [Question(seed.seedId, [Term("cert.subject.org", v)], "organization", "organization_certificate_match"),
       Question(seed.seedId, [Term("title", v)], "organization", "organization_title_match"),
       Question(seed.seedId, [Term("org", v)], "organization", "asn_organization_match")]
    case _ => []
  }

  function Questions(strategy: Strategy, seeds: seq<Seed>): seq<Question> {
    if seeds == [] then []
    else
      var last := seeds[|seeds| - 1];
      Questions(strategy, seeds[..|seeds| - 1]) + QuestionsOf(strategy, last, Strip(last.value))
  }

  /** The plan with number `n` asks this question. */
  predicate Asks(p: Plan, q: Question, n: nat, taskId: string, pageLimit: int, resultLimit: int) {
    && p.planId == "plan_" + Padded(n, 3) && p.taskId == taskId && p.seedId == q.seedId
    && p.pageLimit == pageLimit && p.resultLimit == resultLimit
    && ReadQuery(p.sourceQuery) == Some(q.terms) && p.queryType == q.queryType && p.intent == q.intent
  }

  /** Plans from number `first` on, one for each question, in order. */
  ghost predicate AskInOrder(ps: seq<Plan>, qs: seq<Question>, first: nat, taskId: string, pageLimit: int,
      resultLimit: int) {
    |ps| == |qs| && forall i :: 0 <= i < |ps| ==> Asks(ps[i], qs[i], first + i, taskId, pageLimit, resultLimit)
  }

  /** Templates say what the questions say. */
  ghost predicate TemplatesAsk(ts: seq<Template>, qs: seq<Question>, seedId: string) {
    && |ts| == |qs|
    && forall i :: 0 <= i < |ts| ==>
         && ReadQuery(ts[i].query) == Some(qs[i].terms) && qs[i].seedId == seedId
         && ts[i].queryType == qs[i].queryType && ts[i].intent == qs[i].intent
  }

  lemma SeedAsks(strategy: Strategy, seed: Seed)
    requires Templates(strategy, seed).Ok?
    ensures TemplatesAsk(Templates(strategy, seed).value, QuestionsOf(strategy, seed, Strip(seed.value)), seed.seedId)
  {
    TemplatesReadBack(strategy, seed);
    var ts, v := Templates(strategy, seed).value, Strip(seed.value);
    assert |ts| == |Intended(strategy, seed.kind, v)|;
    QuestionsIntend(strategy, seed, v);
    if strategy.Baseline? {
      BaselineLabels(seed);
    } else {
      EasmLabels(seed);
    }
  }

  /** The terms of the questions are the intended ones. */
  lemma QuestionsIntend(strategy: Strategy, seed: Seed, v: string)
    ensures var qs, want := QuestionsOf(strategy, seed, v), Intended(strategy, seed.kind, v);
            |qs| == |want| && forall i :: 0 <= i < |qs| ==> qs[i].terms == want[i] && qs[i].seedId == seed.seedId
  {
  }

  /** Each template carries the labels of its question. */
  predicate SameLabels(ts: seq<Template>, qs: seq<Question>) {
    |ts| == |qs| && forall i :: 0 <= i < |ts| ==> ts[i].queryType == qs[i].queryType && ts[i].intent == qs[i].intent
  }

  lemma BaselineLabels(seed: Seed)
    requires BaselineTemplates(seed).Ok?
    ensures SameLabels(BaselineTemplates(seed).value, QuestionsOf(Baseline, seed, Strip(seed.value)))
  {
  }

  lemma EasmLabels(seed: Seed)
    requires EasmTemplates(seed).Ok?
    ensures SameLabels(EasmTemplates(seed).value, QuestionsOf(Easm, seed, Strip(seed.value)))
  {
  }

  lemma NumberedAsk(taskId: string, seed: Seed, ts: seq<Template>, qs: seq<Question>, n: nat, pageLimit: int,
      resultLimit: int)
    requires TemplatesAsk(ts, qs, seed.seedId)
    ensures AskInOrder(Numbered(taskId, seed, ts, n, pageLimit, resultLimit), qs, n, taskId, pageLimit, resultLimit)
  {
  }

  lemma AskBoth(a: seq<Plan>, b: seq<Plan>, qs: seq<Question>, rs: seq<Question>, taskId: string, pageLimit: int,
      resultLimit: int)
    requires AskInOrder(a, qs, 1, taskId, pageLimit, resultLimit)
    requires AskInOrder(b, rs, |a| + 1, taskId, pageLimit, resultLimit)
    ensures AskInOrder(a + b, qs + rs, 1, taskId, pageLimit, resultLimit)
  {
  }

  lemma AskMore(plans: seq<Plan>, rs: seq<Question>, taskId: string, seed: Seed, ts: seq<Template>, qs: seq<Question>,
      pageLimit: int, resultLimit: int)
    requires AskInOrder(plans, rs, 1, taskId, pageLimit, resultLimit) && TemplatesAsk(ts, qs, seed.seedId)
    ensures AskInOrder(plans + Numbered(taskId, seed, ts, |plans| + 1, pageLimit, resultLimit), rs + qs, 1,
                       taskId, pageLimit, resultLimit)
  {
    NumberedAsk(taskId, seed, ts, qs, |plans| + 1, pageLimit, resultLimit);
    AskBoth(plans, Numbered(taskId, seed, ts, |plans| + 1, pageLimit, resultLimit), rs, qs, taskId, pageLimit,
            resultLimit);
  }

  /** The plan list asks the questions of all seeds, seed by seed, numbered from 1. */
  lemma {:induction false} PlansAsk(taskId: string, seeds: seq<Seed>, pageLimit: int, resultLimit: int,
      strategy: Strategy)
    requires PlanSeeds(taskId, seeds, pageLimit, resultLimit, strategy).Ok?
    ensures AskInOrder(PlanSeeds(taskId, seeds, pageLimit, resultLimit, strategy).value, Questions(strategy, seeds), 1,
                       taskId, pageLimit, resultLimit)
  {
    if seeds != [] {
      var front, last := seeds[..|seeds| - 1], seeds[|seeds| - 1];
      PlansAsk(taskId, front, pageLimit, resultLimit, strategy);
      var plans, ts := PlanSeeds(taskId, front, pageLimit, resultLimit, strategy).value,
          Templates(strategy, last).value;
      var qs := QuestionsOf(strategy, last, Strip(last.value));
      SeedAsks(strategy, last);
      AskMore(plans, Questions(strategy, front), taskId, last, ts, qs, pageLimit, resultLimit);
    }
  }

  predicate Plannable(seed: Seed) {
    Strip(seed.value) != "" && (seed.kind.RootDomain? || seed.kind.OrganizationName? || seed.kind.IpCidr?)
  }

  lemma {:induction false} SeedsPlannedIff(taskId: string, seeds: seq<Seed>, pageLimit: int, resultLimit: int,
      strategy: Strategy)
    requires !strategy.OtherStrategy?
    ensures PlanSeeds(taskId, seeds, pageLimit, resultLimit, strategy).Ok? <==>
            forall i :: 0 <= i < |seeds| ==> Plannable(seeds[i])
  {
    if seeds != [] {
      var front, last := seeds[..|seeds| - 1], seeds[|seeds| - 1];
      SeedsPlannedIff(taskId, front, pageLimit, resultLimit, strategy);
      TemplatesReadBack(strategy, last);
      assert seeds == front + [last];
    }
  }

  /** The planner returns exactly for a known strategy and seeds of the three kinds with a text, and then it
      returns the questions of the seeds, one plan each. */
  lemma PlannedIff(taskId: string, seeds: seq<Seed>, pageLimit: int, resultLimit: int, strategy: Strategy)
    ensures PlanQueries(taskId, seeds, pageLimit, resultLimit, strategy).Ok? <==>
            !strategy.OtherStrategy? && forall i :: 0 <= i < |seeds| ==> Plannable(seeds[i])
    ensures PlanQueries(taskId, seeds, pageLimit, resultLimit, strategy).Ok? ==>
              AskInOrder(PlanQueries(taskId, seeds, pageLimit, resultLimit, strategy).value, Questions(strategy, seeds),
                  1,
                         taskId, pageLimit, resultLimit)
  {
    if !strategy.OtherStrategy? {
      SeedsPlannedIff(taskId, seeds, pageLimit, resultLimit, strategy);
      if PlanSeeds(taskId, seeds, pageLimit, resultLimit, strategy).Ok? {
        PlansAsk(taskId, seeds, pageLimit, resultLimit, strategy);
      }
    }
  }
}
