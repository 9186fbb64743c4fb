/** Query planning: seeds are expanded into provider queries with quoted values. */
module QueryPlanner {
  import opened Text
  import opened Models

  // ---------- escaping ----------

  /** `text.replace(c, to)` for a one-character `c`. */
  function Replace(s: string, c: char, to: string): string {
    if s == "" then "" else (if s[0] == c then to else [s[0]]) + Replace(s[1..], c, to)
  }

  function EscapeFofa(value: string): string {
    Replace(Replace(value, '\\', "\\\\"), '"', "\\\"")
  }

  /** One pass: a backslash before every backslash and every quote. */
  function Escape(v: string): string {
    if v == "" then ""
    else (if v[0] == '\\' || v[0] == '"' then ['\\', v[0]] else [v[0]]) + Escape(v[1..])
  }

  lemma {:induction false} ReplaceOfConcat(a: string, b: string, c: char, to: string)
    ensures Replace(a + b, c, to) == Replace(a, c, to) + Replace(b, c, to)
  {
    if a == "" {
      assert a + b == b;
    } else {
      assert (a + b)[1..] == a[1..] + b;
      ReplaceOfConcat(a[1..], b, c, to);
    }
  }

  lemma {:induction false} TwoReplacesAreOnePass(v: string)
    ensures EscapeFofa(v) == Escape(v)
  {
    if v != "" {
      var first := if v[0] == '\\' then "\\\\" else [v[0]];
      TwoReplacesAreOnePass(v[1..]);
      ReplaceOfConcat(first, Replace(v[1..], '\\', "\\\\"), '"', "\\\"");
      if v[0] == '\\' {
        assert "\\\\"[1..] == "\\" && "\\"[1..] == "";
        assert Replace("\\", '"', "\\\"") == "\\" + Replace("", '"', "\\\"");
        assert Replace(first, '"', "\\\"") == "\\\\";
      } else {
        assert [v[0]][1..] == "";
        assert Replace(first, '"', "\\\"") == if v[0] == '"' then "\\\"" else [v[0]];
      }
    }
  }

  // ---------- reading a query back ----------

  /** Read up to the first quote that no backslash precedes: the value and what follows the quote. */
  function ReadQuoted(s: string): Option<(string, string)> {
    if s == "" then None
    else if s[0] == '"' then Some(("", s[1..]))
    else if s[0] == '\\' then
      if |s| < 2 then None
      else match ReadQuoted(s[2..])
        case None => None
        case Some((v, rest)) => Some(([s[1]] + v, rest))
    else match ReadQuoted(s[1..])
      case None => None
      case Some((v, rest)) => Some(([s[0]] + v, rest))
  }

  /** The value is recovered and nothing of it reads as the closing quote. */
  lemma {:induction false} ReadQuotedOfEscaped(v: string, rest: string)
    ensures ReadQuoted(Escape(v) + ("\"" + rest)) == Some((v, rest))
  {
    var s := Escape(v) + ("\"" + rest);
    if v == "" {
      assert s == "\"" + rest;
    } else {
      ReadQuotedOfEscaped(v[1..], rest);
      var tail := Escape(v[1..]) + ("\"" + rest);
      assert v == [v[0]] + v[1..];
      if v[0] == '\\' || v[0] == '"' {
        assert s == ['\\', v[0]] + tail;
        assert s[2..] == tail;
      } else {
        assert s == [v[0]] + tail;
        assert s[1..] == tail;
      }
    }
  }

  function ReadName(s: string): Option<(string, string)> {
    if s == "" then None
    else if s[0] == '=' then Some(("", s[1..]))
    else match ReadName(s[1..])
      case None => None
      case Some((name, rest)) => Some(([s[0]] + name, rest))
  }

  lemma {:induction false} ReadNameOf(name: string, rest: string)
    requires forall i :: 0 <= i < |name| ==> name[i] != '='
    ensures ReadName(name + ("=" + rest)) == Some((name, rest))
  {
    var s := name + ("=" + rest);
    if name == "" {
      assert s == "=" + rest;
    } else {
      ReadNameOf(name[1..], rest);
      assert s[1..] == name[1..] + ("=" + rest);
      assert name == [name[0]] + name[1..];
    }
  }

  /** A field of a query and the text it must match. */
  datatype Term = Term(field: string, value: string)

  lemma {:induction false} ReadNameShrinks(s: string)
    requires ReadName(s).Some?
    ensures |ReadName(s).value.1| < |s|
  {
    if s[0] != '=' {
      ReadNameShrinks(s[1..]);
    }
  }

  lemma {:induction false} ReadQuotedShrinks(s: string)
    requires ReadQuoted(s).Some?
    ensures |ReadQuoted(s).value.1| < |s|
  {
    if s[0] == '"' {
    } else if s[0] == '\\' {
      ReadQuotedShrinks(s[2..]);
    } else {
      ReadQuotedShrinks(s[1..]);
    }
  }

  function DropText(s: string, mark: string): Option<string> {
    if |mark| <= |s| && s[..|mark|] == mark then Some(s[|mark|..]) else None
  }

  /** Parse `field="value" || field="value" ...`. */
  function ReadQuery(s: string): Option<seq<Term>>
    decreases |s|
  {
    match ReadName(s)
    case None => None
    case Some((field, afterName)) =>
      ReadNameShrinks(s);
      match DropText(afterName, "\"")
      case None => None
      case Some(quoted) =>
        match ReadQuoted(quoted)
        case None => None
        case Some((value, rest)) =>
          ReadQuotedShrinks(quoted);
          if rest == "" then Some([Term(field, value)])
          else match DropText(rest, " || ")
            case None => None
            case Some(more) =>
              match ReadQuery(more)
              case None => None
              case Some(terms) => Some([Term(field, value)] + terms)
  }

  function Quoted(field: string, escaped: string): string {
    field + ("=" + ("\"" + (escaped + "\"")))
  }

  lemma ReadOne(field: string, v: string)
    requires forall i :: 0 <= i < |field| ==> field[i] != '='
    ensures ReadQuery(Quoted(field, Escape(v))) == Some([Term(field, v)])
  {
    var quoted := Escape(v) + "\"";
    assert quoted == Escape(v) + ("\"" + "");
    ReadQuotedOfEscaped(v, "");
    ReadNameOf(field, "\"" + quoted);
    assert DropText("\"" + quoted, "\"") == Some(quoted);
  }

  lemma DropTextOf(mark: string, rest: string)
    ensures DropText(mark + rest, mark) == Some(rest)
  {
    assert (mark + rest)[..|mark|] == mark && (mark + rest)[|mark|..] == rest;
  }

  /** One term and the separator are read off the front. */
  lemma ReadStep(s: string, field: string, quoted: string, value: string, more: string)
    requires ReadName(s) == Some((field, "\"" + quoted)) && ReadQuoted(quoted) == Some((value, " || " + more))
    requires ReadQuery(more).Some?
    ensures ReadQuery(s) == Some([Term(field, value)] + ReadQuery(more).value)
  {
    DropTextOf("\"", quoted);
    DropTextOf(" || ", more);
  }

  lemma ReadMore(field: string, v: string, more: string)
    requires forall i :: 0 <= i < |field| ==> field[i] != '='
    requires ReadQuery(more).Some?
    ensures ReadQuery(Quoted(field, Escape(v)) + (" || " + more)) == Some([Term(field, v)] + ReadQuery(more).value)
  {
    var rest := " || " + more;
    var quoted := Escape(v) + ("\"" + rest);
    ReadQuotedOfEscaped(v, rest);
    ReadNameOf(field, "\"" + quoted);
    QuotedThen(field, Escape(v), rest);
    ReadStep(Quoted(field, Escape(v)) + rest, field, quoted, v, more);
  }

  lemma QuotedThen(field: string, escaped: string, rest: string)
    ensures Quoted(field, escaped) + rest == field + ("=" + ("\"" + (escaped + ("\"" + rest))))
  {
  }

  // ---------- templates ----------

  datatype Strategy = Baseline | Easm | OtherStrategy(name: string)

  datatype Template = Template(query: string, queryType: string, intent: string)

  function BaselineTemplates(seed: Seed): Result<seq<Template>> {
    var value := EscapeFofa(Strip(seed.value));
    if value == "" then Raised("Seed value is empty")
    else match seed.kind
      case RootDomain => Ok([Template(Quoted("domain", value), "domain", "root_domain_match")])
      case OrganizationName =>
        Ok([Template(Quoted("cert.subject.org", value) + (" || " + Quoted("title", value)), "organization",
            "organization_match")])
      case IpCidr => Ok([Template(Quoted("ip", value), "ip_range", "ip_range_match")])
      case EmailDomain => Raised("Unsupported seed type")
      case OtherKind(_) => Raised("Unsupported seed type")
  }

  function EasmTemplates(seed: Seed): Result<seq<Template>> {
    var value := EscapeFofa(Strip(seed.value));
    if value == "" then Raised("Seed value is empty")
    else match seed.kind
      case RootDomain =>
        Ok([Template(Quoted("domain", value), "domain", "root_domain_match"),
            Template(Quoted("host", "." + value), "domain", "host_suffix_match"),
            Template(Quoted("cert.domain", value), "certificate", "certificate_domain_match")])
      case OrganizationName =>
        Ok([Template(Quoted("cert.subject.org", value), "organization", "organization_certificate_match"),
            Template(Quoted("title", value), "organization", "organization_title_match"),
            Template(Quoted("org", value), "organization", "asn_organization_match")])
      case IpCidr => Ok([Template(Quoted("ip", value), "ip_range", "ip_range_match")])
      case EmailDomain => Raised("Unsupported seed type")
      case OtherKind(_) => Raised("Unsupported seed type")
  }

  function Templates(strategy: Strategy, seed: Seed): Result<seq<Template>> {
    match strategy
    case Baseline => BaselineTemplates(seed)
    case Easm => EasmTemplates(seed)
    case OtherStrategy(_) => Raised("Unsupported discovery strategy")
  }

  /** What each query asks for: fields and unescaped values. */
  function Intended(strategy: Strategy, kind: SeedKind, v: string): seq<seq<Term>> {
    match (strategy, kind)
    case (Baseline, RootDomain) => [[Term("domain", v)]]
    case (Baseline, OrganizationName) => [[Term("cert.subject.org", v), Term("title", v)]]
    case (Easm, RootDomain) => [[Term("domain", v)], [Term("host", "." + v)], [Term("cert.domain", v)]]
    case (Easm, OrganizationName) => [[Term("cert.subject.org", v)], [Term("title", v)], [Term("org", v)]]
    case (_, IpCidr) => [[Term("ip", v)]]
    case _ => []
  }

  lemma EscapedIsEmpty(v: string)
    ensures Escape(v) == "" <==> v == ""
  {
  }

  ghost predicate ReadsBack(ts: seq<Template>, want: seq<seq<Term>>) {
    |ts| == |want| && forall i :: 0 <= i < |ts| ==> ReadQuery(ts[i].query) == Some(want[i])
  }

  lemma OrganizationQuery(v: string)
    ensures ReadQuery(Quoted("cert.subject.org", Escape(v)) + (" || " + Quoted("title", Escape(v)))) ==
            Some([Term("cert.subject.org", v), Term("title", v)])
  {
    ReadOne("title", v);
    ReadMore("cert.subject.org", v, Quoted("title", Escape(v)));
    assert [Term("cert.subject.org", v)] + [Term("title", v)] == [Term("cert.subject.org", v), Term("title", v)];
  }

  lemma HostQuery(v: string)
    ensures ReadQuery(Quoted("host", "." + Escape(v))) == Some([Term("host", "." + v)])
  {
    assert ("." + v)[1..] == v;
    assert Escape("." + v) == "." + Escape(v);
    ReadOne("host", "." + v);
  }

  lemma BaselineReadsBack(seed: Seed, v: string)
    requires v == Strip(seed.value) && EscapeFofa(v) == Escape(v) && Escape(v) != ""
    requires BaselineTemplates(seed).Ok?
    ensures ReadsBack(BaselineTemplates(seed).value, Intended(Baseline, seed.kind, v))
  {
    match seed.kind
    case RootDomain => ReadOne("domain", v);
    case OrganizationName => OrganizationQuery(v);
    case IpCidr => ReadOne("ip", v);
    case _ =>
  }

  /** Three one-term queries read back. */
  lemma ThreeReadBack(ts: seq<Template>, f: string, g: string, h: string, v: string)
    requires |ts| == 3 && ts[0].query == Quoted(f, Escape(v)) && ts[1].query == Quoted(g, Escape(v))
    requires ts[2].query == Quoted(h, Escape(v))
    requires forall i :: 0 <= i < |f| ==> f[i] != '='
    requires forall i :: 0 <= i < |g| ==> g[i] != '='
    requires forall i :: 0 <= i < |h| ==> h[i] != '='
    ensures ReadsBack(ts, [[Term(f, v)], [Term(g, v)], [Term(h, v)]])
  {
    ReadOne(f, v);
    ReadOne(g, v);
    ReadOne(h, v);
  }

  lemma DomainQueriesReadBack(ts: seq<Template>, v: string)
    requires |ts| == 3 && ts[0].query == Quoted("domain", Escape(v)) && ts[1].query == Quoted("host", "." + Escape(v))
    requires ts[2].query == Quoted("cert.domain", Escape(v))
    ensures ReadsBack(ts, [[Term("domain", v)], [Term("host", "." + v)], [Term("cert.domain", v)]])
  {
    ReadOne("domain", v);
    HostQuery(v);
    ReadOne("cert.domain", v);
  }

  lemma EasmReadsBack(seed: Seed, v: string)
    requires v == Strip(seed.value) && EscapeFofa(v) == Escape(v) && Escape(v) != ""
    requires EasmTemplates(seed).Ok?
    ensures ReadsBack(EasmTemplates(seed).value, Intended(Easm, seed.kind, v))
  {
    match seed.kind
    case RootDomain => DomainQueriesReadBack(EasmTemplates(seed).value, v);
    case OrganizationName => ThreeReadBack(EasmTemplates(seed).value, "cert.subject.org", "title", "org", v);
    case IpCidr => ReadOne("ip", v);
    case _ =>
  }

  predicate Supported(kind: SeedKind) { kind.RootDomain? || kind.OrganizationName? || kind.IpCidr? }

  /** Templates exist exactly for supported strategies and seeds with text, and every query reads
      back as exactly its fields with the original trimmed value. */
  lemma TemplatesReadBack(strategy: Strategy, seed: Seed)
    ensures Templates(strategy, seed).Ok? <==>
        !strategy.OtherStrategy? && Strip(seed.value) != "" && Supported(seed.kind)
    ensures Templates(strategy, seed).Ok? ==>
              ReadsBack(Templates(strategy, seed).value, Intended(strategy, seed.kind, Strip(seed.value)))
  {
    var v := Strip(seed.value);
    TwoReplacesAreOnePass(v);
    EscapedIsEmpty(v);
    match strategy
    case Baseline => if BaselineTemplates(seed).Ok? { BaselineReadsBack(seed, v); }
    case Easm => if EasmTemplates(seed).Ok? { EasmReadsBack(seed, v); }
    case OtherStrategy(_) =>
  }

  // ---------- the plan list ----------

  function PlanId(n: nat): string { "plan_" + Padded(n, 3) }

  function PlanOf(taskId: string, seed: Seed, t: Template, n: nat, pageLimit: int, resultLimit: int): Plan {
    Plan(PlanId(n), taskId, seed.seedId, t.query, t.queryType, t.intent, pageLimit, resultLimit)
  }

  /** Number the templates of one seed from `n` on. */
  function Numbered(taskId: string, seed: Seed, ts: seq<Template>, n: nat, pageLimit: int,
      resultLimit: int): (ps: seq<Plan>)
    ensures |ps| == |ts|
  {
    seq(|ts|, i requires 0 <= i < |ts| => PlanOf(taskId, seed, ts[i], n + i, pageLimit, resultLimit))
  }

  /** The plans of one more seed, whose templates may have raised. */
  function WithSeed(plans: seq<Plan>, taskId: string, seed: Seed, ts: Result<seq<Template>>, pageLimit: int,
      resultLimit: int): Result<seq<Plan>> {
    match ts
    case Raised(e) => Raised(e)
    case Ok(ts) => Ok(plans + Numbered(taskId, seed, ts, |plans| + 1, pageLimit, resultLimit))
  }

  function PlanSeeds(taskId: string, seeds: seq<Seed>, pageLimit: int, resultLimit: int,
      strategy: Strategy): Result<seq<Plan>> {
    if seeds == [] then Ok([])
    else match PlanSeeds(taskId, seeds[..|seeds| - 1], pageLimit, resultLimit, strategy)
      case Raised(e) => Raised(e)
      case Ok(plans) =>
        WithSeed(plans, taskId, seeds[|seeds| - 1], Templates(strategy, seeds[|seeds| - 1]), pageLimit, resultLimit)
  }

  lemma OneSeedMore(taskId: string, seeds: seq<Seed>, pageLimit: int, resultLimit: int, strategy: Strategy, n: nat,
      plans: seq<Plan>, ts: Result<seq<Template>>)
    requires n < |seeds| && PlanSeeds(taskId, seeds[..n], pageLimit, resultLimit, strategy) == Ok(plans)
    requires ts == Templates(strategy, seeds[n])
    ensures PlanSeeds(taskId, seeds[..n + 1], pageLimit, resultLimit, strategy) ==
              WithSeed(plans, taskId, seeds[n], ts, pageLimit, resultLimit)
  {
    assert seeds[..n + 1][..n] == seeds[..n];
  }

  function PlanQueries(taskId: string, seeds: seq<Seed>, pageLimit: int, resultLimit: int,
      strategy: Strategy): Result<seq<Plan>> {
    if strategy.OtherStrategy? then Raised("Unsupported discovery strategy")
    else PlanSeeds(taskId, seeds, pageLimit, resultLimit, strategy)
  }

  lemma {:induction false} RaisedSeedsStay(taskId: string, seeds: seq<Seed>, pageLimit: int, resultLimit: int,
      strategy: Strategy, n: nat)
    requires n <= |seeds| && PlanSeeds(taskId, seeds[..n], pageLimit, resultLimit, strategy).Raised?
    ensures PlanSeeds(taskId, seeds, pageLimit, resultLimit, strategy) ==
        PlanSeeds(taskId, seeds[..n], pageLimit, resultLimit, strategy)
    decreases |seeds|
  {
    if n == |seeds| {
      assert seeds[..n] == seeds;
    } else {
      assert seeds[..|seeds| - 1][..n] == seeds[..n];
      RaisedSeedsStay(taskId, seeds[..|seeds| - 1], pageLimit, resultLimit, strategy, n);
    }
  }

  /** The inner loop: every plan is numbered by the length of the list it joins. */
  method AppendPlans(before: seq<Plan>, taskId: string, seed: Seed, ts: seq<Template>, pageLimit: int, resultLimit: int)
    returns (plans: seq<Plan>)
    ensures plans == before + Numbered(taskId, seed, ts, |before| + 1, pageLimit, resultLimit)
  {
    plans := before;
    for i := 0 to |ts|
      invariant plans == before + Numbered(taskId, seed, ts[..i], |before| + 1, pageLimit, resultLimit)
    {
      plans := plans + [PlanOf(taskId, seed, ts[i], |plans| + 1, pageLimit, resultLimit)];
    }
    assert ts[..|ts|] == ts;
  }

  method PlanFofaQueries(taskId: string, seeds: seq<Seed>, pageLimit: int, resultLimit: int, strategy: Strategy)
    returns (r: Result<seq<Plan>>)
    ensures r == PlanQueries(taskId, seeds, pageLimit, resultLimit, strategy)
  {
    if strategy.OtherStrategy? {
      return Raised("Unsupported discovery strategy");
    }
    var plans: seq<Plan> := [];
    for n := 0 to |seeds|
      invariant PlanSeeds(taskId, seeds[..n], pageLimit, resultLimit, strategy) == Ok(plans)
    {
      var templates := Templates(strategy, seeds[n]);
      OneSeedMore(taskId, seeds, pageLimit, resultLimit, strategy, n, plans, templates);
      if templates.Raised? {
        RaisedSeedsStay(taskId, seeds, pageLimit, resultLimit, strategy, n + 1);
        return Raised(templates.message);
      }
      plans := AppendPlans(plans, taskId, seeds[n], templates.value, pageLimit, resultLimit);
    }
    assert seeds[..|seeds|] == seeds;
    return Ok(plans);
  }

  /** How many queries a seed expands to. */
  function TemplateCount(strategy: Strategy, kind: SeedKind): nat {
    match (strategy, kind)
    case (Baseline, RootDomain) => 1
    case (Baseline, OrganizationName) => 1
    case (Easm, RootDomain) => 3
    case (Easm, OrganizationName) => 3
    case (_, IpCidr) => 1
    case _ => 0
  }

  function TotalCount(strategy: Strategy, seeds: seq<Seed>): nat {
    if seeds == [] then 0
    else TotalCount(strategy, seeds[..|seeds| - 1]) + TemplateCount(strategy, seeds[|seeds| - 1].kind)
  }

  lemma CountOfTemplates(strategy: Strategy, seed: Seed)
    requires Templates(strategy, seed).Ok?
    ensures |Templates(strategy, seed).value| == TemplateCount(strategy, seed.kind)
  {
  }

  ghost predicate NumberedFromOne(plans: seq<Plan>, taskId: string, pageLimit: int, resultLimit: int) {
    forall i :: 0 <= i < |plans| ==>
      && plans[i].planId == PlanId(i + 1) && plans[i].taskId == taskId
      && plans[i].pageLimit == pageLimit && plans[i].resultLimit == resultLimit
  }

  /** Plans are numbered 1, 2, ... without gaps, all carry the given limits, and there are as many
      as the seeds' templates. */
  lemma {:induction false} PlansAreNumbered(taskId: string, seeds: seq<Seed>, pageLimit: int, resultLimit: int,
      strategy: Strategy)
    requires PlanSeeds(taskId, seeds, pageLimit, resultLimit, strategy).Ok?
    ensures var plans := PlanSeeds(taskId, seeds, pageLimit, resultLimit, strategy).value;
            |plans| == TotalCount(strategy, seeds) && NumberedFromOne(plans, taskId, pageLimit, resultLimit)
  {
    if seeds != [] {
      var front, last := seeds[..|seeds| - 1], seeds[|seeds| - 1];
      PlansAreNumbered(taskId, front, pageLimit, resultLimit, strategy);
      var plans, ts := PlanSeeds(taskId, front, pageLimit, resultLimit, strategy).value, Templates(strategy, last);
      CountOfTemplates(strategy, last);
      assert PlanSeeds(taskId, seeds, pageLimit, resultLimit, strategy) ==
             WithSeed(plans, taskId, last, ts, pageLimit, resultLimit);
      AppendNumbered(plans, taskId, last, ts.value, pageLimit, resultLimit);
    }
  }

  lemma AppendNumbered(plans: seq<Plan>, taskId: string, seed: Seed, ts: seq<Template>, pageLimit: int,
      resultLimit: int)
    requires NumberedFromOne(plans, taskId, pageLimit, resultLimit)
    ensures NumberedFromOne(plans + Numbered(taskId, seed, ts, |plans| + 1, pageLimit, resultLimit), taskId, pageLimit,
        resultLimit)
  {
  }

  lemma PlanIdsDistinct(m: nat, n: nat)
    requires PlanId(m) == PlanId(n)
    ensures m == n
  {
    assert Padded(m, 3) == PlanId(m)[5..] && Padded(n, 3) == PlanId(n)[5..];
    ValueOfPadded(m, 3);
    ValueOfPadded(n, 3);
  }

  /** No two plans of a list share an id. */
  lemma PlansDistinct(taskId: string, seeds: seq<Seed>, pageLimit: int, resultLimit: int, strategy: Strategy)
    requires PlanQueries(taskId, seeds, pageLimit, resultLimit, strategy).Ok?
    ensures var plans := PlanQueries(taskId, seeds, pageLimit, resultLimit, strategy).value;
            forall i, j :: 0 <= i < j < |plans| ==> plans[i].planId != plans[j].planId
  {
    PlansAreNumbered(taskId, seeds, pageLimit, resultLimit, strategy);
    var plans := PlanQueries(taskId, seeds, pageLimit, resultLimit, strategy).value;
    forall i, j | 0 <= i < j < |plans| ensures plans[i].planId != plans[j].planId {
      if plans[i].planId == plans[j].planId {
        PlanIdsDistinct(i + 1, j + 1);
      }
    }
  }
}
