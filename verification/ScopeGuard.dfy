/** Tenant scope limits: a discovery request may only narrow the scope a tenant was granted. */
module ScopeGuard {
  import opened Text
  import opened Networks

  datatype ScopeKey = RootDomains | Domains | IpCidrs | OrgNames | OtherKey(name: string)

  type Scope = map<ScopeKey, seq<string>>

  datatype Profile = Profile(
    tenantId: string,
    profileId: string,
    rootDomains: seq<string>,
    domains: seq<string>,
    ipCidrs: seq<string>,
    orgNames: seq<string>,
    defaultScope: Scope,
    engines: seq<string>,
    maxResults: Option<int>,
    maxQueries: Option<int>,
    note: Option<string>,
    active: bool)

  datatype Rejection = Rejection(key: ScopeKey, value: string)

  datatype Validation = Validation(accepted: Scope, rejected: seq<Rejection>)

  /** The outcome of checking one value; comparing two address families raises `TypeError`. */
  datatype Verdict = Allowed | Refused | Crash(message: string)

  function VerdictOf(allowed: bool): Verdict { if allowed then Allowed else Refused }

  /** The address parser, `None` where it raises `ValueError`. */
  type AddressParser = string -> Option<IpNetwork>

  // ---------- names ----------

  function StripDots(s: string): string {
    if s != "" && s[|s| - 1] == '.' then StripDots(s[..|s| - 1]) else s
  }

  /** `value.strip().lower().rstrip(".")` */
  function Normalized(value: string): string {
    StripDots(Lower(Strip(value)))
  }

  predicate AmongNormalized(value: string, names: seq<string>) {
    exists i :: 0 <= i < |names| && Normalized(value) == Normalized(names[i])
  }

  predicate EndsWith(s: string, suffix: string) {
    |suffix| <= |s| && s[|s| - |suffix|..] == suffix
  }

  predicate UnderRoot(domain: string, root: string) {
    domain == root || EndsWith(domain, "." + root)
  }

  predicate DomainAllowed(p: Profile, value: string) {
    || AmongNormalized(value, p.domains)
    || exists i :: 0 <= i < |p.rootDomains| && UnderRoot(Normalized(value), Normalized(p.rootDomains[i]))
  }

  // ---------- a domain is under a root when the root's labels end its own ----------

  /** One more character: a dot starts a new label, anything else extends the last one. */
  function Extend(labels: seq<string>, c: char): (r: seq<string>)
    requires labels != []
    ensures r != []
  {
    var n := |labels| - 1;
    if c == '.' then labels + [""] else labels[..n] + [labels[n] + [c]]
  }

  function Labels(s: string): (ls: seq<string>)
    ensures ls != []
  {
    if s == "" then [""] else Extend(Labels(s[..|s| - 1]), s[|s| - 1])
  }

  function Dotted(ls: seq<string>): string
    requires ls != []
  {
    if |ls| == 1 then ls[0] else Dotted(ls[..|ls| - 1]) + "." + ls[|ls| - 1]
  }

  predicate LabelSuffix(root: string, domain: string) {
    |Labels(root)| <= |Labels(domain)| && Labels(domain)[|Labels(domain)| - |Labels(root)|..] == Labels(root)
  }

  lemma JoinExtended(labels: seq<string>, c: char)
    requires labels != []
    ensures Dotted(Extend(labels, c)) == Dotted(labels) + [c]
  {
    var r, n := Extend(labels, c), |labels| - 1;
    if c == '.' {
      assert r[..|r| - 1] == labels;
      assert Dotted(r) == Dotted(labels) + "." + "";
    } else if n > 0 {
      assert r[..n] == labels[..n];
      assert Dotted(r) == Dotted(labels[..n]) + "." + (labels[n] + [c]);
    }
  }

  lemma {:induction false} JoinLabels(s: string)
    ensures Dotted(Labels(s)) == s
  {
    if s == "" {
      assert Labels(s) == [""];
    } else {
      var front, last := s[..|s| - 1], s[|s| - 1];
      assert s == front + [last];
      JoinLabels(front);
      JoinExtended(Labels(front), last);
    }
  }

  lemma ExtendLater(a: seq<string>, b: seq<string>, c: char)
    requires b != []
    ensures Extend(a + b, c) == a + Extend(b, c)
  {
    assert (a + b)[..|a + b| - 1] == a + b[..|b| - 1];
  }

  lemma JoinedEnd(a: string, b: string)
    ensures var s := a + "." + b;
            if b == "" then s[..|s| - 1] == a && s[|s| - 1] == '.'
            else s[..|s| - 1] == a + "." + b[..|b| - 1] && s[|s| - 1] == b[|b| - 1]
  {
  }

  lemma {:induction false} LabelsOfJoined(a: string, b: string)
    ensures Labels(a + "." + b) == Labels(a) + Labels(b)
  {
    JoinedEnd(a, b);
    if b != "" {
      LabelsOfJoined(a, b[..|b| - 1]);
      ExtendLater(Labels(a), Labels(b[..|b| - 1]), b[|b| - 1]);
    }
  }

  lemma {:induction false} JoinOfParts(xs: seq<string>, ys: seq<string>)
    requires xs != [] && ys != []
    ensures Dotted(xs + ys) == Dotted(xs) + "." + Dotted(ys)
  {
    if |ys| == 1 {
      assert (xs + ys)[..|xs|] == xs;
    } else {
      assert (xs + ys)[..|xs + ys| - 1] == xs + ys[..|ys| - 1];
      JoinOfParts(xs, ys[..|ys| - 1]);
    }
  }

  lemma EndsWithAfter(a: string, suffix: string)
    ensures EndsWith(a + suffix, suffix)
  {
  }

  lemma UnderRootGivesLabels(domain: string, root: string)
    requires UnderRoot(domain, root)
    ensures LabelSuffix(root, domain)
  {
    if domain != root {
      var front := domain[..|domain| - |root| - 1];
      assert domain == front + "." + root;
      LabelsOfJoined(front, root);
    }
  }

  lemma JoinedPartsEnd(xs: seq<string>, ys: seq<string>)
    requires xs != [] && ys != []
    ensures EndsWith(Dotted(xs + ys), "." + Dotted(ys))
  {
    JoinOfParts(xs, ys);
    EndsWithAfter(Dotted(xs), "." + Dotted(ys));
    assert Dotted(xs) + ("." + Dotted(ys)) == Dotted(xs) + "." + Dotted(ys);
  }

  lemma PartsGiveUnderRoot(ls: seq<string>, rs: seq<string>)
    requires ls != [] && rs != [] && |rs| <= |ls| && ls[|ls| - |rs|..] == rs
    ensures UnderRoot(Dotted(ls), Dotted(rs))
  {
    var front := ls[..|ls| - |rs|];
    assert ls == front + rs;
    if front == [] {
      assert ls == rs;
    } else {
      JoinedPartsEnd(front, rs);
    }
  }

  lemma LabelsGiveUnderRoot(domain: string, root: string)
    requires LabelSuffix(root, domain)
    ensures UnderRoot(domain, root)
  {
    JoinLabels(domain);
    JoinLabels(root);
    PartsGiveUnderRoot(Labels(domain), Labels(root));
  }

  /** The suffix test respects label boundaries: it holds exactly when the root's labels are the
      last labels of the domain. */
  lemma UnderRootIsLabelSuffix(domain: string, root: string)
    ensures UnderRoot(domain, root) <==> LabelSuffix(root, domain)
  {
    if UnderRoot(domain, root) {
      UnderRootGivesLabels(domain, root);
    } else if LabelSuffix(root, domain) {
      LabelsGiveUnderRoot(domain, root);
    }
  }

  // ---------- networks ----------

  /** `any(requested.subnet_of(allowed) ...)` */
  function AnySubnet(requested: IpNetwork, allowed: seq<IpNetwork>): Verdict
  {
    if allowed == [] then Refused
    else if requested.v4 != allowed[0].v4 then Crash("not of the same version")
    else if SubnetOf(Masked(requested), Masked(allowed[0])) then Allowed
    else AnySubnet(requested, allowed[1..])
  }

  function ParseAll(parse: AddressParser, texts: seq<string>): (r: Option<seq<IpNetwork>>)
    ensures r.Some? <==> forall i :: 0 <= i < |texts| ==> parse(texts[i]).Some?
    ensures r.Some? ==> |r.value| == |texts| && forall i :: 0 <= i < |texts| ==> r.value[i] == parse(texts[i]).value
  {
    if texts == [] then Some([])
    else match (parse(texts[0]), ParseAll(parse, texts[1..]))
      case (Some(n), Some(ns)) => Some([n] + ns)
      case _ => None
  }

  function CidrAllowed(parse: AddressParser, p: Profile, value: string): Verdict
  {
    match (parse(value), ParseAll(parse, p.ipCidrs))
    case (Some(requested), Some(allowed)) => AnySubnet(requested, allowed)
    case _ => Refused
  }

  /** Every address of `requested` is an address of `allowed`. */
  ghost predicate Inside(requested: IpNetwork, allowed: IpNetwork)
  {
    requested.v4 == allowed.v4 && forall x: nat :: InNetwork(x, Masked(requested)) ==> InNetwork(x, Masked(allowed))
  }

  lemma {:induction false} AnySubnetIsExact(requested: IpNetwork, allowed: seq<IpNetwork>)
    requires forall i :: 0 <= i < |allowed| ==> allowed[i].v4 == requested.v4
    ensures AnySubnet(requested, allowed) == VerdictOf(exists i :: 0 <= i < |allowed| && Inside(requested, allowed[i]))
  {
    if allowed != [] {
      SubnetIsContainment(Masked(requested), Masked(allowed[0]));
      AnySubnetIsExact(requested, allowed[1..]);
      assert allowed == [allowed[0]] + allowed[1..];
      if Inside(requested, allowed[0]) {
      } else {
        assert forall i :: 0 <= i < |allowed[1..]| ==> allowed[1..][i] == allowed[i + 1];
        if exists i :: 0 <= i < |allowed| && Inside(requested, allowed[i]) {
          var i :| 0 <= i < |allowed| && Inside(requested, allowed[i]);
          assert Inside(requested, allowed[1..][i - 1]);
        }
      }
    }
  }

  lemma {:induction false} AnySubnetOutcomes(requested: IpNetwork, allowed: seq<IpNetwork>)
    ensures AnySubnet(requested, allowed) == Allowed ==> exists i :: 0 <= i < |allowed| && Inside(requested, allowed[i])
    ensures AnySubnet(requested, allowed) == Refused <==> NoneInsideBefore(requested, allowed, |allowed|)
    ensures AnySubnet(requested, allowed).Crash? <==>
            exists k :: 0 <= k < |allowed| && allowed[k].v4 != requested.v4 && NoneInsideBefore(requested, allowed, k)
  {
    if allowed != [] {
      var rest := allowed[1..];
      AnySubnetOutcomes(requested, rest);
      if requested.v4 != allowed[0].v4 {
        assert NoneInsideBefore(requested, allowed, 0);
      } else {
        SubnetIsContainment(Masked(requested), Masked(allowed[0]));
        assert forall i :: 0 <= i < |rest| ==> rest[i] == allowed[i + 1];
        if SubnetOf(Masked(requested), Masked(allowed[0])) {
          assert Inside(requested, allowed[0]);
        } else {
          assert !Inside(requested, allowed[0]);
          forall k | 0 < k < |allowed|
            ensures NoneInsideBefore(requested, allowed, k) <==> NoneInsideBefore(requested, rest, k - 1)
          {
          }
          if AnySubnet(requested, rest).Crash? {
            var k :| 0 <= k < |rest| && rest[k].v4 != requested.v4 && NoneInsideBefore(requested, rest, k);
            assert NoneInsideBefore(requested, allowed, k + 1);
          }
        }
      }
    }
  }

  /** The first `k` allowed networks are of the request's family and none contains the request. */
  ghost predicate NoneInsideBefore(requested: IpNetwork, allowed: seq<IpNetwork>, k: int)
    requires 0 <= k <= |allowed|
  {
    forall i :: 0 <= i < k ==> allowed[i].v4 == requested.v4 && !Inside(requested, allowed[i])
  }

  // ---------- validating a request ----------

  function Check(parse: AddressParser, p: Profile, key: ScopeKey, value: string): Verdict
  {
    match key
    case RootDomains => VerdictOf(AmongNormalized(value, p.rootDomains))
    case Domains => VerdictOf(DomainAllowed(p, value))
    case IpCidrs => CidrAllowed(parse, p, value)
    case OrgNames => VerdictOf(AmongNormalized(value, p.orgNames))
    case OtherKey(_) => Refused
  }

  function ValuesOf(scope: Scope, key: ScopeKey): seq<string> {
    if key in scope then scope[key] else []
  }

  /** `accepted.setdefault(key, []).append(value)` */
  function Append(scope: Scope, key: ScopeKey, value: string): Scope {
    scope[key := ValuesOf(scope, key) + [value]]
  }

  type Checker = string -> Verdict

  function CheckerOf(parse: AddressParser, p: Profile, key: ScopeKey): Checker {
    (value: string) => Check(parse, p, key, value)
  }

  /** The inner loop: sort the trimmed values of one key into accepted and rejected. */
  function CheckValues(check: Checker, key: ScopeKey, values: seq<string>, v: Validation): Result<Validation>
  {
    if values == [] then Ok(v)
    else match CheckValues(check, key, values[..|values| - 1], v)
      case Raised(e) => Raised(e)
      case Ok(w) =>
        var value := Strip(values[|values| - 1]);
        match check(value)
        case Crash(e) => Raised(e)
        case Allowed => Ok(w.(accepted := Append(w.accepted, key, value)))
        case Refused => Ok(w.(rejected := w.rejected + [Rejection(key, value)]))
  }

  const CHECKED_KEYS := [RootDomains, Domains, IpCidrs, OrgNames]

  function CheckKeys(parse: AddressParser, p: Profile, scope: Scope, keys: seq<ScopeKey>): Result<Validation>
  {
    if keys == [] then Ok(Validation(map[], []))
    else match CheckKeys(parse, p, scope, keys[..|keys| - 1])
      case Raised(e) => Raised(e)
      case Ok(v) => CheckValues(CheckerOf(parse, p, keys[|keys| - 1]), keys[|keys| - 1],
          ValuesOf(scope, keys[|keys| - 1]), v)
  }

  predicate AnyValue(scope: Scope) {
    exists k :: k in scope && scope[k] != []
  }

  function Limit(p: Profile, resultLimit: int): int {
    if p.maxResults.Some? then p.maxResults.value else resultLimit
  }

  /** The checks that raise `ScopeValidationError` rather than anything else. */
  predicate LimitsPass(p: Profile, engines: seq<string>, resultLimit: int) {
    p.active && (forall i :: 0 <= i < |engines| ==> engines[i] in p.engines) && resultLimit <= Limit(p, resultLimit)
  }

  function ValidateScope(parse: AddressParser, p: Profile, requested: Scope, engines: seq<string>,
      resultLimit: int): Result<Validation>
  {
    if !p.active then Raised("Scope profile is not active")
    else if exists i :: 0 <= i < |engines| && engines[i] !in p.engines then Raised("Requested engine is not allowed")
    else if resultLimit > Limit(p, resultLimit) then Raised("result_limit exceeds tenant limit")
    else CheckKeys(parse, p, if AnyValue(requested) then requested else p.defaultScope, CHECKED_KEYS)
  }

  // ---------- the loops ----------

  lemma {:induction false} RaisedValuesStay(check: Checker, key: ScopeKey, values: seq<string>, v: Validation, i: nat)
    requires i <= |values| && CheckValues(check, key, values[..i], v).Raised?
    ensures CheckValues(check, key, values, v) == CheckValues(check, key, values[..i], v)
    decreases |values|
  {
    if i == |values| {
      assert values[..i] == values;
    } else {
      assert values[..|values| - 1][..i] == values[..i];
      RaisedValuesStay(check, key, values[..|values| - 1], v, i);
    }
  }

  lemma {:induction false} RaisedKeysStay(parse: AddressParser, p: Profile, scope: Scope, keys: seq<ScopeKey>, n: nat)
    requires n <= |keys| && CheckKeys(parse, p, scope, keys[..n]).Raised?
    ensures CheckKeys(parse, p, scope, keys) == CheckKeys(parse, p, scope, keys[..n])
    decreases |keys|
  {
    if n == |keys| {
      assert keys[..n] == keys;
    } else {
      assert keys[..|keys| - 1][..n] == keys[..n];
      RaisedKeysStay(parse, p, scope, keys[..|keys| - 1], n);
    }
  }

  method CheckEach(parse: AddressParser, p: Profile, key: ScopeKey, values: seq<string>, before: Validation)
    returns (r: Result<Validation>)
    ensures r == CheckValues(CheckerOf(parse, p, key), key, values, before)
  {
    ghost var check := CheckerOf(parse, p, key);
    var accepted, rejected := before.accepted, before.rejected;
    for i := 0 to |values|
      invariant CheckValues(check, key, values[..i], before) == Ok(Validation(accepted, rejected))
    {
      assert values[..i + 1][..i] == values[..i];
      var value := Strip(values[i]);
      var allowed := Check(parse, p, key, value);
      if allowed.Crash? {
        RaisedValuesStay(check, key, values, before, i + 1);
        return Raised(allowed.message);
      }
      if allowed.Allowed? {
        accepted := Append(accepted, key, value);
      } else {
        rejected := rejected + [Rejection(key, value)];
      }
    }
    assert values[..|values|] == values;
    return Ok(Validation(accepted, rejected));
  }

  method ValidateRequestedScope(parse: AddressParser, p: Profile, requested: Scope, engines: seq<string>,
      resultLimit: int)
    returns (r: Result<Validation>)
    ensures r == ValidateScope(parse, p, requested, engines, resultLimit)
  {
    if !p.active {
      return Raised("Scope profile is not active");
    }
    if exists i :: 0 <= i < |engines| && engines[i] !in p.engines {
      return Raised("Requested engine is not allowed");
    }
    if resultLimit > Limit(p, resultLimit) {
      return Raised("result_limit exceeds tenant limit");
    }
    var scope := if AnyValue(requested) then requested else p.defaultScope;
    r := Ok(Validation(map[], []));
    for n := 0 to |CHECKED_KEYS|
      invariant r.Ok? && r == CheckKeys(parse, p, scope, CHECKED_KEYS[..n])
    {
      assert CHECKED_KEYS[..n + 1][..n] == CHECKED_KEYS[..n];
      r := CheckEach(parse, p, CHECKED_KEYS[n], ValuesOf(scope, CHECKED_KEYS[n]), r.value);
      if r.Raised? {
        RaisedKeysStay(parse, p, scope, CHECKED_KEYS, n + 1);
        return;
      }
    }
    assert CHECKED_KEYS[..|CHECKED_KEYS|] == CHECKED_KEYS;
  }

  // ---------- main results ----------

  /** The trimmed values whose check came out as `want`, in order. */
  function WithVerdict(check: Checker, values: seq<string>, want: Verdict): seq<string> {
    if values == [] then []
    else
      var front, value := WithVerdict(check, values[..|values| - 1], want), Strip(values[|values| - 1]);
      if check(value) == want then front + [value] else front
  }

  function Rejections(key: ScopeKey, values: seq<string>): seq<Rejection> {
    seq(|values|, i requires 0 <= i < |values| => Rejection(key, values[i]))
  }

  function AppendAll(scope: Scope, key: ScopeKey, values: seq<string>): Scope {
    if values == [] then scope else scope[key := ValuesOf(scope, key) + values]
  }

  predicate AllChecked(check: Checker, values: seq<string>) {
    forall i :: 0 <= i < |values| ==> !check(Strip(values[i])).Crash?
  }

  lemma AllCheckedLast(check: Checker, values: seq<string>)
    requires values != []
    ensures AllChecked(check, values) <==>
        AllChecked(check, values[..|values| - 1]) && !check(Strip(values[|values| - 1])).Crash?
  {
    var front := values[..|values| - 1];
    assert forall i :: 0 <= i < |front| ==> front[i] == values[i];
  }

  lemma {:induction false} CheckedByVerdict(check: Checker, key: ScopeKey, values: seq<string>, v: Validation)
    ensures CheckValues(check, key, values, v).Ok? <==> AllChecked(check, values)
    ensures AllChecked(check, values) ==>
              CheckValues(check, key, values, v) ==
                Ok(Validation(AppendAll(v.accepted, key, WithVerdict(check, values, Allowed)),
                              v.rejected + Rejections(key, WithVerdict(check, values, Refused))))
  {
    if values == [] {
      assert v.rejected + Rejections(key, []) == v.rejected;
    } else {
      var front, last := values[..|values| - 1], values[|values| - 1];
      CheckedByVerdict(check, key, front, v);
      AllCheckedLast(check, values);
      if AllChecked(check, values) {
        var yes, no := WithVerdict(check, front, Allowed), WithVerdict(check, front, Refused);
        if check(Strip(last)) == Allowed {
          AppendOne(v.accepted, key, yes, Strip(last));
        } else {
          RejectOne(v.rejected, key, no, Strip(last));
        }
      }
    }
  }

  lemma RejectOne(rejected: seq<Rejection>, key: ScopeKey, values: seq<string>, value: string)
    ensures rejected + Rejections(key, values) + [Rejection(key, value)] == rejected + Rejections(key, values + [value])
  {
    assert Rejections(key, values + [value]) == Rejections(key, values) + [Rejection(key, value)];
  }

  lemma AppendOne(scope: Scope, key: ScopeKey, values: seq<string>, value: string)
    ensures Append(AppendAll(scope, key, values), key, value) == AppendAll(scope, key, values + [value])
  {
    if values == [] {
      assert [] + [value] == [value];
    } else {
      assert ValuesOf(scope, key) + values + [value] == ValuesOf(scope, key) + (values + [value]);
    }
  }

  function Flags(check: Checker, values: seq<string>): seq<bool> {
    seq(|values|, i requires 0 <= i < |values| => check(Strip(values[i])) == Allowed)
  }

  /** Put two lists back together, taking from `yes` where the flag is set and from `no` elsewhere. */
  function Weave(flags: seq<bool>, yes: seq<string>, no: seq<string>): seq<string> {
    if flags == [] then []
    else
      var front := flags[..|flags| - 1];
      if flags[|flags| - 1] then (if yes == [] then [] else Weave(front, yes[..|yes| - 1], no) + [yes[|yes| - 1]])
      else (if no == [] then [] else Weave(front, yes, no[..|no| - 1]) + [no[|no| - 1]])
  }

  function Trimmed(values: seq<string>): seq<string> {
    seq(|values|, i requires 0 <= i < |values| => Strip(values[i]))
  }

  lemma WeaveOneMore(flags: seq<bool>, yes: seq<string>, no: seq<string>, x: string)
    ensures Weave(flags + [true], yes + [x], no) == Weave(flags, yes, no) + [x]
    ensures Weave(flags + [false], yes, no + [x]) == Weave(flags, yes, no) + [x]
  {
    assert (flags + [true])[..|flags|] == flags && (flags + [false])[..|flags|] == flags;
    assert (yes + [x])[..|yes|] == yes && (no + [x])[..|no|] == no;
  }

  lemma LastOfLists(check: Checker, values: seq<string>)
    requires values != []
    ensures var front, last := values[..|values| - 1], Strip(values[|values| - 1]);
            && Trimmed(values) == Trimmed(front) + [last]
            && Flags(check, values) == Flags(check, front) + [check(last) == Allowed]
  {
  }

  /** The checks of one key split its values in order with nothing lost: the accepted and the
      rejected values weave back into the trimmed request. */
  lemma {:induction false} NothingLost(check: Checker, values: seq<string>)
    requires AllChecked(check, values)
    ensures Weave(Flags(check, values), WithVerdict(check, values, Allowed), WithVerdict(check, values, Refused)) ==
        Trimmed(values)
    ensures |WithVerdict(check, values, Allowed)| + |WithVerdict(check, values, Refused)| == |values|
  {
    if values != [] {
      var front, value := values[..|values| - 1], Strip(values[|values| - 1]);
      AllCheckedLast(check, values);
      NothingLost(check, front);
      LastOfLists(check, values);
      WeaveOneMore(Flags(check, front), WithVerdict(check, front, Allowed), WithVerdict(check, front, Refused), value);
    }
  }

  // ---------- the whole request ----------

  function AcceptedOf(parse: AddressParser, p: Profile, scope: Scope, k: ScopeKey): seq<string> {
    WithVerdict(CheckerOf(parse, p, k), ValuesOf(scope, k), Allowed)
  }

  function RejectedOf(parse: AddressParser, p: Profile, scope: Scope, k: ScopeKey): seq<Rejection> {
    Rejections(k, WithVerdict(CheckerOf(parse, p, k), ValuesOf(scope, k), Refused))
  }

  function AllRejected(parse: AddressParser, p: Profile, scope: Scope, keys: seq<ScopeKey>): seq<Rejection> {
    if keys == [] then []
    else AllRejected(parse, p, scope, keys[..|keys| - 1]) + RejectedOf(parse, p, scope, keys[|keys| - 1])
  }

  /** Exactly these keys are split, in this order; a key is in the accepted scope only with a value. */
  ghost predicate IsSplit(parse: AddressParser, p: Profile, scope: Scope, keys: seq<ScopeKey>, v: Validation) {
    && (forall k :: k in v.accepted ==> k in keys && v.accepted[k] != [])
    && (forall k :: k in keys ==> ValuesOf(v.accepted, k) == AcceptedOf(parse, p, scope, k))
    && v.rejected == AllRejected(parse, p, scope, keys)
  }

  predicate KeysChecked(parse: AddressParser, p: Profile, scope: Scope, keys: seq<ScopeKey>) {
    forall k :: k in keys ==> AllChecked(CheckerOf(parse, p, k), ValuesOf(scope, k))
  }

  /** Unless an address-family clash stops it, the validation splits the whole request. */
  lemma {:induction false} KeysAreSplit(parse: AddressParser, p: Profile, scope: Scope, keys: seq<ScopeKey>)
    requires forall i, j :: 0 <= i < j < |keys| ==> keys[i] != keys[j]
    ensures CheckKeys(parse, p, scope, keys).Ok? <==> KeysChecked(parse, p, scope, keys)
    ensures KeysChecked(parse, p, scope, keys) ==>
        IsSplit(parse, p, scope, keys, CheckKeys(parse, p, scope, keys).value)
  {
    if keys != [] {
      var front, key := keys[..|keys| - 1], keys[|keys| - 1];
      assert keys == front + [key];
      KeysAreSplit(parse, p, scope, front);
      var before := CheckKeys(parse, p, scope, front);
      if before.Ok? {
        var check, values := CheckerOf(parse, p, key), ValuesOf(scope, key);
        CheckedByVerdict(check, key, values, before.value);
        if AllChecked(check, values) {
          SplitGrows(parse, p, scope, front, key, before.value);
        }
      }
    }
  }

  lemma SplitGrows(parse: AddressParser, p: Profile, scope: Scope, front: seq<ScopeKey>, key: ScopeKey, v: Validation)
    requires key !in front && IsSplit(parse, p, scope, front, v)
    ensures IsSplit(parse, p, scope, front + [key],
                    Validation(AppendAll(v.accepted, key, AcceptedOf(parse, p, scope, key)),
                               v.rejected + RejectedOf(parse, p, scope, key)))
  {
    assert (front + [key])[..|front|] == front;
    AcceptedGrows(v.accepted, front, key, k => AcceptedOf(parse, p, scope, k));
  }

  lemma AcceptedGrows(accepted: Scope, front: seq<ScopeKey>, key: ScopeKey, want: ScopeKey -> seq<string>)
    requires key !in front
    requires forall k :: k in accepted ==> k in front && accepted[k] != []
    requires forall k :: k in front ==> ValuesOf(accepted, k) == want(k)
    ensures var grown := AppendAll(accepted, key, want(key));
            && (forall k :: k in grown ==> k in front + [key] && grown[k] != [])
            && (forall k :: k in front + [key] ==> ValuesOf(grown, k) == want(k))
  {
    assert ValuesOf(accepted, key) == [] && [] + want(key) == want(key);
  }

  lemma {:induction false} AllowedStayAllowed(check: Checker, values: seq<string>)
    ensures forall x :: x in WithVerdict(check, values, Allowed) ==> check(x) == Allowed && Strip(x) == x
  {
    if values != [] {
      AllowedStayAllowed(check, values[..|values| - 1]);
      StripIdempotent(values[|values| - 1]);
    }
  }

  lemma {:induction false} AllowedStay(check: Checker, values: seq<string>)
    requires forall x :: x in values ==> check(x) == Allowed && Strip(x) == x
    ensures WithVerdict(check, values, Allowed) == values && WithVerdict(check, values, Refused) == []
    ensures AllChecked(check, values)
  {
    if values != [] {
      var front, last := values[..|values| - 1], values[|values| - 1];
      AllowedStay(check, front);
      AllCheckedLast(check, values);
      assert last in values;
    }
  }

  lemma CheckedKeysDistinct()
    ensures forall i, j :: 0 <= i < j < |CHECKED_KEYS| ==> CHECKED_KEYS[i] != CHECKED_KEYS[j]
  {
  }

  lemma {:induction false} NothingRejected(parse: AddressParser, p: Profile, scope: Scope, keys: seq<ScopeKey>)
    requires forall k :: k in keys ==> RejectedOf(parse, p, scope, k) == []
    ensures AllRejected(parse, p, scope, keys) == []
  {
    if keys != [] {
      NothingRejected(parse, p, scope, keys[..|keys| - 1]);
      assert keys[|keys| - 1] in keys;
    }
  }

  /** Validating a non-empty accepted scope again accepts all of it, unchanged. (An empty one falls
      back to the default scope.) */
  lemma RevalidationAcceptsAll(parse: AddressParser, p: Profile, requested: Scope, engines: seq<string>,
      resultLimit: int)
    requires ValidateScope(parse, p, requested, engines, resultLimit).Ok?
    requires ValidateScope(parse, p, requested, engines, resultLimit).value.accepted != map[]
    ensures var v := ValidateScope(parse, p, requested, engines, resultLimit).value;
            ValidateScope(parse, p, v.accepted, engines, resultLimit) == Ok(Validation(v.accepted, []))
  {
    var scope := if AnyValue(requested) then requested else p.defaultScope;
    var accepted := CheckKeys(parse, p, scope, CHECKED_KEYS).value.accepted;
    CheckedKeysDistinct();
    KeysAreSplit(parse, p, scope, CHECKED_KEYS);
    var k :| k in accepted;
    assert AnyValue(accepted);
    forall k | k in CHECKED_KEYS
      ensures ValuesOf(accepted, k) == AcceptedOf(parse, p, scope, k)
    {
    }
    AcceptedStays(parse, p, scope, accepted);
  }

  /** The scope has no value under any key the validator checks. */
  predicate NothingToCheck(scope: Scope) {
    forall k :: k in CHECKED_KEYS ==> ValuesOf(scope, k) == []
  }

  lemma {:induction false} RejectedByKey(parse: AddressParser, p: Profile, scope: Scope, keys: seq<ScopeKey>)
    requires AllRejected(parse, p, scope, keys) == []
    ensures forall k :: k in keys ==> RejectedOf(parse, p, scope, k) == []
  {
    if keys != [] {
      var front, last := keys[..|keys| - 1], keys[|keys| - 1];
      assert keys == front + [last];
      RejectedByKey(parse, p, scope, front);
    }
  }

  /** An empty outcome means that there was nothing to check. */
  lemma EmptySplit(parse: AddressParser, p: Profile, scope: Scope)
    requires IsSplit(parse, p, scope, CHECKED_KEYS, Validation(map[], [])) && KeysChecked(parse, p, scope, CHECKED_KEYS)
    ensures NothingToCheck(scope)
  {
    RejectedByKey(parse, p, scope, CHECKED_KEYS);
    forall k | k in CHECKED_KEYS ensures ValuesOf(scope, k) == [] {
      var nothing: Scope := map[];
      assert ValuesOf(nothing, k) == AcceptedOf(parse, p, scope, k);
      NoValues(parse, p, scope, k);
    }
  }

  /** Nothing is accepted and nothing rejected exactly if there was nothing to check. */
  lemma EmptyOutcomeIff(parse: AddressParser, p: Profile, scope: Scope)
    ensures CheckKeys(parse, p, scope, CHECKED_KEYS) == Ok(Validation(map[], [])) <==> NothingToCheck(scope)
  {
    if NothingToCheck(scope) {
      NothingComesOut(parse, p, scope, CHECKED_KEYS);
    } else if CheckKeys(parse, p, scope, CHECKED_KEYS) == Ok(Validation(map[], [])) {
      CheckedKeysDistinct();
      KeysAreSplit(parse, p, scope, CHECKED_KEYS);
      EmptySplit(parse, p, scope);
    }
  }

  lemma NoValues(parse: AddressParser, p: Profile, scope: Scope, k: ScopeKey)
    requires AcceptedOf(parse, p, scope, k) == [] && RejectedOf(parse, p, scope, k) == []
    requires AllChecked(CheckerOf(parse, p, k), ValuesOf(scope, k))
    ensures ValuesOf(scope, k) == []
  {
    NothingLost(CheckerOf(parse, p, k), ValuesOf(scope, k));
    assert |RejectedOf(parse, p, scope, k)| == |WithVerdict(CheckerOf(parse, p, k), ValuesOf(scope, k), Refused)|;
  }

  lemma {:induction false} NothingComesOut(parse: AddressParser, p: Profile, scope: Scope, keys: seq<ScopeKey>)
    requires forall k :: k in keys ==> ValuesOf(scope, k) == []
    ensures CheckKeys(parse, p, scope, keys) == Ok(Validation(map[], []))
  {
    if keys != [] {
      NothingComesOut(parse, p, scope, keys[..|keys| - 1]);
      assert keys[|keys| - 1] in keys;
    }
  }

  /** Validating what was accepted again changes nothing if and only if something was accepted, or the
      default scope, which then takes its place, has nothing to check either. */
  lemma RevalidationIff(parse: AddressParser, p: Profile, requested: Scope, engines: seq<string>, resultLimit: int)
    requires ValidateScope(parse, p, requested, engines, resultLimit).Ok?
    ensures var v := ValidateScope(parse, p, requested, engines, resultLimit).value;
            ValidateScope(parse, p, v.accepted, engines, resultLimit) == Ok(Validation(v.accepted, [])) <==>
              v.accepted != map[] || NothingToCheck(p.defaultScope)
  {
    var v := ValidateScope(parse, p, requested, engines, resultLimit).value;
    if v.accepted != map[] {
      RevalidationAcceptsAll(parse, p, requested, engines, resultLimit);
    } else {
      assert !AnyValue(v.accepted);
      EmptyOutcomeIff(parse, p, p.defaultScope);
    }
  }

  lemma {:induction false} SameChecks(parse: AddressParser, p: Profile, a: Scope, b: Scope, keys: seq<ScopeKey>)
    requires forall k :: k in keys ==> ValuesOf(a, k) == ValuesOf(b, k)
    ensures CheckKeys(parse, p, a, keys) == CheckKeys(parse, p, b, keys)
  {
    if keys != [] {
      SameChecks(parse, p, a, b, keys[..|keys| - 1]);
      assert keys[|keys| - 1] in keys;
    }
  }

  /** Values under keys the validator does not know are dropped without a rejection: requests that agree
      on the checked keys are validated alike if and only if they also agree on whether they hold any value
      at all, or the default scope has nothing to check, or the limits refuse both. */
  lemma UnknownKeysIgnored(parse: AddressParser, p: Profile, a: Scope, b: Scope, engines: seq<string>, resultLimit: int)
    requires forall k :: k in CHECKED_KEYS ==> ValuesOf(a, k) == ValuesOf(b, k)
    ensures ValidateScope(parse, p, a, engines, resultLimit) == ValidateScope(parse, p, b, engines, resultLimit) <==>
              AnyValue(a) == AnyValue(b) || NothingToCheck(p.defaultScope) || !LimitsPass(p, engines, resultLimit)
  {
    SameChecks(parse, p, a, b, CHECKED_KEYS);
    if LimitsPass(p, engines, resultLimit) && AnyValue(a) != AnyValue(b) {
      NoValueNothingToCheck(a, b);
      EmptyOutcomeIff(parse, p, a);
      EmptyOutcomeIff(parse, p, b);
      EmptyOutcomeIff(parse, p, p.defaultScope);
    }
  }

  lemma NoValueNothingToCheck(a: Scope, b: Scope)
    requires (forall k :: k in CHECKED_KEYS ==> ValuesOf(a, k) == ValuesOf(b, k)) && AnyValue(a) != AnyValue(b)
    ensures NothingToCheck(a) && NothingToCheck(b)
  {
    forall k | k in CHECKED_KEYS ensures ValuesOf(a, k) == [] == ValuesOf(b, k) {
      assert ValuesOf(a, k) != [] ==> AnyValue(a) && AnyValue(b);
    }
  }

  /** A request whose only values are under unknown keys keeps the default scope out: nothing is
      accepted and nothing rejected. */
  lemma UnknownKeysHideDefault(parse: AddressParser, p: Profile, requested: Scope, engines: seq<string>,
      resultLimit: int)
    requires AnyValue(requested) && NothingToCheck(requested)
    requires ValidateScope(parse, p, requested, engines, resultLimit).Ok?
    ensures ValidateScope(parse, p, requested, engines, resultLimit) == Ok(Validation(map[], []))
  {
    EmptyOutcomeIff(parse, p, requested);
  }

  lemma AcceptedStays(parse: AddressParser, p: Profile, scope: Scope, accepted: Scope)
    requires forall k :: k in CHECKED_KEYS ==> ValuesOf(accepted, k) == AcceptedOf(parse, p, scope, k)
    requires forall k :: k in accepted ==> k in CHECKED_KEYS && accepted[k] != []
    ensures CheckKeys(parse, p, accepted, CHECKED_KEYS) == Ok(Validation(accepted, []))
  {
    forall k | k in CHECKED_KEYS
      ensures AcceptedOf(parse, p, accepted, k) == ValuesOf(accepted, k) && RejectedOf(parse, p, accepted, k) == []
      ensures AllChecked(CheckerOf(parse, p, k), ValuesOf(accepted, k))
    {
      OneKeyStays(parse, p, scope, accepted, k);
    }
    CheckedKeysDistinct();
    KeysAreSplit(parse, p, accepted, CHECKED_KEYS);
    NothingRejected(parse, p, accepted, CHECKED_KEYS);
    SameAccepted(accepted, CheckKeys(parse, p, accepted, CHECKED_KEYS).value.accepted);
  }

  lemma OneKeyStays(parse: AddressParser, p: Profile, scope: Scope, accepted: Scope, k: ScopeKey)
    requires ValuesOf(accepted, k) == AcceptedOf(parse, p, scope, k)
    ensures AcceptedOf(parse, p, accepted, k) == ValuesOf(accepted, k) && RejectedOf(parse, p, accepted, k) == []
    ensures AllChecked(CheckerOf(parse, p, k), ValuesOf(accepted, k))
  {
    var check := CheckerOf(parse, p, k);
    AllowedStayAllowed(check, ValuesOf(scope, k));
    AllowedStay(check, ValuesOf(accepted, k));
  }

  lemma SameAccepted(a: Scope, b: Scope)
    requires forall k :: k in a ==> k in CHECKED_KEYS && a[k] != []
    requires forall k :: k in b ==> k in CHECKED_KEYS && b[k] != []
    requires forall k :: k in CHECKED_KEYS ==> ValuesOf(a, k) == ValuesOf(b, k)
    ensures a == b
  {
    forall k ensures k in a <==> k in b {
      if k in CHECKED_KEYS {
        assert ValuesOf(a, k) == ValuesOf(b, k);
      }
    }
    forall k | k in a ensures a[k] == b[k] {
      assert ValuesOf(a, k) == ValuesOf(b, k);
    }
  }

  /** A validation that returns has split the requested scope, or the default one for an empty request. */
  lemma ValidationIsSplit(parse: AddressParser, p: Profile, requested: Scope, engines: seq<string>, resultLimit: int)
    requires ValidateScope(parse, p, requested, engines, resultLimit).Ok?
    ensures IsSplit(parse, p, if AnyValue(requested) then requested else p.defaultScope, CHECKED_KEYS,
                    ValidateScope(parse, p, requested, engines, resultLimit).value)
  {
    CheckedKeysDistinct();
    KeysAreSplit(parse, p, if AnyValue(requested) then requested else p.defaultScope, CHECKED_KEYS);
  }

  lemma SplitIsAllowed(parse: AddressParser, p: Profile, scope: Scope, v: Validation, key: ScopeKey)
    requires IsSplit(parse, p, scope, CHECKED_KEYS, v) && key in CHECKED_KEYS
    ensures forall x :: x in ValuesOf(v.accepted, key) ==> Check(parse, p, key, x) == Allowed
  {
    AllowedStayAllowed(CheckerOf(parse, p, key), ValuesOf(scope, key));
    assert ValuesOf(v.accepted, key) == AcceptedOf(parse, p, scope, key);
  }

  /** Every accepted value passed its key's check. */
  lemma AcceptedIsAllowed(parse: AddressParser, p: Profile, requested: Scope, engines: seq<string>, resultLimit: int,
      key: ScopeKey)
    requires ValidateScope(parse, p, requested, engines, resultLimit).Ok? && key in CHECKED_KEYS
    ensures forall x :: x in ValuesOf(ValidateScope(parse, p, requested, engines, resultLimit).value.accepted, key) ==>
              Check(parse, p, key, x) == Allowed
  {
    ValidationIsSplit(parse, p, requested, engines, resultLimit);
    SplitIsAllowed(parse, p, if AnyValue(requested) then requested else p.defaultScope,
                   ValidateScope(parse, p, requested, engines, resultLimit).value, key);
  }

  /** What the profile grants: a listed root or organization, or a listed domain, once both names are
      normalized; a domain that ends with all the labels of a listed root; or a network all of whose
      addresses lie in one listed network. */
  ghost predicate Granted(parse: AddressParser, p: Profile, key: ScopeKey, x: string) {
    match key
    case RootDomains => exists i :: 0 <= i < |p.rootDomains| && Normalized(p.rootDomains[i]) == Normalized(x)
    case Domains =>
      || (exists i :: 0 <= i < |p.domains| && Normalized(p.domains[i]) == Normalized(x))
      || (exists i :: 0 <= i < |p.rootDomains| && LabelSuffix(Normalized(p.rootDomains[i]), Normalized(x)))
    case IpCidrs =>
      && parse(x).Some?
      && exists i ::
           0 <= i < |p.ipCidrs| && parse(p.ipCidrs[i]).Some? && Inside(parse(x).value, parse(p.ipCidrs[i]).value)
    case OrgNames => exists i :: 0 <= i < |p.orgNames| && Normalized(p.orgNames[i]) == Normalized(x)
    case OtherKey(_) => false
  }

  /** Narrowing only: every accepted value of every key is granted by the profile. */
  lemma AcceptedIsInside(parse: AddressParser, p: Profile, requested: Scope, engines: seq<string>, resultLimit: int)
    requires ValidateScope(parse, p, requested, engines, resultLimit).Ok?
    ensures var accepted := ValidateScope(parse, p, requested, engines, resultLimit).value.accepted;
            forall k, x :: k in accepted && x in accepted[k] ==> Granted(parse, p, k, x)
  {
    var accepted := ValidateScope(parse, p, requested, engines, resultLimit).value.accepted;
    ValidationIsSplit(parse, p, requested, engines, resultLimit);
    forall k, x | k in accepted && x in accepted[k] ensures Granted(parse, p, k, x) {
      AcceptedIsAllowed(parse, p, requested, engines, resultLimit, k);
      assert x in ValuesOf(accepted, k);
      AllowedIsGranted(parse, p, k, x);
    }
  }

  lemma AllowedIsGranted(parse: AddressParser, p: Profile, key: ScopeKey, x: string)
    requires Check(parse, p, key, x) == Allowed
    ensures Granted(parse, p, key, x)
  {
    if key.IpCidrs? {
      CidrIsInside(parse, p, x);
    } else {
      NamesAreExact(parse, p, key, x);
    }
  }

  lemma CidrIsInside(parse: AddressParser, p: Profile, x: string)
    requires CidrAllowed(parse, p, x) == Allowed
    ensures parse(x).Some? && exists i :: 0 <= i < |p.ipCidrs| && parse(p.ipCidrs[i]).Some?
                                          && Inside(parse(x).value, parse(p.ipCidrs[i]).value)
  {
    var allowed := ParseAll(parse, p.ipCidrs).value;
    AnySubnetOutcomes(parse(x).value, allowed);
    var i :| 0 <= i < |allowed| && Inside(parse(x).value, allowed[i]);
    assert allowed[i] == parse(p.ipCidrs[i]).value;
  }

  lemma DomainIsInside(p: Profile, x: string)
    ensures DomainAllowed(p, x) <==>
            || (exists i :: 0 <= i < |p.domains| && Normalized(p.domains[i]) == Normalized(x))
            || (exists i :: 0 <= i < |p.rootDomains| && LabelSuffix(Normalized(p.rootDomains[i]), Normalized(x)))
  {
    forall i | 0 <= i < |p.rootDomains|
      ensures UnderRoot(Normalized(x), Normalized(p.rootDomains[i])) <==>
              LabelSuffix(Normalized(p.rootDomains[i]), Normalized(x))
    {
      UnderRootIsLabelSuffix(Normalized(x), Normalized(p.rootDomains[i]));
    }
  }

  /** For names the check is exact: allowed if granted, refused if not. */
  lemma NamesAreExact(parse: AddressParser, p: Profile, key: ScopeKey, x: string)
    requires !key.IpCidrs?
    ensures Check(parse, p, key, x) == if Granted(parse, p, key, x) then Allowed else Refused
  {
    if key.Domains? {
      DomainIsInside(p, x);
    }
  }

  /** A listed network of the other family comes before any that contains the request. */
  ghost predicate Clashes(parse: AddressParser, p: Profile, requested: IpNetwork) {
    exists k ::
      0 <= k < |p.ipCidrs| && Foreign(parse, p, requested, k) && forall j :: 0 <= j < k ==>
          Outside(parse, p, requested, j)
  }

  ghost predicate Foreign(parse: AddressParser, p: Profile, requested: IpNetwork, k: nat)
    requires k < |p.ipCidrs|
  {
    parse(p.ipCidrs[k]).Some? && parse(p.ipCidrs[k]).value.v4 != requested.v4
  }

  ghost predicate Outside(parse: AddressParser, p: Profile, requested: IpNetwork, k: nat)
    requires k < |p.ipCidrs|
  {
    && parse(p.ipCidrs[k]).Some? && parse(p.ipCidrs[k]).value.v4 == requested.v4
    && !Inside(requested, parse(p.ipCidrs[k]).value)
  }

  /** For networks: refused if the request or any listed text is no network; otherwise it raises if a family
      clash comes first, is allowed if granted, and is refused if not. */
  lemma NetworksAreExact(parse: AddressParser, p: Profile, x: string)
    ensures var v := Check(parse, p, IpCidrs, x);
            if parse(x).None? || exists i :: 0 <= i < |p.ipCidrs| && parse(p.ipCidrs[i]).None? then v == Refused
            else if Clashes(parse, p, parse(x).value) then v.Crash?
            else v == if Granted(parse, p, IpCidrs, x) then Allowed else Refused
  {
    if parse(x).Some? && forall i :: 0 <= i < |p.ipCidrs| ==> parse(p.ipCidrs[i]).Some? {
      var requested, allowed := parse(x).value, ParseAll(parse, p.ipCidrs).value;
      AnySubnetOutcomes(requested, allowed);
      ClashIff(parse, p, requested, allowed);
      GrantedIff(parse, p, x, allowed);
    }
  }

  lemma ClashIff(parse: AddressParser, p: Profile, requested: IpNetwork, allowed: seq<IpNetwork>)
    requires |allowed| == |p.ipCidrs| && forall i :: 0 <= i < |allowed| ==> parse(p.ipCidrs[i]) == Some(allowed[i])
    ensures Clashes(parse, p, requested) <==>
            exists k :: 0 <= k < |allowed| && allowed[k].v4 != requested.v4 && NoneInsideBefore(requested, allowed, k)
  {
    forall k | 0 <= k < |allowed|
      ensures (forall j :: 0 <= j < k ==> Outside(parse, p, requested, j)) <==> NoneInsideBefore(requested, allowed, k)
    {
      assert forall j :: 0 <= j < k ==>
          (Outside(parse, p, requested, j) <==> allowed[j].v4 == requested.v4 && !Inside(requested, allowed[j]));
    }
    if k :| 0 <= k < |allowed| && allowed[k].v4 != requested.v4 && NoneInsideBefore(requested, allowed, k) {
      assert Foreign(parse, p, requested, k);
    }
  }

  lemma GrantedIff(parse: AddressParser, p: Profile, x: string, allowed: seq<IpNetwork>)
    requires |allowed| == |p.ipCidrs| && forall i :: 0 <= i < |allowed| ==> parse(p.ipCidrs[i]) == Some(allowed[i])
    requires parse(x).Some?
    ensures Granted(parse, p, IpCidrs, x) <==> exists i :: 0 <= i < |allowed| && Inside(parse(x).value, allowed[i])
  {
    if i :| 0 <= i < |allowed| && Inside(parse(x).value, allowed[i]) {
      assert Inside(parse(x).value, parse(p.ipCidrs[i]).value);
    }
    if Granted(parse, p, IpCidrs, x) {
      var i :| 0 <= i < |p.ipCidrs| && Inside(parse(x).value, parse(p.ipCidrs[i]).value);
      assert Inside(parse(x).value, allowed[i]);
    }
  }
}
