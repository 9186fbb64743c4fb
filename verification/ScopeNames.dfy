/** What normalizing a name does, and which values of a request a scope validation accepts. */
module ScopeNames {
  import opened Text
  import opened Networks
  import opened ScopeGuard

  // ---------- trimming ----------

  predicate Spaces(s: string) { forall i :: 0 <= i < |s| ==> IsSpace(s[i]) }

  /** No space at either end. */
  predicate Tight(s: string) { s != "" ==> !IsSpace(s[0]) && !IsSpace(s[|s| - 1]) }

  lemma SpacesPlus(a: string, b: string)
    requires Spaces(a) && Spaces(b)
    ensures Spaces(a + b)
  {
  }

  lemma {:induction false} LeftTaken(s: string) returns (a: string)
    ensures s == a + StripLeft(s) && Spaces(a) && (StripLeft(s) != "" ==> !IsSpace(StripLeft(s)[0]))
  {
    if s != "" && IsSpace(s[0]) {
      var rest := LeftTaken(s[1..]);
      a := [s[0]] + rest;
      SpacesPlus([s[0]], rest);
      assert s == [s[0]] + s[1..] == [s[0]] + (rest + StripLeft(s[1..]));
    } else {
      a := "";
    }
  }

  lemma {:induction false} RightTaken(s: string) returns (b: string)
    ensures s == StripRight(s) + b && Spaces(b)
  {
    if s != "" && IsSpace(s[|s| - 1]) {
      var rest := RightTaken(s[..|s| - 1]);
      b := rest + [s[|s| - 1]];
      SpacesPlus(rest, [s[|s| - 1]]);
      assert s == s[..|s| - 1] + [s[|s| - 1]] == (StripRight(s[..|s| - 1]) + rest) + [s[|s| - 1]];
    } else {
      b := "";
    }
  }

  /** Trimming takes spaces off both ends, and all of them ... */
  lemma StripTakes(s: string) returns (a: string, b: string)
    ensures s == a + Strip(s) + b && Spaces(a) && Spaces(b) && Tight(Strip(s))
  {
    a := LeftTaken(s);
    b := RightTaken(StripLeft(s));
    var t := Strip(s);
    if t != "" {
      assert t[0] == StripLeft(s)[0];
    }
  }

  lemma {:induction false} LeftOf(a: string, s: string)
    requires Spaces(a) && (s != "" ==> !IsSpace(s[0]))
    ensures StripLeft(a + s) == s
  {
    if a == "" {
      assert a + s == s;
    } else {
      assert (a + s)[1..] == a[1..] + s;
      LeftOf(a[1..], s);
    }
  }

  lemma {:induction false} RightOf(s: string, b: string)
    requires Spaces(b) && (s != "" ==> !IsSpace(s[|s| - 1]))
    ensures StripRight(s + b) == s
  {
    if b == "" {
      assert s + b == s;
    } else {
      assert (s + b)[..|s + b| - 1] == s + b[..|b| - 1];
      RightOf(s, b[..|b| - 1]);
    }
  }

  lemma {:induction false} AllSpaces(s: string)
    requires Spaces(s)
    ensures StripLeft(s) == ""
  {
    if s != "" {
      AllSpaces(s[1..]);
    }
  }

  /** ... and nothing else. */
  lemma StripOf(a: string, t: string, b: string)
    requires Spaces(a) && Tight(t) && Spaces(b)
    ensures Strip(a + t + b) == t
  {
    if t == "" {
      AllSpaces(a + t + b);
    } else {
      assert a + t + b == a + (t + b) && (t + b)[0] == t[0];
      LeftOf(a, t + b);
      RightOf(t, b);
    }
  }

  // ---------- trailing dots and case ----------

  function Dots(k: nat): (s: string)
    ensures |s| == k && forall i :: 0 <= i < k ==> s[i] == '.'
  {
    if k == 0 then "" else Dots(k - 1) + "."
  }

  predicate EndsInDot(s: string) { s != "" && s[|s| - 1] == '.' }

  lemma {:induction false} DotsTaken(s: string) returns (k: nat)
    ensures s == StripDots(s) + Dots(k) && !EndsInDot(StripDots(s))
  {
    if EndsInDot(s) {
      var n := DotsTaken(s[..|s| - 1]);
      k := n + 1;
      assert s == s[..|s| - 1] + ".";
      assert StripDots(s) + Dots(n) + "." == StripDots(s) + Dots(k);
    } else {
      k := 0;
    }
  }

  lemma {:induction false} DotsOf(t: string, k: nat)
    requires !EndsInDot(t)
    ensures StripDots(t + Dots(k)) == t
  {
    if k == 0 {
      assert t + Dots(k) == t;
    } else {
      assert (t + Dots(k))[..|t + Dots(k)| - 1] == t + Dots(k - 1);
      DotsOf(t, k - 1);
    }
  }

  /** Lower-casing turns each of A to Z into its small letter and leaves everything else. */
  lemma LowerLaws(s: string)
    ensures forall i :: 0 <= i < |s| ==> !('A' <= Lower(s)[i] <= 'Z')
    ensures forall i :: 0 <= i < |s| && 'A' <= s[i] <= 'Z' ==>
              Lower(s)[i] as int - 'a' as int == s[i] as int - 'A' as int
    ensures forall i :: 0 <= i < |s| && !('A' <= s[i] <= 'Z') ==> Lower(s)[i] == s[i]
  {
  }

  // ---------- normalizing ----------

  /** A normalized name is what is left of the text without outer spaces, in lower case, without the dots at
      its end; there are no others left ... */
  lemma NormalizedTakes(s: string) returns (a: string, t: string, b: string, k: nat)
    ensures s == a + t + b && Spaces(a) && Spaces(b) && Tight(t)
    ensures Lower(t) == Normalized(s) + Dots(k) && !EndsInDot(Normalized(s))
  {
    a, b := StripTakes(s);
    t := Strip(s);
    k := DotsTaken(Lower(t));
  }

  /** ... and every text that is so made up normalizes to it. */
  lemma NormalizedOf(a: string, t: string, b: string, n: string, k: nat)
    requires Spaces(a) && Spaces(b) && Tight(t) && Lower(t) == n + Dots(k) && !EndsInDot(n)
    ensures Normalized(a + t + b) == n
  {
    StripOf(a, t, b);
    DotsOf(n, k);
  }

  /** Tight, in lower case, and without a dot at its end. */
  predicate Plain(s: string) {
    Tight(s) && !EndsInDot(s) && forall i :: 0 <= i < |s| ==> !('A' <= s[i] <= 'Z')
  }

  lemma PlainStays(s: string)
    requires Plain(s)
    ensures Normalized(s) == s
  {
    assert Lower(s) == s == s + Dots(0) && "" + s + "" == s;
    NormalizedOf("", s, "", s, 0);
  }

  lemma AllOf(a: string, t: string, b: string, s: string, k: nat)
    requires s == a + t + b && |t| == |s| + k
    ensures t == s && k == 0
  {
    assert a == "" && b == "";
    assert "" + t + "" == t;
  }

  lemma StaysPlain(s: string)
    requires Normalized(s) == s
    ensures Plain(s)
  {
    var a, t, b, k := NormalizedTakes(s);
    assert |Lower(t)| == |s + Dots(k)|;
    AllOf(a, t, b, s, k);
    assert s + Dots(0) == s;
    LowerLaws(s);
  }

  /** Exactly the plain names are left as they are. */
  lemma PlainIff(s: string)
    ensures Normalized(s) == s <==> Plain(s)
  {
    if Plain(s) {
      PlainStays(s);
    } else if Normalized(s) == s {
      StaysPlain(s);
    }
  }

  lemma Regroup(a: string, c: string, t: string, d: string, b: string)
    ensures a + (c + t + d) + b == (a + c) + t + (d + b)
  {
  }

  /** Outer spaces make no difference ... */
  lemma PaddingIgnored(a: string, s: string, b: string)
    requires Spaces(a) && Spaces(b)
    ensures Normalized(a + s + b) == Normalized(s)
  {
    var c, d := StripTakes(s);
    SpacesPlus(a, c);
    SpacesPlus(d, b);
    StripOf(a + c, Strip(s), d + b);
    Regroup(a, c, Strip(s), d, b);
  }

  lemma {:induction false} LowerLeft(s: string)
    ensures Lower(StripLeft(s)) == StripLeft(Lower(s))
  {
    if s != "" && IsSpace(s[0]) {
      LowerLeft(s[1..]);
      assert Lower(s)[1..] == Lower(s[1..]);
    }
  }

  lemma LowerOfFront(s: string)
    requires s != "" && IsSpace(s[|s| - 1])
    ensures Lower(s)[|s| - 1] == s[|s| - 1] && Lower(s)[..|s| - 1] == Lower(s[..|s| - 1])
  {
  }

  lemma {:induction false} LowerRight(s: string)
    ensures Lower(StripRight(s)) == StripRight(Lower(s))
  {
    if s != "" && IsSpace(s[|s| - 1]) {
      LowerRight(s[..|s| - 1]);
      LowerOfFront(s);
    }
  }

  /** ... nor does the case of letters ... */
  lemma CaseIgnored(s: string, u: string)
    requires Lower(s) == Lower(u)
    ensures Normalized(s) == Normalized(u)
  {
    LowerLeft(s);
    LowerRight(StripLeft(s));
    LowerLeft(u);
    LowerRight(StripLeft(u));
  }

  lemma DotAfterTight(a: string, t: string, n: string, k: nat)
    requires Spaces(a) && Tight(t) && t != "" && Lower(t) == n + Dots(k) && !EndsInDot(n)
    ensures Normalized(a + t + ".") == n
  {
    var u := t + ".";
    assert u[0] == t[0];
    assert Lower(u) == Lower(t) + ".";
    assert (n + Dots(k)) + "." == n + (Dots(k) + ".");
    NormalizedOf(a, u, "", n, k + 1);
    assert a + u + "" == a + t + ".";
  }

  lemma DotAfterSpace(a: string, t: string, b: string)
    requires Spaces(a) && Spaces(b) && Tight(t) && t != "" && b != ""
    ensures |Normalized(a + t + b + ".")| == |t| + |b|
  {
    var u, n := t + b + ".", Lower(t + b);
    assert u[0] == t[0];
    assert n[|n| - 1] == LowerChar(b[|b| - 1]);
    assert Lower(u) == n + Dots(1);
    NormalizedOf(a, u, "", n, 1);
    assert a + u + "" == a + t + b + ".";
  }

  /** ... and a dot more at the end makes none exactly if the name does not end in a space, or is blank. */
  lemma DotIgnoredIff(s: string)
    ensures Normalized(s + ".") == Normalized(s) <==> s == "" || !IsSpace(s[|s| - 1]) || Spaces(s)
  {
    var a, t, b, k := NormalizedTakes(s);
    if t == "" {
      DottedBlank(a, b);
      assert a + "" + b == s;
    } else if b == "" {
      DotAfterTight(a, t, Normalized(s), k);
      assert s == a + t;
      assert s[|s| - 1] == t[|t| - 1];
    } else {
      DotAfterSpace(a, t, b);
      assert |Lower(t)| == |Normalized(s)| + k;
      assert s[|s| - 1] == b[|b| - 1] && s[|a|] == t[0];
    }
  }

  lemma DottedBlank(a: string, b: string)
    requires Spaces(a) && Spaces(b)
    ensures Normalized(a + "" + b) == "" == Normalized(a + "" + b + ".") && Spaces(a + "" + b)
  {
    assert Lower("") == "" + Dots(0) && Lower(".") == "" + Dots(1);
    NormalizedOf(a, "", b, "", 0);
    NormalizedOf(a + b, ".", "", "", 1);
    assert a + "" + b + "." == (a + b) + "." + "";
  }

  /** The text ends in a space and then only dots. */
  predicate SpaceBeforeDots(t: string) {
    exists i :: 0 <= i < |t| && IsSpace(t[i]) && DotsFrom(t, i + 1)
  }

  predicate DotsFrom(t: string, i: nat) { forall j :: i <= j < |t| ==> t[j] == '.' }

  lemma DotsFromLower(t: string, i: nat)
    ensures DotsFrom(Lower(t), i) <==> DotsFrom(t, i)
  {
    if DotsFrom(Lower(t), i) {
      forall j | i <= j < |t| ensures t[j] == '.' {
        assert Lower(t)[j] == '.';
      }
    }
  }

  lemma SpaceBeforeDotsLower(t: string)
    ensures SpaceBeforeDots(Lower(t)) <==> SpaceBeforeDots(t)
  {
    if i :| 0 <= i < |t| && IsSpace(t[i]) && DotsFrom(t, i + 1) {
      DotsFromLower(t, i + 1);
      assert IsSpace(Lower(t)[i]);
    }
    if i :| 0 <= i < |t| && IsSpace(Lower(t)[i]) && DotsFrom(Lower(t), i + 1) {
      DotsFromLower(t, i + 1);
      assert IsSpace(t[i]);
    }
  }

  lemma SpaceBeforeTheDots(n: string, k: nat)
    requires !EndsInDot(n)
    ensures SpaceBeforeDots(n + Dots(k)) <==> n != "" && IsSpace(n[|n| - 1])
  {
    var t := n + Dots(k);
    assert DotsFrom(t, |n|);
    if n != "" && IsSpace(n[|n| - 1]) {
      assert IsSpace(t[|n| - 1]) && DotsFrom(t, (|n| - 1) + 1);
    }
    if i :| 0 <= i < |t| && IsSpace(t[i]) && DotsFrom(t, i + 1) {
      assert i < |n|;
      assert t[|n| - 1] == n[|n| - 1] != '.';
      assert i == |n| - 1;
    }
  }

  /** A normalized name has no upper-case letter and no dot at its end; it ends in a space exactly if one
      stood before the dots, because the dots are taken after trimming. */
  lemma SpaceStaysIff(s: string)
    ensures var n := Normalized(s);
            && !EndsInDot(n) && (forall i :: 0 <= i < |n| ==> !('A' <= n[i] <= 'Z'))
            && (n != "" && IsSpace(n[|n| - 1]) <==> SpaceBeforeDots(Strip(s)))
  {
    var t, n := Strip(s), Normalized(s);
    var k := DotsTaken(Lower(t));
    LowerLaws(t);
    assert forall i :: 0 <= i < |n| ==> n[i] == Lower(t)[i];
    SpaceBeforeDotsLower(t);
    SpaceBeforeTheDots(n, k);
  }

  // ---------- the values of a request ----------

  lemma {:induction false} InVerdict(check: Checker, values: seq<string>, want: Verdict, x: string)
    ensures x in WithVerdict(check, values, want) <==> x in Trimmed(values) && check(x) == want
  {
    if values != [] {
      InVerdict(check, values[..|values| - 1], want, x);
      assert Trimmed(values) == Trimmed(values[..|values| - 1]) + [Strip(values[|values| - 1])];
    }
  }

  predicate IsRefused(parse: AddressParser, p: Profile, scope: Scope, key: ScopeKey, x: string) {
    x in WithVerdict(CheckerOf(parse, p, key), ValuesOf(scope, key), Refused)
  }

  lemma {:induction false} InRejected(parse: AddressParser, p: Profile, scope: Scope, keys: seq<ScopeKey>,
      key: ScopeKey, x: string)
    ensures Rejection(key, x) in AllRejected(parse, p, scope, keys) <==>
        key in keys && IsRefused(parse, p, scope, key, x)
  {
    if keys != [] {
      var front, last := keys[..|keys| - 1], keys[|keys| - 1];
      InRejected(parse, p, scope, front, key, x);
      InBoth(keys, front, [last], key);
      InBoth(AllRejected(parse, p, scope, keys), AllRejected(parse, p, scope, front), RejectedOf(parse, p, scope, last),
             Rejection(key, x));
      InRejectedOf(parse, p, scope, last, key, x);
    }
  }

  lemma InRejectedOf(parse: AddressParser, p: Profile, scope: Scope, last: ScopeKey, key: ScopeKey, x: string)
    ensures Rejection(key, x) in RejectedOf(parse, p, scope, last) <==>
            key == last && IsRefused(parse, p, scope, key, x)
  {
    InRejections(last, WithVerdict(CheckerOf(parse, p, last), ValuesOf(scope, last), Refused), key, x);
  }

  lemma InBoth<T>(s: seq<T>, a: seq<T>, b: seq<T>, x: T)
    requires s == a + b
    ensures x in s <==> x in a || x in b
  {
  }

  lemma InRejections(last: ScopeKey, values: seq<string>, key: ScopeKey, x: string)
    ensures Rejection(key, x) in Rejections(last, values) <==> key == last && x in values
  {
    if key == last && x in values {
      var i :| 0 <= i < |values| && values[i] == x;
      assert Rejections(last, values)[i] == Rejection(key, x);
    }
  }

  /** Granted, where every listed network can be read. */
  ghost predicate Passes(parse: AddressParser, p: Profile, key: ScopeKey, x: string) {
    && Granted(parse, p, key, x)
    && (key.IpCidrs? ==> forall i :: 0 <= i < |p.ipCidrs| ==> parse(p.ipCidrs[i]).Some?)
  }

  /** The request, or the profile's default scope for a request without any value. */
  function Effective(p: Profile, requested: Scope): Scope {
    if exists k :: k in requested && requested[k] != [] then requested else p.defaultScope
  }

  lemma CheckedIsPassed(parse: AddressParser, p: Profile, key: ScopeKey, x: string)
    requires !Check(parse, p, key, x).Crash?
    ensures Check(parse, p, key, x) == if Passes(parse, p, key, x) then Allowed else Refused
  {
    if key.IpCidrs? {
      NetworksAreExact(parse, p, x);
    } else {
      NamesAreExact(parse, p, key, x);
    }
  }

  lemma VerdictsArePassed(parse: AddressParser, p: Profile, scope: Scope, key: ScopeKey, x: string)
    requires AllChecked(CheckerOf(parse, p, key), ValuesOf(scope, key))
    ensures var check, asked := CheckerOf(parse, p, key), x in Trimmed(ValuesOf(scope, key));
            && (x in WithVerdict(check, ValuesOf(scope, key), Allowed) <==> asked && Passes(parse, p, key, x))
            && (x in WithVerdict(check, ValuesOf(scope, key), Refused) <==> asked && !Passes(parse, p, key, x))
  {
    var check, values := CheckerOf(parse, p, key), ValuesOf(scope, key);
    InVerdict(check, values, Allowed, x);
    InVerdict(check, values, Refused, x);
    if i :| 0 <= i < |values| && Trimmed(values)[i] == x {
      assert !check(Strip(values[i])).Crash?;
      CheckedIsPassed(parse, p, key, x);
    }
  }

  lemma SplitIff(parse: AddressParser, p: Profile, scope: Scope, v: Validation, key: ScopeKey, x: string)
    requires IsSplit(parse, p, scope, CHECKED_KEYS, v) && KeysChecked(parse, p, scope, CHECKED_KEYS)
    requires key in CHECKED_KEYS
    ensures var asked := x in Trimmed(ValuesOf(scope, key));
            && (x in ValuesOf(v.accepted, key) <==> asked && Passes(parse, p, key, x))
            && (Rejection(key, x) in v.rejected <==> asked && !Passes(parse, p, key, x))
  {
    VerdictsArePassed(parse, p, scope, key, x);
    InRejected(parse, p, scope, CHECKED_KEYS, key, x);
    assert ValuesOf(v.accepted, key) == AcceptedOf(parse, p, scope, key);
  }

  lemma ReturnedIsSplit(parse: AddressParser, p: Profile, requested: Scope, engines: seq<string>, resultLimit: int,
      v: Validation)
    requires ValidateScope(parse, p, requested, engines, resultLimit) == Ok(v)
    ensures IsSplit(parse, p, Effective(p, requested), CHECKED_KEYS, v)
    ensures KeysChecked(parse, p, Effective(p, requested), CHECKED_KEYS)
  {
    LimitsIff(parse, p, requested, engines, resultLimit);
    CheckedKeysDistinct();
    KeysReturned(parse, p, Effective(p, requested), CHECKED_KEYS, v);
  }

  lemma KeysReturned(parse: AddressParser, p: Profile, scope: Scope, keys: seq<ScopeKey>, v: Validation)
    requires forall i, j :: 0 <= i < j < |keys| ==> keys[i] != keys[j]
    requires CheckKeys(parse, p, scope, keys) == Ok(v)
    ensures IsSplit(parse, p, scope, keys, v) && KeysChecked(parse, p, scope, keys)
  {
    KeysAreSplit(parse, p, scope, keys);
  }

  /** A validation that returns accepts exactly the trimmed values that the profile grants, and rejects the
      others, under each of the four keys. */
  lemma AcceptedIff(parse: AddressParser, p: Profile, requested: Scope, engines: seq<string>, resultLimit: int,
      v: Validation, key: ScopeKey, x: string)
    requires ValidateScope(parse, p, requested, engines, resultLimit) == Ok(v) && !key.OtherKey?
    ensures var asked := x in Trimmed(ValuesOf(Effective(p, requested), key));
            && (x in ValuesOf(v.accepted, key) <==> asked && Passes(parse, p, key, x))
            && (Rejection(key, x) in v.rejected <==> asked && !Passes(parse, p, key, x))
  {
    ReturnedIsSplit(parse, p, requested, engines, resultLimit, v);
    FourKeys(key);
    SplitIff(parse, p, Effective(p, requested), v, key, x);
  }

  lemma FourKeys(key: ScopeKey)
    ensures key in CHECKED_KEYS <==> !key.OtherKey?
  {
    assert CHECKED_KEYS[0] == RootDomains && CHECKED_KEYS[1] == Domains && CHECKED_KEYS[2] == IpCidrs;
    assert CHECKED_KEYS[3] == OrgNames;
  }

  /** Some requested network raises: it and all listed ones can be read, and the other family comes first. */
  ghost predicate NetworkRaises(parse: AddressParser, p: Profile, x: string) {
    && parse(x).Some? && (forall i :: 0 <= i < |p.ipCidrs| ==> parse(p.ipCidrs[i]).Some?)
    && Clashes(parse, p, parse(x).value)
  }

  /** A validation returns if and only if the profile is active, every engine is one of its engines, the limit
      is within its own, if it has one, and no requested network raises. */
  lemma ValidationIff(parse: AddressParser, p: Profile, requested: Scope, engines: seq<string>, resultLimit: int)
    ensures ValidateScope(parse, p, requested, engines, resultLimit).Ok? <==>
            && p.active
            && (forall e :: e in engines ==> e in p.engines)
            && (p.maxResults.Some? ==> resultLimit <= p.maxResults.value)
            && forall x :: x in Trimmed(ValuesOf(Effective(p, requested), IpCidrs)) ==> !NetworkRaises(parse, p, x)
  {
    LimitsIff(parse, p, requested, engines, resultLimit);
    CheckedKeysDistinct();
    KeysAreSplit(parse, p, Effective(p, requested), CHECKED_KEYS);
    KeysCheckedIff(parse, p, Effective(p, requested));
  }

  lemma LimitsIff(parse: AddressParser, p: Profile, requested: Scope, engines: seq<string>, resultLimit: int)
    ensures LimitsPass(p, engines, resultLimit) <==>
            && p.active && (forall e :: e in engines ==> e in p.engines)
            && (p.maxResults.Some? ==> resultLimit <= p.maxResults.value)
    ensures LimitsPass(p, engines, resultLimit) ==>
              ValidateScope(parse, p, requested, engines, resultLimit) ==
                CheckKeys(parse, p, Effective(p, requested), CHECKED_KEYS)
    ensures !LimitsPass(p, engines, resultLimit) ==>
              ValidateScope(parse, p, requested, engines, resultLimit).Raised?
  {
  }

  lemma KeysCheckedIff(parse: AddressParser, p: Profile, scope: Scope)
    ensures KeysChecked(parse, p, scope, CHECKED_KEYS) <==>
            forall x :: x in Trimmed(ValuesOf(scope, IpCidrs)) ==> !NetworkRaises(parse, p, x)
  {
    forall x ensures Check(parse, p, IpCidrs, x).Crash? <==> NetworkRaises(parse, p, x) {
      NetworksAreExact(parse, p, x);
    }
    forall k, x | k in CHECKED_KEYS && !k.IpCidrs? ensures !Check(parse, p, k, x).Crash? {
      NamesAreExact(parse, p, k, x);
    }
    var values := ValuesOf(scope, IpCidrs);
    assert forall i :: 0 <= i < |values| ==> Trimmed(values)[i] == Strip(values[i]);
  }
}
