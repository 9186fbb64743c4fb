/** What makes two discovered records one, told on their fields, and what is then reported. */
module Identities {
  import opened Text
  import opened KeyedMerge
  import opened Dedup

  // ---------- identities ----------

  predicate Has(text: Option<string>) { text.Some? && text.value != "" }

  /** The domain, without one the IP, without both the default. */
  function Host(domain: Option<string>, ip: Option<string>, default: string): string {
    if Has(domain) then domain.value else if Has(ip) then ip.value else default
  }

  /** An asset is known by its host, or by its own id. */
  function AssetName(a: Asset): string { Host(a.domain, a.ip, a.assetId) }

  datatype Endpoint = Endpoint(host: string, port: int, protocol: string, service: string)

  function EndpointOf(s: Service): Endpoint {
    Endpoint(Host(s.domain, s.ip, "unknown"), s.port, s.protocol, s.service)
  }

  predicate NoBar(s: string) { forall i :: 0 <= i < |s| ==> s[i] != '|' }

  /** No bar in the host or the protocol; the name of the service may have some. */
  predicate Unbarred(s: Service) { NoBar(EndpointOf(s).host) && NoBar(s.protocol) }

  // ---------- keys tell endpoints apart ----------

  lemma BarSplit(a: string, b: string, c: string, d: string)
    requires NoBar(a) && NoBar(c) && a + ("|" + b) == c + ("|" + d)
    ensures a == c && b == d
  {
    var s, t := a + ("|" + b), c + ("|" + d);
    assert s[|a|] == '|' && t[|c|] == '|';
    assert a == s[..|a|] && c == t[..|c|];
    assert b == s[|a| + 1..] && d == t[|c| + 1..];
  }

  lemma SignOf(n: int)
    ensures IntText(n) != "" && (IntText(n)[0] == '-' <==> n < 0)
    ensures if n < 0 then IntText(n)[1..] == Digits(-n) else IntText(n) == Digits(n)
  {
    if n >= 0 {
      assert IsDigit(Digits(n)[0]);
    }
  }

  lemma IntTextsDiffer(m: int, n: int)
    requires IntText(m) == IntText(n)
    ensures m == n
  {
    SignOf(m);
    SignOf(n);
    ValueOfDigits(if m < 0 then -m else m);
    ValueOfDigits(if n < 0 then -n else n);
  }

  function KeyText(e: Endpoint): string {
    e.host + ("|" + (IntText(e.port) + ("|" + (e.protocol + ("|" + e.service)))))
  }

  lemma KeyOfEndpoint(s: Service)
    ensures ServiceKey(s) == KeyText(EndpointOf(s))
  {
    var e := EndpointOf(s);
    assert TextOr(s.domain, TextOr(s.ip, "unknown")) == e.host;
    assert e.host + "|" + IntText(e.port) + "|" + e.protocol + "|" + e.service == KeyText(e);
  }

  lemma KeyTextsDiffer(e: Endpoint, f: Endpoint)
    requires NoBar(e.host) && NoBar(f.host) && NoBar(e.protocol) && NoBar(f.protocol) && KeyText(e) == KeyText(f)
    ensures e == f
  {
    var a, b := e.protocol + ("|" + e.service), f.protocol + ("|" + f.service);
    BarSplit(e.host, IntText(e.port) + ("|" + a), f.host, IntText(f.port) + ("|" + b));
    BarSplit(IntText(e.port), a, IntText(f.port), b);
    IntTextsDiffer(e.port, f.port);
    BarSplit(e.protocol, e.service, f.protocol, f.service);
  }

  /** Services without bars are merged if and only if host, port, protocol and name agree. */
  lemma ServiceKeysIff(s: Service, t: Service)
    requires Unbarred(s) && Unbarred(t)
    ensures ServiceKey(s) == ServiceKey(t) <==> EndpointOf(s) == EndpointOf(t)
  {
    KeyOfEndpoint(s);
    KeyOfEndpoint(t);
    if ServiceKey(s) == ServiceKey(t) {
      KeyTextsDiffer(EndpointOf(s), EndpointOf(t));
    }
  }

  /** A bar in the protocol lets another endpoint have the same key ... */
  lemma BarredProtocolIsShared(s: Service, i: nat) returns (t: Service)
    requires i < |s.protocol| && s.protocol[i] == '|'
    ensures ServiceKey(t) == ServiceKey(s) && EndpointOf(t) != EndpointOf(s)
  {
    var a, b := s.protocol[..i], s.protocol[i + 1..];
    t := s.(protocol := a, service := b + ("|" + s.service));
    assert s.protocol == a + ("|" + b);
    assert a + ("|" + (b + ("|" + s.service))) == s.protocol + ("|" + s.service);
    KeyOfEndpoint(s);
    KeyOfEndpoint(t);
  }

  lemma MoveBar(a: string, b: string, rest: string)
    ensures (a + ("|" + b)) + rest == a + ("|" + (b + rest))
  {
  }

  lemma MovedKey(e: Endpoint, host: string, n: int)
    requires e.host == host + ("|" + IntText(n))
    ensures KeyText(Endpoint(host, n, IntText(e.port), e.protocol + ("|" + e.service))) == KeyText(e)
  {
    MoveBar(host, IntText(n), "|" + (IntText(e.port) + ("|" + (e.protocol + ("|" + e.service)))));
  }

  /** ... and so does a number after a bar at the end of the host. */
  lemma BarredHostIsShared(s: Service, host: string, n: int) returns (t: Service)
    requires host != "" && EndpointOf(s).host == host + ("|" + IntText(n))
    ensures ServiceKey(t) == ServiceKey(s) && EndpointOf(t) != EndpointOf(s)
  {
    t := s.(domain := Some(host), port := n, protocol := IntText(s.port), service := s.protocol + ("|" + s.service));
    MovedKey(EndpointOf(s), host, n);
    KeyOfEndpoint(s);
    KeyOfEndpoint(t);
    assert |EndpointOf(s).host| == |host| + |"|" + IntText(n)|;
  }

  // ---------- what is reported ----------

  /** The records of one identity, in order. */
  function Alike<T, I(==)>(id: T -> I, xs: seq<T>, i: I): seq<T> {
    if xs == [] then []
    else
      var front, last := Alike(id, xs[..|xs| - 1], i), xs[|xs| - 1];
      if id(last) == i then front + [last] else front
  }

  /** Every identity is reported exactly once, as the merge of all its records. */
  ghost predicate ReportsEach<T(!new), I(!new)>(m: Merger<T>, id: T -> I, xs: seq<T>, r: seq<T>) {
    && (forall p :: 0 <= p < |xs| ==> exists j :: 0 <= j < |r| && id(r[j]) == id(xs[p]))
    && (forall i, j :: 0 <= i < j < |r| ==> id(r[i]) != id(r[j]))
    && (forall j :: 0 <= j < |r| ==>
          var g := Alike(id, xs, id(r[j])); g != [] && r[j] == MergeAll(m, g))
  }

  /** Records have one key exactly if they have one identity. */
  ghost predicate KeysAreIdentities<T(!new), I(!new)>(m: Merger<T>, id: T -> I, xs: seq<T>) {
    forall p, q :: 0 <= p < |xs| && 0 <= q < |xs| ==> (m.key(xs[p]) == m.key(xs[q]) <==> id(xs[p]) == id(xs[q]))
  }

  /** Merging keeps the identity of the first record. */
  ghost predicate KeepsIdentity<T(!new), I(!new)>(m: Merger<T>, id: T -> I) {
    forall g: seq<T> :: g != [] ==> id(MergeAll(m, g)) == id(g[0])
  }

  lemma {:induction false} GroupIsAlike<T(!new), I(!new)>(m: Merger<T>, id: T -> I, xs: seq<T>, n: nat, p: nat)
    requires KeysAreIdentities(m, id, xs) && n <= |xs| && p < |xs|
    ensures Group(m, xs[..n], m.key(xs[p])) == Alike(id, xs[..n], id(xs[p]))
  {
    if n > 0 {
      GroupIsAlike(m, id, xs, n - 1, p);
      assert xs[..n][..n - 1] == xs[..n - 1];
    }
  }

  /** The entry of one record's identity, and its group. */
  lemma EntryIsAlike<T(!new), I(!new)>(m: Merger<T>, id: T -> I, xs: seq<T>, j: nat) returns (q: nat)
    requires Lawful(m) && KeysAreIdentities(m, id, xs) && KeepsIdentity(m, id) && j < |Dedupe(m, xs)|
    ensures q < |xs| && m.key(xs[q]) == m.key(Dedupe(m, xs)[j]) && id(xs[q]) == id(Dedupe(m, xs)[j])
    ensures var g := Alike(id, xs, id(xs[q])); g != [] && Dedupe(m, xs)[j] == MergeAll(m, g)
  {
    q := EntryHasLeader(m, xs, j);
    GroupIsAlike(m, id, xs, |xs|, q);
    assert xs[..|xs|] == xs;
  }

  lemma DedupeReportsEach<T(!new), I(!new)>(m: Merger<T>, id: T -> I, xs: seq<T>)
    requires Lawful(m) && KeysAreIdentities(m, id, xs) && KeepsIdentity(m, id)
    ensures ReportsEach(m, id, xs, Dedupe(m, xs))
  {
    var r := Dedupe(m, xs);
    InsertAllKeepsDistinct(m, [], xs);
    forall p | 0 <= p < |xs| ensures exists j :: 0 <= j < |r| && id(r[j]) == id(xs[p]) {
      var l := LeaderOf(m, xs, p);
      var j := LeaderHasEntry(m, xs, l);
      var q := EntryIsAlike(m, id, xs, j);
      assert id(r[j]) == id(xs[p]);
    }
    forall i, j | 0 <= i < j < |r| ensures id(r[i]) != id(r[j]) {
      var p := EntryIsAlike(m, id, xs, i);
      var q := EntryIsAlike(m, id, xs, j);
    }
    forall j | 0 <= j < |r|
      ensures var g := Alike(id, xs, id(r[j])); g != [] && r[j] == MergeAll(m, g)
    {
      var q := EntryIsAlike(m, id, xs, j);
    }
  }

  /** Services without bars: every collected endpoint is reported exactly once, as the merge of the services
      collected for it. */
  lemma ServicesByEndpoint(xs: seq<Service>)
    requires forall p :: 0 <= p < |xs| ==> Unbarred(xs[p])
    ensures ReportsEach(SERVICE_MERGER, EndpointOf, xs, Dedupe(SERVICE_MERGER, xs))
  {
    ServiceMergerLawful();
    forall p, q | 0 <= p < |xs| && 0 <= q < |xs|
      ensures ServiceKey(xs[p]) == ServiceKey(xs[q]) <==> EndpointOf(xs[p]) == EndpointOf(xs[q])
    {
      ServiceKeysIff(xs[p], xs[q]);
    }
    forall g: seq<Service> | g != [] ensures EndpointOf(MergeAll(SERVICE_MERGER, g)) == EndpointOf(g[0]) {
      ServiceIdentity(g);
    }
    DedupeReportsEach(SERVICE_MERGER, EndpointOf, xs);
  }

  /** Assets: every collected name, which is the domain, without one the IP, without both the asset's id, is
      reported exactly once, as the merge of the assets collected under it. */
  lemma AssetsByName(xs: seq<Asset>)
    ensures ReportsEach(ASSET_MERGER, AssetName, xs, Dedupe(ASSET_MERGER, xs))
  {
    AssetMergerLawful();
    forall a: Asset ensures AssetKey(a) == AssetName(a) {
    }
    forall g: seq<Asset> | g != [] ensures AssetName(MergeAll(ASSET_MERGER, g)) == AssetName(g[0]) {
      AssetIdentity(g);
    }
    DedupeReportsEach(ASSET_MERGER, AssetName, xs);
  }
}
