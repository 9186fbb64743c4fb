/** Deduplication of discovered assets and exposed services. */
module Dedup {
  import opened Text
  import opened KeyedMerge

  datatype Asset = Asset(
    assetId: string,
    domain: Option<string>,
    ip: Option<string>,
    ownership: real,
    firstSeen: string,
    lastSeen: Option<string>,
    sources: seq<string>,
    evidenceIds: seq<string>)

  datatype Service = Service(
    serviceId: string,
    assetId: string,
    domain: Option<string>,
    ip: Option<string>,
    port: int,
    protocol: string,
    service: string,
    title: Option<string>,
    product: Option<string>,
    version: Option<string>,
    firstSeen: string,
    lastSeen: Option<string>,
    sources: seq<string>,
    evidenceIds: seq<string>)

  // ---------- Python's `or` on optional text ----------

  predicate Truthy(o: Option<string>) { o.Some? && o.value != "" }

  function OrElse(a: Option<string>, b: Option<string>): Option<string> {
    if Truthy(a) then a else b
  }

  function TextOr(a: Option<string>, default: string): string {
    if Truthy(a) then a.value else default
  }

  /** `max(a or "", b or "") or a` */
  function Later(a: Option<string>, b: Option<string>): Option<string> {
    var latest := Max(TextOr(a, ""), TextOr(b, ""));
    if latest != "" then Some(latest) else a
  }

  function MaxReal(a: real, b: real): real { if b > a then b else a }

  function MergeUnique(left: seq<string>, right: seq<string>): seq<string> {
    Unique(left + right)
  }

  // ---------- assets ----------

  function AssetKey(a: Asset): string {
    TextOr(a.domain, TextOr(a.ip, a.assetId))
  }

  function MergeAssets(current: Asset, asset: Asset): Asset {
    current.(sources := MergeUnique(current.sources, asset.sources),
             evidenceIds := MergeUnique(current.evidenceIds, asset.evidenceIds),
             ownership := MaxReal(current.ownership, asset.ownership),
             lastSeen := Later(current.lastSeen, asset.lastSeen))
  }

  const ASSET_MERGER: Merger<Asset> := Merger(AssetKey, MergeAssets)

  // ---------- services ----------

  /** `str(int)` */
  function IntText(n: int): string {
    if n < 0 then "-" + Digits(-n) else Digits(n)
  }

  function ServiceKey(s: Service): string {
    TextOr(s.domain, TextOr(s.ip, "unknown")) + "|" + IntText(s.port) + "|" + s.protocol + "|" + s.service
  }

  function MergeServices(current: Service, service: Service): Service {
    current.(sources := MergeUnique(current.sources, service.sources),
             evidenceIds := MergeUnique(current.evidenceIds, service.evidenceIds),
             title := OrElse(current.title, service.title),
             product := OrElse(current.product, service.product),
             version := OrElse(current.version, service.version),
             lastSeen := Later(current.lastSeen, service.lastSeen))
  }

  const SERVICE_MERGER: Merger<Service> := Merger(ServiceKey, MergeServices)

  // ---------- the merges are lawful ----------

  const FIRST_OF_EQUAL: Merger<string> := Merger((s: string) => s, (a: string, b: string) => a)

  lemma UniqueIsDedupe(xs: seq<string>)
    ensures Unique(xs) == Dedupe(FIRST_OF_EQUAL, xs)
  {
    DedupeIsGroupMerge(FIRST_OF_EQUAL, xs);
    assert KeysOf(FIRST_OF_EQUAL, xs) == xs;
    assert KeysOf(FIRST_OF_EQUAL, Dedupe(FIRST_OF_EQUAL, xs)) == Dedupe(FIRST_OF_EQUAL, xs);
  }

  /** Uniting lists of identifiers is associative: only the first occurrences matter. */
  lemma MergeUniqueAssociative(a: seq<string>, b: seq<string>, c: seq<string>)
    ensures MergeUnique(MergeUnique(a, b), c) == MergeUnique(a, MergeUnique(b, c)) == Unique(a + b + c)
  {
    UniqueOfUnique(a + b, c);
    UniqueOfUnique(a, b + c);
    ConcatAssociative(a, b, c);
  }

  lemma ConcatAssociative(a: seq<string>, b: seq<string>, c: seq<string>)
    ensures (a + b) + c == a + (b + c)
  {
  }

  lemma UniqueOfUnique(a: seq<string>, b: seq<string>)
    ensures Unique(Unique(a) + b) == Unique(a + b) == Unique(a + Unique(b))
  {
    UniqueIsDedupe(a);
    UniqueIsDedupe(b);
    UniqueIsDedupe(a + b);
    UniqueIsDedupe(Unique(a) + b);
    UniqueIsDedupe(a + Unique(b));
    DedupeInside(FIRST_OF_EQUAL, a, b);
  }

  lemma LaterAssociative(a: Option<string>, b: Option<string>, c: Option<string>)
    ensures Later(Later(a, b), c) == Later(a, Later(b, c))
  {
    MaxAssociative(TextOr(a, ""), TextOr(b, ""), TextOr(c, ""));
    assert TextOr(Later(a, b), "") == Max(TextOr(a, ""), TextOr(b, ""));
    assert TextOr(Later(b, c), "") == Max(TextOr(b, ""), TextOr(c, ""));
  }

  lemma AssetMergerLawful()
    ensures Lawful(ASSET_MERGER)
  {
    forall a: Asset, b: Asset, c: Asset
      ensures MergeAssets(MergeAssets(a, b), c) == MergeAssets(a, MergeAssets(b, c))
    {
      MergeUniqueAssociative(a.sources, b.sources, c.sources);
      MergeUniqueAssociative(a.evidenceIds, b.evidenceIds, c.evidenceIds);
      LaterAssociative(a.lastSeen, b.lastSeen, c.lastSeen);
    }
  }

  lemma ServiceMergerLawful()
    ensures Lawful(SERVICE_MERGER)
  {
    forall a: Service, b: Service, c: Service
      ensures MergeServices(MergeServices(a, b), c) == MergeServices(a, MergeServices(b, c))
    {
      MergeUniqueAssociative(a.sources, b.sources, c.sources);
      MergeUniqueAssociative(a.evidenceIds, b.evidenceIds, c.evidenceIds);
      LaterAssociative(a.lastSeen, b.lastSeen, c.lastSeen);
    }
  }

  // ---------- main results ----------

  lemma AssetsHomomorphism(xs: seq<Asset>, ys: seq<Asset>)
    ensures Dedupe(ASSET_MERGER, xs + ys) == Dedupe(ASSET_MERGER, Dedupe(ASSET_MERGER, xs) + Dedupe(ASSET_MERGER, ys))
    ensures Dedupe(ASSET_MERGER, Dedupe(ASSET_MERGER, xs)) == Dedupe(ASSET_MERGER, xs)
  {
    AssetMergerLawful();
    DedupeHomomorphism(ASSET_MERGER, xs, ys);
    DedupeIdempotent(ASSET_MERGER, xs);
  }

  lemma ServicesHomomorphism(xs: seq<Service>, ys: seq<Service>)
    ensures Dedupe(SERVICE_MERGER, xs + ys) ==
        Dedupe(SERVICE_MERGER, Dedupe(SERVICE_MERGER, xs) + Dedupe(SERVICE_MERGER, ys))
    ensures Dedupe(SERVICE_MERGER, Dedupe(SERVICE_MERGER, xs)) == Dedupe(SERVICE_MERGER, xs)
  {
    ServiceMergerLawful();
    DedupeHomomorphism(SERVICE_MERGER, xs, ys);
    DedupeIdempotent(SERVICE_MERGER, xs);
  }

  // ---------- what a merged record holds ----------

  lemma {:induction false} UniqueMembers(xs: seq<string>)
    ensures forall x :: x in Unique(xs) <==> x in xs
    ensures forall i, j :: 0 <= i < j < |Unique(xs)| ==> Unique(xs)[i] != Unique(xs)[j]
  {
    if xs != [] {
      UniqueMembers(xs[..|xs| - 1]);
      assert xs == xs[..|xs| - 1] + [xs[|xs| - 1]];
    }
  }

  /** One field of every record of a group. */
  function Column<T, U>(field: T -> U, group: seq<T>): (us: seq<U>)
    ensures |us| == |group| && forall i :: 0 <= i < |us| ==> us[i] == field(group[i])
  {
    seq(|group|, i requires 0 <= i < |group| => field(group[i]))
  }

  /** Combine a non-empty list from left to right. */
  function Fold<U>(op: (U, U) -> U, us: seq<U>): U
    requires us != []
  {
    if |us| == 1 then us[0] else op(Fold(op, us[..|us| - 1]), us[|us| - 1])
  }

  /** A field that merging combines with `op` is, in the merged record, the fold of its column. */
  lemma {:induction false} FieldFolds<T(!new), U>(m: Merger<T>, field: T -> U, op: (U, U) -> U, group: seq<T>)
    requires group != [] && forall x, y :: field(m.merge(x, y)) == op(field(x), field(y))
    ensures field(MergeAll(m, group)) == Fold(op, Column(field, group))
  {
    if |group| > 1 {
      var front := group[..|group| - 1];
      FieldFolds(m, field, op, front);
      assert Column(field, group)[..|group| - 1] == Column(field, front);
    }
  }

  // ---------- what the folds mean ----------

  lemma {:induction false} FoldMax(ts: seq<string>)
    requires ts != []
    ensures Fold(Max, ts) in ts
    ensures forall i :: 0 <= i < |ts| ==> !Less(Fold(Max, ts), ts[i])
  {
    var last := ts[|ts| - 1];
    LessTotal(last, last);
    if |ts| > 1 {
      var front := ts[..|ts| - 1];
      var best := Fold(Max, front);
      FoldMax(front);
      LessTotal(best, last);
      forall i | 0 <= i < |ts| ensures !Less(Fold(Max, ts), ts[i]) {
        if i < |front| {
          assert ts[i] == front[i];
          if Less(best, last) && Less(last, front[i]) {
            LessTransitive(best, last, front[i]);
          }
        }
      }
    }
  }

  ghost predicate IsGreatestScore(score: real, scores: seq<real>) {
    score in scores && forall i :: 0 <= i < |scores| ==> scores[i] <= score
  }

  lemma {:induction false} FoldMaxReal(rs: seq<real>)
    requires rs != []
    ensures IsGreatestScore(Fold(MaxReal, rs), rs)
  {
    if |rs| > 1 {
      var front, last := rs[..|rs| - 1], rs[|rs| - 1];
      FoldMaxReal(front);
      assert rs == front + [last];
      assert forall i :: 0 <= i < |front| ==> front[i] == rs[i];
    }
  }

  /** The first non-empty text; without one, no text or the empty one. */
  ghost predicate IsFirstText(text: Option<string>, texts: seq<Option<string>>) {
    if exists i :: 0 <= i < |texts| && Truthy(texts[i])
    then exists i ::
           0 <= i < |texts| && Truthy(texts[i]) && text == texts[i] && forall j :: 0 <= j < i ==> !Truthy(texts[j])
    else !Truthy(text)
  }

  lemma {:induction false} FoldOrElse(texts: seq<Option<string>>)
    requires texts != []
    ensures IsFirstText(Fold(OrElse, texts), texts)
  {
    if |texts| == 1 {
      assert Truthy(texts[0]) || !Truthy(texts[0]);
    } else {
      var front := texts[..|texts| - 1];
      FoldOrElse(front);
      assert forall i :: 0 <= i < |front| ==> texts[i] == front[i];
      if exists i :: 0 <= i < |front| && Truthy(front[i]) {
        var i :| 0 <= i < |front| && Truthy(front[i]) && Fold(OrElse, front) == front[i]
                 && forall j :: 0 <= j < i ==> !Truthy(front[j]);
        assert Truthy(texts[i]);
      } else if Truthy(texts[|front|]) {
        assert Truthy(texts[|front|]);
      }
    }
  }

  function Flat(lists: seq<seq<string>>): seq<string> {
    if lists == [] then [] else Flat(lists[..|lists| - 1]) + lists[|lists| - 1]
  }

  /** One list as it is, more than one united in order of first occurrence. */
  function United(lists: seq<seq<string>>): seq<string> {
    if |lists| == 1 then lists[0] else Unique(Flat(lists))
  }

  lemma {:induction false} FoldMergeUnique(lists: seq<seq<string>>)
    requires lists != []
    ensures Fold(MergeUnique, lists) == United(lists)
  {
    if |lists| > 1 {
      var front, last := lists[..|lists| - 1], lists[|lists| - 1];
      FoldMergeUnique(front);
      if |front| == 1 {
        assert Flat(front) == front[0] by { assert front[..0] == []; }
      } else {
        UniqueOfUnique(Flat(front), last);
      }
    }
  }

  /** `text` is in `texts` and none of them is greater. */
  ghost predicate IsGreatest(text: string, texts: seq<string>) {
    text in texts && forall i :: 0 <= i < |texts| ==> !Less(text, texts[i])
  }

  // ---------- merged records ----------

  lemma {:induction false} AssetIdentity(group: seq<Asset>)
    requires group != []
    ensures var a := MergeAll(ASSET_MERGER, group);
            && a.assetId == group[0].assetId && a.domain == group[0].domain && a.ip == group[0].ip
            && a.firstSeen == group[0].firstSeen
  {
    if |group| > 1 {
      AssetIdentity(group[..|group| - 1]);
    }
  }

  lemma AssetLists(group: seq<Asset>)
    requires group != []
    ensures var a := MergeAll(ASSET_MERGER, group);
            && a.sources == United(Column((x: Asset) => x.sources, group))
            && a.evidenceIds == United(Column((x: Asset) => x.evidenceIds, group))
  {
    var sources, ids := (x: Asset) => x.sources, (x: Asset) => x.evidenceIds;
    FieldFolds(ASSET_MERGER, sources, MergeUnique, group);
    FieldFolds(ASSET_MERGER, ids, MergeUnique, group);
    FoldMergeUnique(Column(sources, group));
    FoldMergeUnique(Column(ids, group));
  }

  lemma AssetLatest(group: seq<Asset>)
    requires group != []
    ensures IsGreatest(TextOr(MergeAll(ASSET_MERGER, group).lastSeen, ""),
        Column((x: Asset) => TextOr(x.lastSeen, ""), group))
  {
    var seen := (x: Asset) => TextOr(x.lastSeen, "");
    FieldFolds(ASSET_MERGER, seen, Max, group);
    FoldMax(Column(seen, group));
  }

  lemma AssetOwnership(group: seq<Asset>)
    requires group != []
    ensures IsGreatestScore(MergeAll(ASSET_MERGER, group).ownership, Column((x: Asset) => x.ownership, group))
  {
    var score := (x: Asset) => x.ownership;
    FieldFolds(ASSET_MERGER, score, MaxReal, group);
    FoldMaxReal(Column(score, group));
  }

  /** A merged asset keeps the first record's identity, unites sources and evidence ids in order of
      first occurrence, and has the greatest last-seen text and the greatest ownership score. */
  lemma MergedAsset(group: seq<Asset>)
    requires group != []
    ensures var a := MergeAll(ASSET_MERGER, group);
            && a.assetId == group[0].assetId && a.domain == group[0].domain && a.ip == group[0].ip
            && a.firstSeen == group[0].firstSeen
            && a.sources == United(Column((x: Asset) => x.sources, group))
            && a.evidenceIds == United(Column((x: Asset) => x.evidenceIds, group))
            && IsGreatest(TextOr(a.lastSeen, ""), Column((x: Asset) => TextOr(x.lastSeen, ""), group))
            && IsGreatestScore(a.ownership, Column((x: Asset) => x.ownership, group))
  {
    AssetIdentity(group);
    AssetLists(group);
    AssetLatest(group);
    AssetOwnership(group);
  }

  lemma {:induction false} ServiceIdentity(group: seq<Service>)
    requires group != []
    ensures var s, t := MergeAll(SERVICE_MERGER, group), group[0];
            && s.serviceId == t.serviceId && s.assetId == t.assetId && s.firstSeen == t.firstSeen
            && s.domain == t.domain && s.ip == t.ip && s.port == t.port && s.protocol == t.protocol
            && s.service == t.service
  {
    if |group| > 1 {
      ServiceIdentity(group[..|group| - 1]);
    }
  }

  lemma ServiceLists(group: seq<Service>)
    requires group != []
    ensures var s := MergeAll(SERVICE_MERGER, group);
            && s.sources == United(Column((x: Service) => x.sources, group))
            && s.evidenceIds == United(Column((x: Service) => x.evidenceIds, group))
            && IsGreatest(TextOr(s.lastSeen, ""), Column((x: Service) => TextOr(x.lastSeen, ""), group))
  {
    var sources, ids := (x: Service) => x.sources, (x: Service) => x.evidenceIds;
    var seen := (x: Service) => TextOr(x.lastSeen, "");
    FieldFolds(SERVICE_MERGER, sources, MergeUnique, group);
    FieldFolds(SERVICE_MERGER, ids, MergeUnique, group);
    FieldFolds(SERVICE_MERGER, seen, Max, group);
    FoldMergeUnique(Column(sources, group));
    FoldMergeUnique(Column(ids, group));
    FoldMax(Column(seen, group));
  }

  lemma ServiceTexts(group: seq<Service>)
    requires group != []
    ensures var s := MergeAll(SERVICE_MERGER, group);
            && IsFirstText(s.title, Column((x: Service) => x.title, group))
            && IsFirstText(s.product, Column((x: Service) => x.product, group))
            && IsFirstText(s.version, Column((x: Service) => x.version, group))
  {
    var title, product, version := (x: Service) => x.title, (x: Service) => x.product, (x: Service) => x.version;
    FieldFolds(SERVICE_MERGER, title, OrElse, group);
    FieldFolds(SERVICE_MERGER, product, OrElse, group);
    FieldFolds(SERVICE_MERGER, version, OrElse, group);
    FoldOrElse(Column(title, group));
    FoldOrElse(Column(product, group));
    FoldOrElse(Column(version, group));
  }

  /** A merged service keeps the first record's identity, unites sources and evidence ids in order of
      first occurrence, and has the first non-empty title, product and version and the greatest
      last-seen text. */
  lemma MergedService(group: seq<Service>)
    requires group != []
    ensures var s, t := MergeAll(SERVICE_MERGER, group), group[0];
            && s.serviceId == t.serviceId && s.assetId == t.assetId && s.firstSeen == t.firstSeen
            && s.sources == United(Column((x: Service) => x.sources, group))
            && s.evidenceIds == United(Column((x: Service) => x.evidenceIds, group))
            && IsFirstText(s.title, Column((x: Service) => x.title, group))
            && IsFirstText(s.product, Column((x: Service) => x.product, group))
            && IsFirstText(s.version, Column((x: Service) => x.version, group))
            && IsGreatest(TextOr(s.lastSeen, ""), Column((x: Service) => TextOr(x.lastSeen, ""), group))
  {
    ServiceIdentity(group);
    ServiceLists(group);
    ServiceTexts(group);
  }

  // ---------- the loops ----------

  /** An insertion-ordered dictionary: keys in order of first occurrence, one value each. */
  datatype Dict<T> = Dict(order: seq<string>, values: map<string, T>)

  ghost predicate Represents<T(!new)>(m: Merger<T>, d: Dict<T>, entries: seq<T>) {
    && |d.order| == |entries| && DistinctKeys(m, entries)
    && (forall k :: k in d.values <==> HasKey(m, entries, k))
    && forall i :: 0 <= i < |entries| ==>
         d.order[i] == m.key(entries[i]) && d.order[i] in d.values && d.values[d.order[i]] == entries[i]
  }

  /** `merged[key] = value`: a new key goes to the end, an old one keeps its place. */
  function Put<T>(d: Dict<T>, k: string, v: T): Dict<T> {
    Dict(if k in d.values then d.order else d.order + [k], d.values[k := v])
  }

  function Values<T>(d: Dict<T>): seq<T>
    requires forall i :: 0 <= i < |d.order| ==> d.order[i] in d.values
  {
    seq(|d.order|, i requires 0 <= i < |d.order| => d.values[d.order[i]])
  }

  lemma RepresentsNew<T(!new)>(m: Merger<T>, d: Dict<T>, entries: seq<T>, x: T)
    requires Lawful(m) && Represents(m, d, entries) && m.key(x) !in d.values
    ensures Represents(m, Put(d, m.key(x), x), Insert(m, entries, x))
  {
    InsertAbsent(m, entries, x);
    InsertKeepsDistinct(m, entries, x);
  }

  lemma RepresentsMerged<T(!new)>(m: Merger<T>, d: Dict<T>, entries: seq<T>, x: T)
    requires Lawful(m) && Represents(m, d, entries) && m.key(x) in d.values
    ensures Represents(m, Put(d, m.key(x), m.merge(d.values[m.key(x)], x)), Insert(m, entries, x))
  {
    var i :| 0 <= i < |entries| && m.key(entries[i]) == m.key(x);
    var v := m.merge(entries[i], x);
    assert d.order[i] == m.key(x) && d.values[m.key(x)] == entries[i];
    InsertPresent(m, entries, i, x);
    InsertKeepsDistinct(m, entries, x);
    var r := entries[i := v];
    assert Insert(m, entries, x) == r;
    forall j | 0 <= j < |r|
      ensures d.order[j] == m.key(r[j]) && d.order[j] in d.values && d.values[m.key(x) := v][d.order[j]] == r[j]
    {
      assert j != i ==> m.key(entries[j]) != m.key(entries[i]);
    }
  }

  /** The loop both deduplications run. */
  method MergeByKey<T(!new)>(m: Merger<T>, xs: seq<T>) returns (r: seq<T>)
    requires Lawful(m)
    ensures r == Dedupe(m, xs)
  {
    var merged: Dict<T> := Dict([], map[]);
    for n := 0 to |xs|
      invariant Represents(m, merged, Dedupe(m, xs[..n]))
    {
      var key := m.key(xs[n]);
      assert xs[..n + 1][..n] == xs[..n];
      if key !in merged.values {
        RepresentsNew(m, merged, Dedupe(m, xs[..n]), xs[n]);
        merged := Put(merged, key, xs[n]);
      } else {
        RepresentsMerged(m, merged, Dedupe(m, xs[..n]), xs[n]);
        merged := Put(merged, key, m.merge(merged.values[key], xs[n]));
      }
    }
    assert xs[..|xs|] == xs;
    r := Values(merged);
    assert r == Dedupe(m, xs);
  }

  method DeduplicateAssets(assets: seq<Asset>) returns (r: seq<Asset>)
    ensures r == Dedupe(ASSET_MERGER, assets)
  {
    AssetMergerLawful();
    r := MergeByKey(ASSET_MERGER, assets);
  }

  method DeduplicateServices(services: seq<Service>) returns (r: seq<Service>)
    ensures r == Dedupe(SERVICE_MERGER, services)
  {
    ServiceMergerLawful();
    r := MergeByKey(SERVICE_MERGER, services);
  }
}
