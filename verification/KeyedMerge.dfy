/** Order-preserving merging by key: what a loop over an insertion-ordered dictionary does when it
    stores the first value of a key and merges every later value of that key into it. */
module KeyedMerge {
  import opened Text

  datatype Merger<!T> = Merger(key: T -> string, merge: (T, T) -> T)

  /** Merging keeps the key and is associative among values of one key. */
  ghost predicate Lawful<T(!new)>(m: Merger<T>) {
    && (forall a, b :: m.key(a) == m.key(b) ==> m.key(m.merge(a, b)) == m.key(a))
    && (forall a, b, c :: m.key(a) == m.key(b) == m.key(c) ==> m.merge(m.merge(a, b), c) == m.merge(a, m.merge(b, c)))
  }

  /** One loop turn: merge `x` into the entry of its key, or append it. */
  function Insert<T>(m: Merger<T>, entries: seq<T>, x: T): (r: seq<T>)
    ensures |r| > 0
  {
    if entries == [] then [x]
    else if m.key(entries[0]) == m.key(x) then [m.merge(entries[0], x)] + entries[1..]
    else [entries[0]] + Insert(m, entries[1..], x)
  }

  function InsertAll<T>(m: Merger<T>, entries: seq<T>, xs: seq<T>): seq<T> {
    if xs == [] then entries else Insert(m, InsertAll(m, entries, xs[..|xs| - 1]), xs[|xs| - 1])
  }

  function Dedupe<T>(m: Merger<T>, xs: seq<T>): seq<T> {
    InsertAll(m, [], xs)
  }

  predicate HasKey<T>(m: Merger<T>, xs: seq<T>, k: string) {
    exists i :: 0 <= i < |xs| && m.key(xs[i]) == k
  }

  predicate DistinctKeys<T>(m: Merger<T>, xs: seq<T>) {
    forall i, j :: 0 <= i < j < |xs| ==> m.key(xs[i]) != m.key(xs[j])
  }

  // ---------- insertion ----------

  lemma {:induction false} InsertKeepsDistinct<T(!new)>(m: Merger<T>, entries: seq<T>, x: T)
    requires Lawful(m) && DistinctKeys(m, entries)
    ensures DistinctKeys(m, Insert(m, entries, x))
    ensures forall k :: HasKey(m, Insert(m, entries, x), k) <==> HasKey(m, entries, k) || k == m.key(x)
  {
    var r := Insert(m, entries, x);
    if entries == [] {
      assert r[0] == x;
    } else if m.key(entries[0]) == m.key(x) {
      forall k ensures HasKey(m, r, k) <==> HasKey(m, entries, k) || k == m.key(x) {
        assert forall i :: 0 <= i < |r| ==> m.key(r[i]) == m.key(entries[i]);
        if HasKey(m, entries, k) {
          var i :| 0 <= i < |entries| && m.key(entries[i]) == k;
          assert m.key(r[i]) == k;
        }
        assert m.key(r[0]) == m.key(x);
      }
    } else {
      var rest := Insert(m, entries[1..], x);
      InsertKeepsDistinct(m, entries[1..], x);
      SplitHasKey(m, entries);
      SplitHasKey(m, r);
      assert r[1..] == rest;
      assert !HasKey(m, entries[1..], m.key(entries[0]));
      assert !HasKey(m, rest, m.key(entries[0]));
    }
  }

  lemma SplitHasKey<T>(m: Merger<T>, xs: seq<T>)
    requires xs != []
    ensures forall k :: HasKey(m, xs, k) <==> k == m.key(xs[0]) || HasKey(m, xs[1..], k)
  {
    forall k ensures HasKey(m, xs, k) <==> k == m.key(xs[0]) || HasKey(m, xs[1..], k) {
      if HasKey(m, xs, k) && k != m.key(xs[0]) {
        var i :| 0 <= i < |xs| && m.key(xs[i]) == k;
        assert xs[1..][i - 1] == xs[i];
      }
      if HasKey(m, xs[1..], k) {
        var i :| 0 <= i < |xs[1..]| && m.key(xs[1..][i]) == k;
        assert xs[i + 1] == xs[1..][i];
      }
      if k == m.key(xs[0]) {
        assert m.key(xs[0]) == k;
      }
    }
  }

  lemma {:induction false} InsertMergedTwice<T(!new)>(m: Merger<T>, entries: seq<T>, d: T, y: T)
    requires Lawful(m) && m.key(d) == m.key(y)
    ensures Insert(m, Insert(m, entries, d), y) == Insert(m, entries, m.merge(d, y))
  {
    if entries == [] {
    } else if m.key(entries[0]) == m.key(d) {
      assert Insert(m, entries, d)[1..] == entries[1..];
    } else {
      InsertMergedTwice(m, entries[1..], d, y);
      assert Insert(m, entries, d)[1..] == Insert(m, entries[1..], d);
    }
  }

  lemma {:induction false} InsertCommutes<T(!new)>(m: Merger<T>, entries: seq<T>, y: T, d: T)
    requires Lawful(m) && m.key(d) != m.key(y) && HasKey(m, entries, m.key(y))
    ensures Insert(m, Insert(m, entries, y), d) == Insert(m, Insert(m, entries, d), y)
  {
    var a, b := Insert(m, entries, y), Insert(m, entries, d);
    SplitHasKey(m, entries);
    if m.key(entries[0]) == m.key(y) {
      assert a[1..] == entries[1..];
      assert b[1..] == Insert(m, entries[1..], d);
    } else if m.key(entries[0]) == m.key(d) {
      assert a[1..] == Insert(m, entries[1..], y);
      assert b[1..] == entries[1..];
    } else {
      assert a[1..] == Insert(m, entries[1..], y) && b[1..] == Insert(m, entries[1..], d);
      InsertCommutes(m, entries[1..], y, d);
    }
  }

  // ---------- inserting many ----------

  lemma {:induction false} InsertAllKeepsDistinct<T(!new)>(m: Merger<T>, entries: seq<T>, xs: seq<T>)
    requires Lawful(m) && DistinctKeys(m, entries)
    ensures DistinctKeys(m, InsertAll(m, entries, xs))
    ensures forall k :: HasKey(m, InsertAll(m, entries, xs), k) <==> HasKey(m, entries, k) || HasKey(m, xs, k)
  {
    if xs != [] {
      var front, last := xs[..|xs| - 1], xs[|xs| - 1];
      InsertAllKeepsDistinct(m, entries, front);
      InsertKeepsDistinct(m, InsertAll(m, entries, front), last);
      forall k ensures HasKey(m, xs, k) <==> HasKey(m, front, k) || k == m.key(last) {
        if HasKey(m, front, k) {
          var i :| 0 <= i < |front| && m.key(front[i]) == k;
          assert m.key(xs[i]) == k;
        }
        if HasKey(m, xs, k) && k != m.key(last) {
          var i :| 0 <= i < |xs| && m.key(xs[i]) == k;
          assert m.key(front[i]) == k;
        }
      }
    }
  }

  lemma {:induction false} InsertAllOfConcat<T>(m: Merger<T>, entries: seq<T>, xs: seq<T>, ys: seq<T>)
    ensures InsertAll(m, entries, xs + ys) == InsertAll(m, InsertAll(m, entries, xs), ys)
  {
    if ys == [] {
      assert xs + ys == xs;
    } else {
      assert (xs + ys)[..|xs + ys| - 1] == xs + ys[..|ys| - 1];
      InsertAllOfConcat(m, entries, xs, ys[..|ys| - 1]);
    }
  }

  /** A value whose key is already present, and absent from what follows, can be inserted last. */
  lemma {:induction false} PostponeInsert<T(!new)>(m: Merger<T>, entries: seq<T>, y: T, rest: seq<T>)
    requires Lawful(m) && DistinctKeys(m, entries)
    requires HasKey(m, entries, m.key(y)) && !HasKey(m, rest, m.key(y))
    ensures InsertAll(m, Insert(m, entries, y), rest) == Insert(m, InsertAll(m, entries, rest), y)
  {
    if rest != [] {
      var front, last := rest[..|rest| - 1], rest[|rest| - 1];
      assert m.key(last) != m.key(y);
      assert forall i :: 0 <= i < |front| ==> front[i] == rest[i];
      PostponeInsert(m, entries, y, front);
      InsertAllKeepsDistinct(m, entries, front);
      InsertCommutes(m, InsertAll(m, entries, front), y, last);
    }
  }

  /** Inserting an already merged list that was extended by `y` is inserting the list, then `y`. */
  lemma {:induction false} InsertAllOfInsert<T(!new)>(m: Merger<T>, entries: seq<T>, merged: seq<T>, y: T)
    requires Lawful(m) && DistinctKeys(m, entries) && DistinctKeys(m, merged)
    ensures InsertAll(m, entries, Insert(m, merged, y)) == Insert(m, InsertAll(m, entries, merged), y)
    decreases |merged|
  {
    if merged == [] {
      assert [y][..0] == [];
      assert InsertAll(m, entries, [y]) == Insert(m, InsertAll(m, entries, []), y);
    } else {
      var first, rest := merged[0], merged[1..];
      assert merged == [first] + rest;
      InsertAllOfConcat(m, entries, [first], rest);
      InsertOne(m, entries, first);
      InsertKeepsDistinct(m, entries, first);
      if m.key(first) == m.key(y) {
        InsertAllOfConcat(m, entries, [m.merge(first, y)], rest);
        InsertOne(m, entries, m.merge(first, y));
        InsertMergedTwice(m, entries, first, y);
        assert !HasKey(m, rest, m.key(y));
        PostponeInsert(m, Insert(m, entries, first), y, rest);
      } else {
        InsertAllOfConcat(m, entries, [first], Insert(m, rest, y));
        InsertAllOfInsert(m, Insert(m, entries, first), rest, y);
      }
    }
  }

  lemma InsertOne<T>(m: Merger<T>, entries: seq<T>, x: T)
    ensures InsertAll(m, entries, [x]) == Insert(m, entries, x)
  {
    assert [x][..0] == [];
    assert InsertAll(m, entries, []) == entries;
  }

  /** Inserting a list or its deduplicated form into any entries gives the same result. */
  lemma {:induction false} DedupeAbsorbed<T(!new)>(m: Merger<T>, entries: seq<T>, xs: seq<T>)
    requires Lawful(m) && DistinctKeys(m, entries)
    ensures InsertAll(m, entries, Dedupe(m, xs)) == InsertAll(m, entries, xs)
  {
    if xs != [] {
      var front := xs[..|xs| - 1];
      DedupeAbsorbed(m, entries, front);
      InsertAllKeepsDistinct(m, [], front);
      InsertAllOfInsert(m, entries, Dedupe(m, front), xs[|xs| - 1]);
    }
  }

  lemma DedupeInside<T(!new)>(m: Merger<T>, xs: seq<T>, ys: seq<T>)
    requires Lawful(m)
    ensures Dedupe(m, Dedupe(m, xs) + ys) == Dedupe(m, xs + ys)
    ensures Dedupe(m, xs + Dedupe(m, ys)) == Dedupe(m, xs + ys)
  {
    InsertAllOfConcat(m, [], xs, ys);
    InsertAllOfConcat(m, [], Dedupe(m, xs), ys);
    InsertAllOfConcat(m, [], xs, Dedupe(m, ys));
    InsertAllKeepsDistinct(m, [], xs);
    DedupeAbsorbed(m, [], xs);
    DedupeAbsorbed(m, Dedupe(m, xs), ys);
  }

  // ---------- main results ----------

  /** Deduplication is a merge homomorphism, exactly: order, merged fields and all. */
  lemma DedupeHomomorphism<T(!new)>(m: Merger<T>, xs: seq<T>, ys: seq<T>)
    requires Lawful(m)
    ensures Dedupe(m, xs + ys) == Dedupe(m, Dedupe(m, xs) + Dedupe(m, ys))
  {
    DedupeInside(m, xs, ys);
    DedupeInside(m, Dedupe(m, xs), ys);
  }

  lemma DedupeIdempotent<T(!new)>(m: Merger<T>, xs: seq<T>)
    requires Lawful(m)
    ensures Dedupe(m, Dedupe(m, xs)) == Dedupe(m, xs)
  {
    DedupeAbsorbed(m, [], xs);
  }

  // ---------- reference form: group by key, then merge each group from left to right ----------

  function Group<T>(m: Merger<T>, xs: seq<T>, k: string): seq<T> {
    if xs == [] then []
    else
      var g := Group(m, xs[..|xs| - 1], k);
      if m.key(xs[|xs| - 1]) == k then g + [xs[|xs| - 1]] else g
  }

  function MergeAll<T>(m: Merger<T>, group: seq<T>): T
    requires group != []
  {
    if |group| == 1 then group[0] else m.merge(MergeAll(m, group[..|group| - 1]), group[|group| - 1])
  }

  function KeysOf<T>(m: Merger<T>, xs: seq<T>): (ks: seq<string>)
    ensures |ks| == |xs|
    ensures forall i :: 0 <= i < |xs| ==> ks[i] == m.key(xs[i])
  {
    seq(|xs|, i requires 0 <= i < |xs| => m.key(xs[i]))
  }

  /** First occurrences, in order: `list(dict.fromkeys(xs))`. */
  function Unique(xs: seq<string>): seq<string> {
    if xs == [] then []
    else
      var u := Unique(xs[..|xs| - 1]);
      if xs[|xs| - 1] in u then u else u + [xs[|xs| - 1]]
  }

  /** The entry of key `k` is the merge of the values of that key. */
  ghost predicate EntriesAreGroups<T>(m: Merger<T>, entries: seq<T>, xs: seq<T>) {
    && KeysOf(m, entries) == Unique(KeysOf(m, xs))
    && forall i :: 0 <= i < |entries| ==>
         var g := Group(m, xs, m.key(entries[i])); g != [] && entries[i] == MergeAll(m, g)
  }

  lemma {:induction false} InsertAbsent<T>(m: Merger<T>, entries: seq<T>, x: T)
    requires !HasKey(m, entries, m.key(x))
    ensures Insert(m, entries, x) == entries + [x]
  {
    if entries != [] {
      SplitHasKey(m, entries);
      InsertAbsent(m, entries[1..], x);
    }
  }

  lemma {:induction false} InsertPresent<T>(m: Merger<T>, entries: seq<T>, i: nat, x: T)
    requires DistinctKeys(m, entries) && i < |entries| && m.key(entries[i]) == m.key(x)
    ensures Insert(m, entries, x) == entries[i := m.merge(entries[i], x)]
  {
    if i > 0 {
      InsertPresent(m, entries[1..], i - 1, x);
    }
  }

  /** Every entry is the merge of its whole group, in order of first occurrence of the keys. */
  lemma {:induction false} DedupeIsGroupMerge<T(!new)>(m: Merger<T>, xs: seq<T>)
    requires Lawful(m)
    ensures EntriesAreGroups(m, Dedupe(m, xs), xs)
  {
    if xs != [] {
      var front, x := xs[..|xs| - 1], xs[|xs| - 1];
      DedupeIsGroupMerge(m, front);
      InsertAllKeepsDistinct(m, [], front);
      GrowGroups(m, Dedupe(m, front), front, x);
      assert xs == front + [x];
    }
  }

  lemma GrowGroups<T(!new)>(m: Merger<T>, entries: seq<T>, front: seq<T>, x: T)
    requires Lawful(m) && DistinctKeys(m, entries) && EntriesAreGroups(m, entries, front)
    requires forall k :: HasKey(m, entries, k) <==> HasKey(m, [], k) || HasKey(m, front, k)
    ensures EntriesAreGroups(m, Insert(m, entries, x), front + [x])
  {
    var k := m.key(x);
    if HasKey(m, entries, k) {
      var i :| 0 <= i < |entries| && m.key(entries[i]) == k;
      GrowOldGroup(m, entries, front, i, x);
    } else {
      GrowNewGroup(m, entries, front, x);
    }
  }

  lemma GrowOldGroup<T(!new)>(m: Merger<T>, entries: seq<T>, front: seq<T>, i: nat, x: T)
    requires Lawful(m) && DistinctKeys(m, entries) && EntriesAreGroups(m, entries, front)
    requires i < |entries| && m.key(entries[i]) == m.key(x)
    ensures EntriesAreGroups(m, Insert(m, entries, x), front + [x])
  {
    var r, k := Insert(m, entries, x), m.key(x);
    InsertPresent(m, entries, i, x);
    KeysOfSnoc(m, front, x);
    GroupOfSnoc(m, front, x);
    var g := Group(m, front, k);
    assert (g + [x])[..|g|] == g;
    assert KeysOf(m, r) == KeysOf(m, entries);
    assert KeysOf(m, entries)[i] == k;
  }

  lemma GrowNewGroup<T(!new)>(m: Merger<T>, entries: seq<T>, front: seq<T>, x: T)
    requires Lawful(m) && DistinctKeys(m, entries) && EntriesAreGroups(m, entries, front)
    requires !HasKey(m, entries, m.key(x)) && !HasKey(m, front, m.key(x))
    ensures EntriesAreGroups(m, Insert(m, entries, x), front + [x])
  {
    InsertAbsent(m, entries, x);
    KeysOfSnoc(m, entries, x);
    KeysOfSnoc(m, front, x);
    assert m.key(x) !in KeysOf(m, entries);
    forall j | 0 <= j < |entries| + 1
      ensures var g := Group(m, front + [x], m.key((entries + [x])[j])); g != [] && (entries + [x])[j] == MergeAll(m, g)
    {
      GroupOfSnoc(m, front, x);
      if j < |entries| {
        assert (entries + [x])[j] == entries[j];
      } else {
        EmptyGroup(m, front, m.key(x));
      }
    }
  }

  lemma GroupOfSnoc<T>(m: Merger<T>, front: seq<T>, x: T)
    ensures forall k :: Group(m, front + [x], k) ==
              if m.key(x) == k then Group(m, front, k) + [x] else Group(m, front, k)
  {
    assert (front + [x])[..|front|] == front;
  }

  lemma KeysOfSnoc<T>(m: Merger<T>, xs: seq<T>, x: T)
    ensures KeysOf(m, xs + [x]) == KeysOf(m, xs) + [m.key(x)]
    ensures Unique(KeysOf(m, xs + [x])) ==
            if m.key(x) in Unique(KeysOf(m, xs)) then Unique(KeysOf(m, xs)) else Unique(KeysOf(m, xs)) + [m.key(x)]
  {
    var ks := KeysOf(m, xs + [x]);
    assert ks[..|ks| - 1] == KeysOf(m, xs);
  }

  lemma {:induction false} EmptyGroup<T>(m: Merger<T>, xs: seq<T>, k: string)
    requires !HasKey(m, xs, k)
    ensures Group(m, xs, k) == []
  {
    if xs != [] {
      assert forall i :: 0 <= i < |xs| - 1 ==> xs[..|xs| - 1][i] == xs[i];
      EmptyGroup(m, xs[..|xs| - 1], k);
    }
  }

  lemma {:induction false} GroupMembers<T>(m: Merger<T>, xs: seq<T>, k: string)
    ensures forall x :: x in Group(m, xs, k) <==> x in xs && m.key(x) == k
  {
    if xs != [] {
      var front := xs[..|xs| - 1];
      GroupMembers(m, front, k);
      assert xs == front + [xs[|xs| - 1]];
    }
  }

  // ---------- the first record of a key ----------

  /** No earlier record has the key of record `q`. */
  predicate Leads<T>(m: Merger<T>, xs: seq<T>, q: nat) {
    q < |xs| && forall p :: 0 <= p < q ==> m.key(xs[p]) != m.key(xs[q])
  }

  lemma {:induction false} LeaderOf<T>(m: Merger<T>, xs: seq<T>, p: nat) returns (q: nat)
    requires p < |xs|
    ensures Leads(m, xs, q) && q <= p && m.key(xs[q]) == m.key(xs[p])
    decreases p
  {
    q := p;
    if r: nat :| r < p && m.key(xs[r]) == m.key(xs[p]) {
      q := LeaderOf(m, xs, r);
    }
  }

  lemma {:induction false} LeaderHeadsGroup<T>(m: Merger<T>, xs: seq<T>, q: nat)
    requires Leads(m, xs, q)
    ensures var g := Group(m, xs, m.key(xs[q])); g != [] && g[0] == xs[q]
  {
    var front := xs[..|xs| - 1];
    if q < |front| {
      assert forall p :: 0 <= p <= q ==> front[p] == xs[p];
      LeaderHeadsGroup(m, front, q);
    } else {
      EmptyGroup(m, front, m.key(xs[q]));
    }
  }

  /** Each entry is the merge of a group headed by its leader. */
  lemma EntryHasLeader<T(!new)>(m: Merger<T>, xs: seq<T>, i: nat) returns (q: nat)
    requires Lawful(m) && i < |Dedupe(m, xs)|
    ensures Leads(m, xs, q) && m.key(xs[q]) == m.key(Dedupe(m, xs)[i])
    ensures var g := Group(m, xs, m.key(xs[q])); g != [] && g[0] == xs[q] && Dedupe(m, xs)[i] == MergeAll(m, g)
  {
    DedupeIsGroupMerge(m, xs);
    var k := m.key(Dedupe(m, xs)[i]);
    GroupMembers(m, xs, k);
    assert Group(m, xs, k)[0] in Group(m, xs, k);
    var p :| 0 <= p < |xs| && xs[p] == Group(m, xs, k)[0];
    q := LeaderOf(m, xs, p);
    LeaderHeadsGroup(m, xs, q);
  }

  /** Each leader has its entry. */
  lemma LeaderHasEntry<T(!new)>(m: Merger<T>, xs: seq<T>, q: nat) returns (i: nat)
    requires Lawful(m) && Leads(m, xs, q)
    ensures i < |Dedupe(m, xs)| && m.key(Dedupe(m, xs)[i]) == m.key(xs[q])
    ensures var g := Group(m, xs, m.key(xs[q])); g != [] && g[0] == xs[q] && Dedupe(m, xs)[i] == MergeAll(m, g)
  {
    DedupeIsGroupMerge(m, xs);
    InsertAllKeepsDistinct(m, [], xs);
    assert HasKey(m, xs, m.key(xs[q]));
    i :| 0 <= i < |Dedupe(m, xs)| && m.key(Dedupe(m, xs)[i]) == m.key(xs[q]);
    LeaderHeadsGroup(m, xs, q);
  }
}
