/** What changed between two stored snapshots. */
module ChangeDetection {
  import opened Text

  /** A snapshot entry: its id field, which may be missing, and everything else as text. */
  datatype Entry = Entry(id: Option<string>, body: string)

  datatype Snapshot = Snapshot(assets: seq<Entry>, services: seq<Entry>)

  datatype Changes = Changes(newAssets: seq<Entry>, removedAssets: seq<Entry>, newServices: seq<Entry>,
      removedServices: seq<Entry>)

  /** A missing or empty id leaves the entry out. */
  predicate HasId(e: Entry) { e.id.Some? && e.id.value != "" }

  /** A dict comprehension: a repeated id keeps the later entry. */
  function ById(entries: seq<Entry>): map<string, Entry> {
    if entries == [] then map[]
    else
      var front, last := ById(entries[..|entries| - 1]), entries[|entries| - 1];
      if HasId(last) then front[last.id.value := last] else front
  }

  // ---------- sorting ids ----------

  predicate Sorted(ids: seq<string>) {
    forall i, j :: 0 <= i < j < |ids| ==> Less(ids[i], ids[j])
  }

  predicate IsLeast(ids: set<string>, m: string) {
    m in ids && forall x :: x in ids && x != m ==> Less(m, x)
  }

  lemma {:induction false} LeastExists(ids: set<string>)
    requires ids != {}
    ensures exists m :: IsLeast(ids, m)
    decreases |ids|
  {
    var a :| a in ids;
    if ids == {a} {
      assert IsLeast(ids, a);
    } else {
      LeastExists(ids - {a});
      var b :| IsLeast(ids - {a}, b);
      LessTotal(a, b);
      if Less(a, b) {
        forall x | x in ids && x != a ensures Less(a, x) {
          if x != b {
            LessTransitive(a, b, x);
          }
        }
        assert IsLeast(ids, a);
      } else {
        assert IsLeast(ids, b);
      }
    }
  }

  lemma LeastUnique(ids: set<string>)
    ensures forall a, b :: IsLeast(ids, a) && IsLeast(ids, b) ==> a == b
  {
    forall a, b | IsLeast(ids, a) && IsLeast(ids, b) ensures a == b {
      LessTotal(a, b);
    }
  }

  /** Python's `sorted` on a set of strings. */
  function SortedIds(ids: set<string>): (r: seq<string>)
    decreases |ids|
  {
    if ids == {} then []
    else
      LeastExists(ids);
      LeastUnique(ids);
      var m :| m in ids && IsLeast(ids, m);
      [m] + SortedIds(ids - {m})
  }

  lemma {:induction false} SortedIdsSorts(ids: set<string>)
    ensures Sorted(SortedIds(ids)) && forall x :: x in SortedIds(ids) <==> x in ids
    decreases |ids|
  {
    if ids != {} {
      LeastExists(ids);
      var m :| IsLeast(ids, m) && SortedIds(ids) == [m] + SortedIds(ids - {m});
      var rest := SortedIds(ids - {m});
      SortedIdsSorts(ids - {m});
      forall i, j | 0 <= i < j < |rest| + 1 ensures Less(([m] + rest)[i], ([m] + rest)[j]) {
        assert rest[j - 1] in ids - {m};
      }
    }
  }

  /** A set has one sorted list. */
  lemma {:induction false} SortedListUnique(a: seq<string>, b: seq<string>)
    requires Sorted(a) && Sorted(b) && forall x :: x in a <==> x in b
    ensures a == b
  {
    if a != [] {
      assert a[0] in b;
    }
    if b != [] {
      assert b[0] in a;
    }
    if a != [] && b != [] {
      LessTotal(a[0], b[0]);
      HeadIsLeast(a, b[0]);
      HeadIsLeast(b, a[0]);
      forall x ensures x in a[1..] <==> x in b[1..] {
        TailOfSorted(a, x);
        TailOfSorted(b, x);
      }
      SortedListUnique(a[1..], b[1..]);
    }
  }

  lemma TailOfSorted(a: seq<string>, x: string)
    requires Sorted(a) && a != []
    ensures x in a[1..] <==> x in a && x != a[0]
  {
    if x in a[1..] {
      var i :| 0 <= i < |a| - 1 && a[1..][i] == x;
      assert a[i + 1] == x;
      LessTotal(a[0], x);
    }
    assert a == [a[0]] + a[1..];
  }

  lemma HeadIsLeast(a: seq<string>, x: string)
    requires Sorted(a) && x in a
    ensures x == a[0] || Less(a[0], x)
  {
  }

  /** The sorted list is the only ascending list of those ids. */
  lemma SortedIdsDetermined(ids: set<string>, r: seq<string>)
    requires Sorted(r) && forall x :: x in r <==> x in ids
    ensures r == SortedIds(ids)
  {
    SortedIdsSorts(ids);
    SortedListUnique(r, SortedIds(ids));
  }

  // ---------- comparing ----------

  function SortedValues(entries: map<string, Entry>, ids: set<string>): (r: seq<Entry>)
    requires ids <= entries.Keys
    ensures |r| == |SortedIds(ids)|
    ensures forall i :: 0 <= i < |r| ==> SortedIds(ids)[i] in ids && r[i] == entries[SortedIds(ids)[i]]
  {
    SortedIdsSorts(ids);
    var sorted := SortedIds(ids);
    seq(|sorted|, i requires 0 <= i < |sorted| => entries[sorted[i]])
  }

  function Added(before: seq<Entry>, after: seq<Entry>): seq<Entry> {
    SortedValues(ById(after), ById(after).Keys - ById(before).Keys)
  }

  function CompareSnapshots(before: Snapshot, after: Snapshot): Changes {
    Changes(Added(before.assets, after.assets), Added(after.assets, before.assets),
            Added(before.services, after.services), Added(after.services, before.services))
  }

  // ---------- what the comparison says ----------

  function IdsIn(entries: seq<Entry>): set<string> {
    set e | e in entries && HasId(e) :: e.id.value
  }

  /** The ids of a list are its texts that are there and not empty. */
  lemma IdsAre(entries: seq<Entry>, x: string)
    ensures x in IdsIn(entries) <==> x != "" && exists e :: e in entries && e.id == Some(x)
  {
  }

  /** No entry from position `n` on has the id. */
  ghost predicate NoneWithId(entries: seq<Entry>, n: nat, id: Option<string>) {
    forall j :: n <= j < |entries| ==> !(HasId(entries[j]) && entries[j].id == id)
  }

  /** `e` is the last entry of the list with its id. */
  ghost predicate IsLastWithId(entries: seq<Entry>, e: Entry) {
    && HasId(e)
    && exists k :: 0 <= k < |entries| && entries[k] == e && NoneWithId(entries, k + 1, e.id)
  }

  lemma {:induction false} ByIdKeepsLast(entries: seq<Entry>)
    ensures ById(entries).Keys == IdsIn(entries)
    ensures forall x :: x in ById(entries) ==> ById(entries)[x].id == Some(x) && IsLastWithId(entries, ById(entries)[x])
  {
    if entries != [] {
      var front, last := entries[..|entries| - 1], entries[|entries| - 1];
      ByIdKeepsLast(front);
      assert entries == front + [last];
      forall x | x in ById(entries) ensures ById(entries)[x].id == Some(x) && IsLastWithId(entries, ById(entries)[x]) {
        var e := ById(entries)[x];
        if HasId(last) && last.id == Some(x) {
          assert entries[|entries| - 1] == e;
        } else {
          var k :| 0 <= k < |front| && front[k] == e && NoneWithId(front, k + 1, e.id);
          assert entries[k] == e;
          assert NoneWithId(entries, k + 1, e.id);
        }
      }
      forall x ensures x in ById(entries).Keys <==> x in IdsIn(entries) {
        assert x in IdsIn(front) ==> exists e :: e in front && HasId(e) && e.id.value == x;
      }
    }
  }

  /** The ids of a list, in its order. */
  function IdList(entries: seq<Entry>): (r: seq<string>)
    requires forall i :: 0 <= i < |entries| ==> HasId(entries[i])
    ensures |r| == |entries| && forall i :: 0 <= i < |r| ==> entries[i].id == Some(r[i])
  {
    seq(|entries|, i requires 0 <= i < |entries| && HasId(entries[i]) => entries[i].id.value)
  }

  lemma AddedIds(before: seq<Entry>, after: seq<Entry>)
    ensures var r := Added(before, after);
            && (forall i :: 0 <= i < |r| ==> HasId(r[i]) && IsLastWithId(after, r[i]))
            && IdList(r) == SortedIds(IdsIn(after) - IdsIn(before))
  {
    ByIdKeepsLast(before);
    ByIdKeepsLast(after);
    var r := Added(before, after);
    var ids := ById(after).Keys - ById(before).Keys;
    forall i | 0 <= i < |r| ensures r[i].id == Some(SortedIds(ids)[i]) && IsLastWithId(after, r[i]) {
    }
  }

  /** The new and the removed entries of one list: sorted by id without repetition, disjoint, each the
      last entry with its id; and the ids before, less the removed, plus the new, are the ids after. */
  lemma DiffReconstructsIds(before: seq<Entry>, after: seq<Entry>)
    ensures var added, removed := Added(before, after), Added(after, before);
            && (forall i :: 0 <= i < |added| ==> IsLastWithId(after, added[i]))
            && (forall i :: 0 <= i < |removed| ==> IsLastWithId(before, removed[i]))
            && Sorted(IdList(added)) && Sorted(IdList(removed))
            && IdsIn(added) !! IdsIn(removed)
            && IdsIn(after) == (IdsIn(before) - IdsIn(removed)) + IdsIn(added)
  {
    AddedIds(before, after);
    AddedIds(after, before);
    SortedIdsSorts(IdsIn(after) - IdsIn(before));
    SortedIdsSorts(IdsIn(before) - IdsIn(after));
    ListedIds(Added(before, after), IdsIn(after) - IdsIn(before));
    ListedIds(Added(after, before), IdsIn(before) - IdsIn(after));
  }

  lemma ListedIds(r: seq<Entry>, ids: set<string>)
    requires forall i :: 0 <= i < |r| ==> HasId(r[i])
    requires forall x :: x in IdList(r) <==> x in ids
    ensures IdsIn(r) == ids
  {
    forall x ensures x in IdsIn(r) <==> x in ids {
      if x in ids {
        var i :| 0 <= i < |r| && IdList(r)[i] == x;
        assert r[i] in r;
      }
      if x in IdsIn(r) {
        var e :| e in r && HasId(e) && e.id.value == x;
        var i :| 0 <= i < |r| && r[i] == e;
        assert IdList(r)[i] == x;
      }
    }
  }

  /** Comparing the other way round swaps new and removed, entry for entry. */
  lemma SwapSwaps(before: Snapshot, after: Snapshot)
    ensures var c, d := CompareSnapshots(before, after), CompareSnapshots(after, before);
            && d == Changes(c.removedAssets, c.newAssets, c.removedServices, c.newServices)
  {
  }

  /** Nothing is reported exactly if both snapshots have the same ids. */
  lemma NothingChangedIff(before: Snapshot, after: Snapshot)
    ensures CompareSnapshots(before, after) == Changes([], [], [], []) <==>
              IdsIn(before.assets) == IdsIn(after.assets) && IdsIn(before.services) == IdsIn(after.services)
  {
    EmptyIff(before.assets, after.assets);
    EmptyIff(after.assets, before.assets);
    EmptyIff(before.services, after.services);
    EmptyIff(after.services, before.services);
  }

  lemma EmptyIff(before: seq<Entry>, after: seq<Entry>)
    ensures Added(before, after) == [] <==> IdsIn(after) <= IdsIn(before)
  {
    AddedIds(before, after);
    var r, more := Added(before, after), IdsIn(after) - IdsIn(before);
    SortedIdsSorts(more);
    if r == [] {
      assert IdList(r) == [];
      forall x | x in IdsIn(after) ensures x in IdsIn(before) {
        assert x in more ==> x in SortedIds(more);
      }
    } else {
      assert IdList(r)[0] in SortedIds(more);
    }
  }
}
