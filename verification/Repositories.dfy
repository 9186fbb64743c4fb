/** Paginated result stores: one JSON file per task, or one table row per item. */
module Repositories {
  import opened Text
  import opened Items

  datatype ResultType = Assets | Services | SourceEvidence | OtherType(name: string)

  /** The three lists saved for a task; an item is its JSON text. */
  datatype Saved = Saved(assets: seq<string>, services: seq<string>, evidence: seq<string>)

  datatype Page = Page(items: seq<string>, nextCursor: Option<string>, limit: nat)

  function ItemsOf(s: Saved, t: ResultType): seq<string> {
    match t
    case Assets => s.assets
    case Services => s.services
    case SourceEvidence => s.evidence
    case OtherType(_) => []
  }

  // ---------- cursors ----------

  /** The number that digits spell, with single underscores between them. */
  function Spelled(s: string): Option<nat> {
    if s == "" || !IsDigit(s[|s| - 1]) then None
    else
      var front, digit := s[..|s| - 1], s[|s| - 1] as int - 48;
      if front == "" then Some(digit)
      else match Spelled(if front[|front| - 1] == '_' then front[..|front| - 1] else front)
        case None => None
        case Some(n) => Some(n * 10 + digit)
  }

  /** Python's `int(text)` on ASCII digits: spaces around, a sign, single underscores inside. */
  function ParseInt(text: string): Option<int> {
    var s := Strip(text);
    var signed := s != "" && (s[0] == '-' || s[0] == '+');
    match Spelled(if signed then s[1..] else s)
    case None => None
    case Some(n) =>
      var value: int := n;
      Some(if signed && s[0] == '-' then -value else value)
  }

  function ParseCursor(cursor: Option<string>): Result<nat> {
    if cursor.None? || cursor.value == "" then Ok(0)
    else match ParseInt(cursor.value)
      case None => Raised("Invalid cursor")
      case Some(n) => if n < 0 then Raised("Invalid cursor") else Ok(n)
  }

  lemma DigitsAreTrimmed(s: string)
    requires s != "" && AllDigits(s)
    ensures Strip(s) == s
  {
    assert StripLeft(s) == s && StripRight(s) == s;
  }

  lemma {:induction false} DigitsSpell(s: string)
    requires s != "" && AllDigits(s)
    ensures Spelled(s) == Some(ValueOf(s))
  {
    var front := s[..|s| - 1];
    assert IsDigit(s[|s| - 1]);
    if front == "" {
      assert ValueOf(front) == 0;
    } else {
      assert IsDigit(s[|s| - 2]);
      DigitsSpell(front);
    }
  }

  lemma DigitsParse(s: string)
    requires s != "" && AllDigits(s)
    ensures ParseInt(s) == Some(ValueOf(s))
  {
    assert IsDigit(s[0]);
    DigitsAreTrimmed(s);
    DigitsSpell(s);
  }

  /** A printed cursor parses back to the number it stands for. */
  lemma CursorRoundTrip(n: nat)
    ensures ParseCursor(Some(Digits(n))) == Ok(n)
  {
    DigitsParse(Digits(n));
    ValueOfDigits(n);
  }

  // ---------- one page ----------

  function EffectiveLimit(limit: int, maxPageLimit: int): nat {
    if Min(limit, maxPageLimit) < 1 then 1 else Min(limit, maxPageLimit)
  }

  /** The page size is the limit, brought down to the maximum and up to one. */
  lemma PageSizeIs(limit: int, maxPageLimit: int)
    ensures var size := EffectiveLimit(limit, maxPageLimit);
            && (1 <= limit <= maxPageLimit ==> size == limit)
            && (limit > maxPageLimit >= 1 ==> size == maxPageLimit)
            && (limit < 1 || maxPageLimit < 1 ==> size == 1)
  {
  }

  /** Python's `items[start:end]` for non-negative bounds. */
  function Slice(items: seq<string>, start: nat, end: nat): seq<string>
    requires start <= end
  {
    items[Min(start, |items|)..Min(end, |items|)]
  }

  /** A slice of the list, and a cursor while items are left. */
  function PageAt(items: seq<string>, start: nat, size: nat): Page {
    Page(Slice(items, start, start + size), if start + size < |items| then Some(Digits(start + size)) else None, size)
  }

  /** The file store: slice the list, continue while items are left. */
  function FilePage(items: seq<string>, cursor: Option<string>, limit: int, maxPageLimit: int): Result<Page> {
    match ParseCursor(cursor)
    case Raised(e) => Raised(e)
    case Ok(start) => Ok(PageAt(items, start, EffectiveLimit(limit, maxPageLimit)))
  }

  /** The table store: ask for one row more than the page shows, and look whether it came. */
  function TablePage(items: seq<string>, cursor: Option<string>, limit: int, maxPageLimit: int): Result<Page> {
    match ParseCursor(cursor)
    case Raised(e) => Raised(e)
    case Ok(start) =>
      var size := EffectiveLimit(limit, maxPageLimit);
      var rows := Slice(items, start, start + size + 1);
      Ok(Page(rows[..Min(size, |rows|)],
              if |rows| > size then Some(Digits(start + size)) else None,
              size))
  }

  lemma SliceShorter(items: seq<string>, start: nat, size: nat)
    ensures var rows := Slice(items, start, start + size + 1);
            && rows[..Min(size, |rows|)] == Slice(items, start, start + size)
            && (|rows| > size <==> start + size < |items|)
  {
  }

  /** Both stores show the same page at every cursor, valid or not, inside the list or past it. */
  lemma SamePage(items: seq<string>, cursor: Option<string>, limit: int, maxPageLimit: int)
    ensures FilePage(items, cursor, limit, maxPageLimit) == TablePage(items, cursor, limit, maxPageLimit)
  {
    match ParseCursor(cursor)
    case Raised(_) =>
    case Ok(start) =>
      SliceShorter(items, start, EffectiveLimit(limit, maxPageLimit));
  }

  /** A page at a number of the list, of which `size` is shown at most: the items from there on, and a cursor
      exactly if some are left, which is the number of the first of these. */
  lemma PageShows(items: seq<string>, n: nat, limit: int, maxPageLimit: int)
    ensures var size := EffectiveLimit(limit, maxPageLimit);
            FilePage(items, Some(Digits(n)), limit, maxPageLimit) == Ok(
              if n >= |items| then Page([], None, size)
              else if n + size >= |items| then Page(items[n..], None, size)
              else Page(items[n..n + size], Some(Digits(n + size)), size))
  {
    var size := EffectiveLimit(limit, maxPageLimit);
    CursorRoundTrip(n);
    SliceEnds(items, n, size);
    assert n >= |items| ==> items[Min(n, |items|)..] == [];
  }

  lemma {:induction false} SpelledDigits(s: string)
    requires Spelled(s).Some?
    ensures s != "" && forall i :: 0 <= i < |s| ==> IsDigit(s[i]) || s[i] == '_'
  {
    var front := s[..|s| - 1];
    if front != "" {
      SpelledDigits(if front[|front| - 1] == '_' then front[..|front| - 1] else front);
    }
  }

  /** No cursor, or an empty one, stands for the beginning; a negative number is refused, and so is a text
      with anything but digits, underscores, a sign in front and spaces around. */
  lemma CursorIs(cursor: string, n: nat)
    ensures ParseCursor(None) == Ok(0) == ParseCursor(Some(""))
    ensures n > 0 ==> ParseCursor(Some("-" + Digits(n))).Raised?
    ensures ParseCursor(Some(cursor)).Ok? && cursor != "" ==>
              forall i :: 1 <= i < |Strip(cursor)| ==> IsDigit(Strip(cursor)[i]) || Strip(cursor)[i] == '_'
  {
    var text := "-" + Digits(n);
    assert StripLeft(text) == text && StripRight(text) == text;
    assert text[1..] == Digits(n);
    DigitsSpell(Digits(n));
    ValueOfDigits(n);
    if ParseCursor(Some(cursor)).Ok? && cursor != "" {
      var s := Strip(cursor);
      SpelledDigits(if s != "" && (s[0] == '-' || s[0] == '+') then s[1..] else s);
    }
  }

  // ---------- walking the pages ----------

  /** A next cursor stands for the end of its page, which lies inside the list. */
  lemma NextCursorAdvances(items: seq<string>, start: nat, size: nat)
    ensures var page := PageAt(items, start, size);
            && (page.nextCursor.Some? ==> start + size < |items| && ParseCursor(page.nextCursor) == Ok(start + size)
                                          && page.items == items[start..start + size])
            && (page.nextCursor.None? ==> page.items == items[Min(start, |items|)..])
  {
    SliceEnds(items, start, size);
    if PageAt(items, start, size).nextCursor.Some? {
      CursorRoundTrip(start + size);
    }
  }

  lemma SliceEnds(items: seq<string>, start: nat, size: nat)
    ensures Slice(items, start, start + size) ==
              if start + size < |items| then items[start..start + size] else items[Min(start, |items|)..]
  {
  }

  /** The page at `start`, then the page its next cursor parses to, and so on, concatenated. */
  function WalkAt(items: seq<string>, start: nat, size: nat): seq<string>
    requires size >= 1
    decreases |items| - start
  {
    NextCursorAdvances(items, start, size);
    var page := PageAt(items, start, size);
    if page.nextCursor.None? then page.items else page.items + WalkAt(items, ParseCursor(page.nextCursor).value, size)
  }

  /** Follow `next_cursor` from `cursor` to the end: the pages a client sees, concatenated. */
  function Walk(items: seq<string>, cursor: Option<string>, limit: int, maxPageLimit: int): Result<seq<string>> {
    match ParseCursor(cursor)
    case Raised(e) => Raised(e)
    case Ok(start) => Ok(WalkAt(items, start, EffectiveLimit(limit, maxPageLimit)))
  }

  lemma WalkUnfolds(items: seq<string>, start: nat, size: nat)
    requires size >= 1
    ensures start + size < |items| ==>
        WalkAt(items, start, size) == items[start..start + size] + WalkAt(items, start + size, size)
    ensures start + size >= |items| ==> WalkAt(items, start, size) == items[Min(start, |items|)..]
  {
    NextCursorAdvances(items, start, size);
  }

  lemma {:induction false} WalkFrom(items: seq<string>, start: nat, size: nat)
    requires size >= 1
    ensures WalkAt(items, start, size) == items[Min(start, |items|)..]
    decreases |items| - start
  {
    WalkUnfolds(items, start, size);
    if start + size < |items| {
      WalkFrom(items, start + size, size);
      Rejoin(items, start, start + size);
    }
  }

  lemma Rejoin(items: seq<string>, start: nat, end: nat)
    requires start <= end <= |items|
    ensures items[start..end] + items[end..] == items[start..]
  {
  }

  /** Walking from any valid cursor shows exactly the saved list from there on, whatever the limits, in
      either store; from no cursor, the whole list. */
  lemma WalkShowsEverything(items: seq<string>, cursor: Option<string>, limit: int, maxPageLimit: int)
    ensures Walk(items, None, limit, maxPageLimit) == Ok(items)
    ensures ParseCursor(cursor).Ok? ==>
              && Walk(items, cursor, limit, maxPageLimit) == Ok(items[Min(ParseCursor(cursor).value, |items|)..])
              && FilePage(items, cursor, limit, maxPageLimit) == TablePage(items, cursor, limit, maxPageLimit)
  {
    var size := EffectiveLimit(limit, maxPageLimit);
    WalkFrom(items, 0, size);
    SamePage(items, cursor, limit, maxPageLimit);
    if ParseCursor(cursor).Ok? {
      WalkFrom(items, ParseCursor(cursor).value, size);
    }
  }

  // ---------- the stores ----------

  class FileResultRepository {
    var files: map<Item, Saved>
    const maxPageLimit: int

    constructor (maxPageLimit: int)
      ensures files == map[] && this.maxPageLimit == maxPageLimit
    {
      files := map[];
      this.maxPageLimit := maxPageLimit;
    }

    method SaveResults(key: Item, payload: Saved)
      modifies this
      ensures files == old(files)[key := payload]
    {
      files := files[key := payload];
    }

    method LoadResults(key: Item, cursor: Option<string>, limit: int, t: ResultType) returns (r: Result<Page>)
      ensures key !in files ==> r == Raised("No such file")
      ensures key in files && t.OtherType? ==> r == Raised("Unsupported result_type")
      ensures key in files && !t.OtherType? ==> r == FilePage(ItemsOf(files[key], t), cursor, limit, maxPageLimit)
    {
      if key !in files {
        return Raised("No such file");
      }
      if t.OtherType? {
        return Raised("Unsupported result_type");
      }
      var parsed := ParseCursor(cursor);
      if parsed.Raised? {
        return Raised(parsed.message);
      }
      var start, items := parsed.value, ItemsOf(files[key], t);
      var size := EffectiveLimit(limit, maxPageLimit);
      var end := start + size;
      r := Ok(Page(Slice(items, start, end), if end < |items| then Some(Digits(end)) else None, size));
    }
  }

  datatype RowKey = RowKey(task: Item, resultType: ResultType, position: nat)

  class SqliteResultRepository {
    var rows: map<RowKey, string>
    const maxPageLimit: int
    /** What was last saved for each task. */
    ghost var saved: map<Item, Saved>

    /** Each saved list sits in the table at positions 0, 1, ... and nothing else is there. */
    ghost predicate Valid()
      reads this
    {
      Holds(rows, saved)
    }

    static ghost predicate Holds(rows: map<RowKey, string>, saved: map<Item, Saved>) {
      && (forall k :: k in rows <==> k.task in saved && k.position < |ItemsOf(saved[k.task], k.resultType)|)
      && (forall k :: k in rows ==> rows[k] == ItemsOf(saved[k.task], k.resultType)[k.position])
    }

    constructor (maxPageLimit: int)
      ensures Valid() && saved == map[] && this.maxPageLimit == maxPageLimit
    {
      rows, saved := map[], map[];
      this.maxPageLimit := maxPageLimit;
    }

    /** `delete` of the task's rows, then one insert per item, one result type after the other. */
    method SaveResults(key: Item, payload: Saved)
      requires Valid()
      modifies this
      ensures forall i :: 0 <= i < |payload.assets| ==>
                RowKey(key, Assets, i) in rows && rows[RowKey(key, Assets, i)] == payload.assets[i]
      ensures forall i :: 0 <= i < |payload.services| ==>
                RowKey(key, Services, i) in rows && rows[RowKey(key, Services, i)] == payload.services[i]
      ensures forall i :: 0 <= i < |payload.evidence| ==>
                RowKey(key, SourceEvidence, i) in rows && rows[RowKey(key, SourceEvidence, i)] == payload.evidence[i]
      ensures Valid() && saved == old(saved)[key := payload]
    {
      DeleteRows(key);
      InsertItems(key, Assets, payload.assets);
      InsertItems(key, Services, payload.services);
      InsertItems(key, SourceEvidence, payload.evidence);
      assert saved[key] == payload;
    }

    method DeleteRows(key: Item)
      requires Valid()
      modifies this
      ensures Valid() && saved == old(saved)[key := Saved([], [], [])]
    {
      rows := map k | k in rows && k.task != key :: rows[k];
      saved := saved[key := Saved([], [], [])];
    }

    static function With(s: Saved, t: ResultType, items: seq<string>): Saved {
      match t
      case Assets => s.(assets := items)
      case Services => s.(services := items)
      case SourceEvidence => s.(evidence := items)
      case OtherType(_) => s
    }

    static lemma InsertOne(rows: map<RowKey, string>, saved: map<Item, Saved>, key: Item, t: ResultType, item: string)
      requires Holds(rows, saved) && key in saved && !t.OtherType?
      ensures var items := ItemsOf(saved[key], t);
              Holds(rows[RowKey(key, t, |items|) := item], saved[key := With(saved[key], t, items + [item])])
    {
      var items := ItemsOf(saved[key], t);
      var k, saved' := RowKey(key, t, |items|), saved[key := With(saved[key], t, items + [item])];
      assert ItemsOf(saved'[key], t) == items + [item];
      assert forall u :: u != t ==> ItemsOf(saved'[key], u) == ItemsOf(saved[key], u);
      assert forall j: RowKey :: j.task != key ==> (j.task in saved' <==> j.task in saved);
    }

    method InsertRow(key: Item, t: ResultType, position: nat, item: string)
      requires Valid() && key in saved && !t.OtherType? && position == |ItemsOf(saved[key], t)|
      modifies this
      ensures Valid()
      ensures saved == old(saved)[key := With(old(saved)[key], t, ItemsOf(old(saved)[key], t) + [item])]
    {
      InsertOne(rows, saved, key, t, item);
      rows := rows[RowKey(key, t, position) := item];
      saved := saved[key := With(saved[key], t, ItemsOf(saved[key], t) + [item])];
    }

    method InsertItems(key: Item, t: ResultType, items: seq<string>)
      requires Valid() && key in saved && !t.OtherType? && ItemsOf(saved[key], t) == []
      modifies this
      ensures Valid() && saved == old(saved)[key := With(old(saved)[key], t, items)]
    {
      for position := 0 to |items|
        invariant Valid() && saved == old(saved)[key := With(old(saved)[key], t, items[..position])]
      {
        InsertRow(key, t, position, items[position]);
        assert items[..position + 1] == items[..position] + [items[position]];
      }
      assert items[..|items|] == items;
    }

    /** `order by position limit n offset start` */
    method Select(key: Item, t: ResultType, start: nat, n: nat) returns (found: seq<string>)
      requires Valid() && !t.OtherType?
      ensures found == Slice(if key in saved then ItemsOf(saved[key], t) else [], start, start + n)
    {
      ghost var items := if key in saved then ItemsOf(saved[key], t) else [];
      found := [];
      while |found| < n && RowKey(key, t, start + |found|) in rows
        invariant |found| <= n
        invariant found == Slice(items, start, start + |found|)
        decreases n - |found|
      {
        found := found + [rows[RowKey(key, t, start + |found|)]];
      }
    }

    method LoadResults(key: Item, cursor: Option<string>, limit: int, t: ResultType) returns (r: Result<Page>)
      requires Valid()
      ensures t.OtherType? ==> r == Raised("Unsupported result_type")
      ensures !t.OtherType? ==>
                r == TablePage(if key in saved then ItemsOf(saved[key], t) else [], cursor, limit, maxPageLimit)
    {
      if t.OtherType? {
        return Raised("Unsupported result_type");
      }
      var parsed := ParseCursor(cursor);
      if parsed.Raised? {
        return Raised(parsed.message);
      }
      var start, size := parsed.value, EffectiveLimit(limit, maxPageLimit);
      var found := Select(key, t, start, size + 1);
      r := Ok(Page(found[..Min(size, |found|)], if |found| > size then Some(Digits(start + size)) else None, size));
    }
  }
}
