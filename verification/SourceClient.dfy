/** The paged provider fetch. */
module SourceClient {
  import opened Text
  import opened Models

  /** One provider call: page number and page size to rows, or an exception. */
  type Search = (nat, int) -> Result<seq<Row>>

  /** Python's `rows[:n]`. */
  function Take<T>(rows: seq<T>, n: int): seq<T> {
    if n >= 0 then rows[..Min(n, |rows|)] else rows[..if |rows| + n < 0 then 0 else |rows| + n]
  }

  /** The loop from page `page` on, with `rows` collected so far; also counts provider calls. */
  function FetchFrom(search: Search, plan: Plan, page: nat, rows: seq<Row>): (r: (Result<seq<Row>>, nat))
    decreases plan.pageLimit + 1 - page
  {
    if page > plan.pageLimit then (Ok(Take(rows, plan.resultLimit)), 0)
    else match search(page, Min(plan.resultLimit, 100))
      case Raised(e) => (Raised(e), 1)
      case Ok(more) =>
        if more == [] then (Ok(Take(rows, plan.resultLimit)), 1)
        else if |rows + more| >= plan.resultLimit then (Ok(Take(rows + more, plan.resultLimit)), 1)
        else
          var rest := FetchFrom(search, plan, page + 1, rows + more);
          (rest.0, 1 + rest.1)
  }

  method Fetch(search: Search, plan: Plan) returns (r: Result<seq<Row>>, calls: nat)
    ensures (r, calls) == FetchFrom(search, plan, 1, [])
  {
    var rows: seq<Row> := [];
    var page := 1;
    calls := 0;
    while page <= plan.pageLimit
      invariant page >= 1
      invariant var rest := FetchFrom(search, plan, page, rows);
                FetchFrom(search, plan, 1, []) == (rest.0, calls + rest.1)
      decreases plan.pageLimit + 1 - page
    {
      var pageRows := search(page, Min(plan.resultLimit, 100));
      calls := calls + 1;
      if pageRows.Raised? {
        return Raised(pageRows.message), calls;
      }
      if pageRows.value == [] {
        return Ok(Take(rows, plan.resultLimit)), calls;
      }
      rows := rows + pageRows.value;
      if |rows| >= plan.resultLimit {
        return Ok(Take(rows, plan.resultLimit)), calls;
      }
      page := page + 1;
    }
    return Ok(Take(rows, plan.resultLimit)), calls;
  }

  // ---------- any provider ----------

  /** The rows of pages 1 to `n`, which were all answered. */
  function Pages(search: Search, size: int, n: nat): seq<Row> {
    if n == 0 then []
    else Pages(search, size, n - 1) + (match search(n, size) case Ok(rows) => rows case Raised(_) => [])
  }

  /** Page `n` is asked for, and after it the next: it brought rows, and they are not enough yet. */
  predicate GoesOn(search: Search, plan: Plan, size: int, n: nat) {
    search(n, size).Ok? && search(n, size).value != [] && |Pages(search, size, n)| < plan.resultLimit
  }

  /** What a fetch comes to with any provider. After `n` calls, all but the last of which brought rows that
      were not enough: the error of the last call if it failed, otherwise all rows up to the limit, and then
      the last page was empty, or the rows are enough, or the pages are used up. */
  ghost predicate FetchedAs(search: Search, plan: Plan, r: Result<seq<Row>>, n: nat) {
    var size := Min(plan.resultLimit, 100);
    && n <= plan.pageLimit && (forall m :: 1 <= m < n ==> GoesOn(search, plan, size, m))
    && if n > 0 && search(n, size).Raised? then r == Raised(search(n, size).message)
       else && r == Ok(Take(Pages(search, size, n), plan.resultLimit))
            && (n == plan.pageLimit || (n > 0 && !GoesOn(search, plan, size, n)))
  }

  lemma {:induction false} FetchFromSays(search: Search, plan: Plan, page: nat)
    requires 1 <= page <= plan.pageLimit + 1
    requires forall m :: 1 <= m < page ==> GoesOn(search, plan, Min(plan.resultLimit, 100), m)
    ensures var (r, calls) := FetchFrom(search, plan, page, Pages(search, Min(plan.resultLimit, 100), page - 1));
            FetchedAs(search, plan, r, page - 1 + calls)
    decreases plan.pageLimit + 1 - page
  {
    var size := Min(plan.resultLimit, 100);
    if page <= plan.pageLimit {
      assert Pages(search, size, page) == Pages(search, size, page - 1) +
             (match search(page, size) case Ok(rows) => rows case Raised(_) => []);
      if GoesOn(search, plan, size, page) {
        FetchFromSays(search, plan, page + 1);
      } else if search(page, size).Ok? && search(page, size).value == [] {
        assert Pages(search, size, page) == Pages(search, size, page - 1);
      }
    } else {
      assert page > 1 ==> GoesOn(search, plan, size, page - 1);
    }
  }

  lemma FetchSays(search: Search, plan: Plan)
    requires plan.pageLimit >= 0
    ensures var (r, calls) := FetchFrom(search, plan, 1, []); FetchedAs(search, plan, r, calls)
  {
    FetchFromSays(search, plan, 1);
  }

  // ---------- a provider that slices one list into pages ----------

  function Upto(n: int, length: nat): nat {
    if n < 0 then 0 else if n < length then n else length
  }

  /** The number of rows on `pages` full pages. */
  function RowsOn(pages: nat, size: nat): nat {
    if pages == 0 then 0 else RowsOn(pages - 1, size) + size
  }

  lemma {:induction false} RowsOnIsProduct(pages: nat, size: nat)
    ensures RowsOn(pages, size) == pages * size
  {
    if pages > 0 {
      RowsOnIsProduct(pages - 1, size);
    }
  }

  lemma {:induction false} MorePagesMoreRows(p: nat, q: nat, size: nat)
    requires p <= q
    ensures RowsOn(p, size) <= RowsOn(q, size)
    decreases q
  {
    if p < q {
      MorePagesMoreRows(p, q - 1, size);
    }
  }

  function PageOf(list: seq<Row>, page: nat, size: nat): seq<Row>
    requires page >= 1
  {
    list[Upto(RowsOn(page - 1, size), |list|)..Upto(RowsOn(page, size), |list|)]
  }

  ghost predicate Slices(search: Search, list: seq<Row>) {
    forall page: nat, size: nat :: page >= 1 ==> search(page, size) == Ok(PageOf(list, page, size))
  }

  /** No call is wasted: before the last one the rows had not reached the wanted number, and the
      call before it had not run past the end of the list. */
  predicate NoWastedCall(calls: nat, size: nat, wanted: int, length: nat) {
    calls >= 2 ==> Upto(RowsOn(calls - 1, size), length) < wanted && RowsOn(calls - 2, size) < length
  }

  /** Fetching from a slicing provider returns a prefix of its list, in at most `page_limit` calls. */
  lemma FetchIsPrefix(search: Search, plan: Plan, list: seq<Row>)
    requires Slices(search, list) && plan.resultLimit >= 1 && plan.pageLimit >= 0
    ensures var s := Min(plan.resultLimit, 100);
            var r := FetchFrom(search, plan, 1, []);
            && r.0 == Ok(list[..Upto(Min(plan.resultLimit, plan.pageLimit * s), |list|)])
            && r.1 <= plan.pageLimit
            && NoWastedCall(r.1, s, plan.resultLimit, |list|)
  {
    var s := Min(plan.resultLimit, 100);
    FetchCounts(search, plan, list, s, 1, 0);
    CountsArePrefix(plan.pageLimit, plan.resultLimit, |list|, s, 1, 0);
    CallsAreNeeded(plan.pageLimit, plan.resultLimit, |list|, s, 1, 0);
    RowsOnIsProduct(plan.pageLimit, s);
    assert list[..0] == [];
  }

  /** The same loop on numbers only: rows returned and provider calls made. */
  function Counts(pageLimit: int, wanted: nat, length: nat, s: nat, page: nat, have: nat): (r: (nat, nat))
    requires have <= length && have < wanted
    ensures r.0 <= length
    decreases pageLimit + 1 - page
  {
    if page > pageLimit then (have, 0)
    else
      var to := Upto(RowsOn(page, s), length);
      if to <= have then (have, 1)
      else if to >= wanted then (wanted, 1)
      else
        var rest := Counts(pageLimit, wanted, length, s, page + 1, to);
        (rest.0, 1 + rest.1)
  }

  lemma {:induction false} FetchCounts(search: Search, plan: Plan, list: seq<Row>, s: nat, page: nat, have: nat)
    requires Slices(search, list) && s == Min(plan.resultLimit, 100) >= 1
    requires page >= 1 && have == Upto(RowsOn(page - 1, s), |list|) < plan.resultLimit
    ensures var n := Counts(plan.pageLimit, plan.resultLimit, |list|, s, page, have);
            FetchFrom(search, plan, page, list[..have]) == (Ok(list[..n.0]), n.1)
    decreases plan.pageLimit + 1 - page
  {
    var rows, to := list[..have], Upto(RowsOn(page, s), |list|);
    if page > plan.pageLimit {
      assert Take(rows, plan.resultLimit) == rows;
    } else {
      assert RowsOn(page, s) == RowsOn(page - 1, s) + s;
      assert search(page, s) == Ok(PageOf(list, page, s)) == Ok(list[have..to]);
      if to == have {
        assert Take(rows, plan.resultLimit) == rows;
      } else {
        assert rows + list[have..to] == list[..to];
        if to >= plan.resultLimit {
          assert Take(list[..to], plan.resultLimit) == list[..plan.resultLimit];
        } else {
          FetchCounts(search, plan, list, s, page + 1, to);
        }
      }
    }
  }

  lemma {:induction false} CountsArePrefix(pageLimit: nat, wanted: nat, length: nat, s: nat, page: nat, have: nat)
    requires s >= 1 && 1 <= page <= pageLimit + 1
    requires have == Upto(RowsOn(page - 1, s), length) < wanted
    ensures Counts(pageLimit, wanted, length, s, page, have).0 == Upto(Min(wanted, RowsOn(pageLimit, s)), length)
    decreases pageLimit + 1 - page
  {
    if page <= pageLimit {
      var to := Upto(RowsOn(page, s), length);
      assert RowsOn(page, s) == RowsOn(page - 1, s) + s;
      MorePagesMoreRows(page, pageLimit, s);
      if have < to < wanted {
        CountsArePrefix(pageLimit, wanted, length, s, page + 1, to);
      }
    }
  }

  lemma {:induction false} CallsAreNeeded(pageLimit: nat, wanted: nat, length: nat, s: nat, page: nat, have: nat)
    requires s >= 1 && 1 <= page <= pageLimit + 1
    requires have == Upto(RowsOn(page - 1, s), length) < wanted
    requires page >= 2 ==> RowsOn(page - 2, s) < length
    ensures var calls := page - 1 + Counts(pageLimit, wanted, length, s, page, have).1;
            calls <= pageLimit && NoWastedCall(calls, s, wanted, length)
    decreases pageLimit + 1 - page
  {
    if page <= pageLimit {
      var to := Upto(RowsOn(page, s), length);
      assert RowsOn(page, s) == RowsOn(page - 1, s) + s;
      if have < to < wanted {
        CallsAreNeeded(pageLimit, wanted, length, s, page + 1, to);
      }
    }
  }
}
