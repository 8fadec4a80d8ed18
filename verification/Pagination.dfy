/** Cursor pagination over classification runs (src/app/classifications/listing.rs). The table is the ordered view by
    id. */
module Pagination {
  import opened Wrappers
  import opened Sequences
  import opened Text

  datatype RunRow = RunRow(id: int, tenant: nat, status: string)

  datatype ListQuery = ListQuery(limit: Option<int>, status: Option<string>, cursor: Option<int>)

  datatype Page = Page(items: seq<RunRow>, nextCursor: Option<int>)

  predicate IsTable(rows: seq<RunRow>) {
    forall i, j | 0 <= i < j < |rows| :: rows[i].id < rows[j].id
  }

  /** `limit.unwrap_or(50).clamp(1, 200)` */
  function PageLimit(limit: Option<int>): (r: nat)
    ensures 1 <= r <= 200
    ensures limit.Some? && 1 <= limit.value <= 200 ==> r == limit.value
    ensures limit.Some? && limit.value > 200 ==> r == 200
    ensures limit.None? ==> r == 50
  {
    var wanted := limit.Or(50);
    if wanted < 1 then 1 else if wanted > 200 then 200 else wanted
  }

  /** The `WHERE` clause without the cursor. */
  predicate Matches(row: RunRow, tenant: nat, status: Option<string>) {
    row.tenant == tenant && (Trim(status.Or("")) == "" || row.status == Trim(status.value))
  }

  predicate IsAfter(row: RunRow, cursor: Option<int>) {
    cursor.None? || row.id > cursor.value
  }

  function Selected(table: seq<RunRow>, tenant: nat, status: Option<string>, cursor: Option<int>): seq<RunRow> {
    Filter((row: RunRow) => Matches(row, tenant, status) && IsAfter(row, cursor), table)
  }

  function Take<T>(s: seq<T>, n: nat): (r: seq<T>)
    ensures r <= s
  {
    if n < |s| then s[..n] else s
  }

  /** `handle`: one row more than the limit is fetched to see whether there are more. */
  function ListPage(table: seq<RunRow>, tenant: nat, query: ListQuery): Page {
    var limit := PageLimit(query.limit);
    var rows := Take(Selected(table, tenant, query.status, query.cursor), limit + 1);
    var items := Take(rows, limit);
    Page(items, if |rows| > limit then Some(items[|items| - 1].id) else None)
  }

  // ---- Order ----

  lemma {:induction false} FilteredTable(keep: RunRow -> bool, table: seq<RunRow>)
    requires IsTable(table)
    ensures IsTable(Filter(keep, table))
  {
    if table != [] {
      FilteredTable(keep, table[1..]);
      var rest := Filter(keep, table[1..]);
      forall j | 0 <= j < |rest| ensures table[0].id < rest[j].id {
        FilterKeeps(keep, table[1..], rest[j]);
      }
    }
  }

  /** What is selected after the last item of a page is what was left of the selection. */
  lemma SelectedAfter(table: seq<RunRow>, tenant: nat, status: Option<string>, cursor: Option<int>, n: nat)
    requires IsTable(table) && 0 < n <= |Selected(table, tenant, status, cursor)|
    ensures var all := Selected(table, tenant, status, cursor);
            Selected(table, tenant, status, Some(all[n - 1].id)) == all[n..]
  {
    hide Matches;
    var all := Selected(table, tenant, status, cursor);
    var last := Some(all[n - 1].id);
    FilterKeeps((row: RunRow) => Matches(row, tenant, status) && IsAfter(row, cursor), table, all[n - 1]);
    FilteredTable((row: RunRow) => Matches(row, tenant, status) && IsAfter(row, cursor), table);
    SelectedTwice(table, tenant, status, cursor, last);
    SplitAt(all, n);
  }

  lemma {:induction false} SelectedTwice(table: seq<RunRow>, tenant: nat, status: Option<string>, cursor: Option<int>,
                                         later: Option<int>)
    requires later.Some? && (cursor.None? || cursor.value <= later.value)
    ensures Selected(table, tenant, status, later) ==
            Filter((row: RunRow) => IsAfter(row, later), Selected(table, tenant, status, cursor))
  {
    if table != [] {
      hide Matches;
      SelectedTwice(table[1..], tenant, status, cursor, later);
      var rest := Selected(table[1..], tenant, status, cursor);
      if Matches(table[0], tenant, status) && IsAfter(table[0], cursor) {
        assert Selected(table, tenant, status, cursor) == [table[0]] + rest;
        assert ([table[0]] + rest)[1..] == rest;
      }
    }
  }

  lemma {:induction false} SplitAt(rows: seq<RunRow>, n: nat)
    requires IsTable(rows) && 0 < n <= |rows|
    ensures Filter((row: RunRow) => IsAfter(row, Some(rows[n - 1].id)), rows) == rows[n..]
  {
    var after := (row: RunRow) => IsAfter(row, Some(rows[n - 1].id));
    assert rows == rows[..n] + rows[n..];
    FilterAppend(after, rows[..n], rows[n..]);
    NoneKept(after, rows[..n]);
    AllKept(after, rows[n..]);
  }

  lemma {:induction false} NoneKept(keep: RunRow -> bool, rows: seq<RunRow>)
    requires forall i | 0 <= i < |rows| :: !keep(rows[i])
    ensures Filter(keep, rows) == []
  {
    if rows != [] {
      NoneKept(keep, rows[1..]);
    }
  }

  lemma {:induction false} AllKept(keep: RunRow -> bool, rows: seq<RunRow>)
    requires forall i | 0 <= i < |rows| :: keep(rows[i])
    ensures Filter(keep, rows) == rows
  {
    if rows != [] {
      AllKept(keep, rows[1..]);
    }
  }

  // ---- Walking a table that does not change ----

  /** All pages from the cursor on, one after another. */
  function Walk(table: seq<RunRow>, tenant: nat, query: ListQuery): seq<RunRow>
    requires IsTable(table)
    decreases |Selected(table, tenant, query.status, query.cursor)|
  {
    var page := ListPage(table, tenant, query);
    if page.nextCursor.None? then page.items
    else
      assert |Selected(table, tenant, query.status, page.nextCursor)| < |Selected(table, tenant, query.status,
        query.cursor)| by {
        NextPageIsShorter(table, tenant, query);
      }
      page.items + Walk(table, tenant, query.(cursor := page.nextCursor))
  }

  lemma NextPageIsShorter(table: seq<RunRow>, tenant: nat, query: ListQuery)
    requires IsTable(table) && ListPage(table, tenant, query).nextCursor.Some?
    ensures var page := ListPage(table, tenant, query);
            var all := Selected(table, tenant, query.status, query.cursor);
            && page.items == all[..|page.items|] && 0 < |page.items| < |all|
            && Selected(table, tenant, query.status, page.nextCursor) == all[|page.items|..]
  {
    hide Selected;
    SelectedAfter(table, tenant, query.status, query.cursor, PageLimit(query.limit));
  }

  /** For any page limit the walk returns the filtered rows in id order, each once. */
  lemma {:induction false} WalkIsExact(table: seq<RunRow>, tenant: nat, query: ListQuery)
    requires IsTable(table)
    ensures Walk(table, tenant, query) == Selected(table, tenant, query.status, query.cursor)
    ensures IsTable(Walk(table, tenant, query))
    decreases |Selected(table, tenant, query.status, query.cursor)|
  {
    hide Selected, IsTable;
    SelectedIsTable(table, tenant, query.status, query.cursor);
    var page := ListPage(table, tenant, query);
    if page.nextCursor.Some? {
      NextPageIsShorter(table, tenant, query);
      WalkIsExact(table, tenant, query.(cursor := page.nextCursor));
    }
  }

  /** Exactly the rows the walk returns: those of the tenant after the cursor, and with the wanted status when one is
      given that is not blank. */
  lemma WalkReturns(table: seq<RunRow>, tenant: nat, query: ListQuery, row: RunRow)
    requires IsTable(table)
    ensures row in Walk(table, tenant, query) <==>
            && row in table && row.tenant == tenant && (query.cursor.Some? ==> row.id > query.cursor.value)
            && (query.status.Some? && Trim(query.status.value) != "" ==> row.status == Trim(query.status.value))
  {
    hide Walk, Trim;
    WalkIsExact(table, tenant, query);
    FilterKeeps((r: RunRow) => Matches(r, tenant, query.status) && IsAfter(r, query.cursor), table, row);
    assert Trim("") == "" by { TrimNothing(); }
  }

  lemma TrimNothing()
    ensures Trim("") == ""
  {
  }

  lemma SelectedIsTable(table: seq<RunRow>, tenant: nat, status: Option<string>, cursor: Option<int>)
    requires IsTable(table)
    ensures IsTable(Selected(table, tenant, status, cursor))
  {
    hide Matches, IsTable;
    FilteredTable((row: RunRow) => Matches(row, tenant, status) && IsAfter(row, cursor), table);
  }

  // ---- Walking tables that change between pages ----

  datatype Walked = Walked(rows: seq<RunRow>, pages: nat, finished: bool)

  /** The n-th page is read from the n-th table; the walk may stop before its last page. */
  function WalkChanging(tables: seq<seq<RunRow>>, tenant: nat, query: ListQuery): Walked
    decreases |tables|
  {
    if tables == [] then Walked([], 0, false)
    else
      var page := ListPage(tables[0], tenant, query);
      if page.nextCursor.None? then Walked(page.items, 1, true)
      else
        var rest := WalkChanging(tables[1..], tenant, query.(cursor := page.nextCursor));
        Walked(page.items + rest.rows, 1 + rest.pages, rest.finished)
  }

  predicate Has(table: seq<RunRow>, id: int, tenant: nat, status: Option<string>) {
    exists i | 0 <= i < |table| :: table[i].id == id && Matches(table[i], tenant, status)
  }

  predicate AfterAll(rows: seq<RunRow>, cursor: Option<int>) {
    forall i | 0 <= i < |rows| :: IsAfter(rows[i], cursor)
  }

  /** A page is a prefix of the selected rows, and has a next cursor, its last row, when it is not all of them. */
  lemma PageOfSelected(table: seq<RunRow>, tenant: nat, query: ListQuery)
    ensures var page, all := ListPage(table, tenant, query), Selected(table, tenant, query.status, query.cursor);
            && page.items <= all && (page.items == [] ==> all == [])
            && page.nextCursor == if page.items == all then None else Some(page.items[|page.items| - 1].id)
  {
    hide Filter, Selected;
  }

  /** A matching row after the cursor is selected. */
  lemma MatchIsSelected(table: seq<RunRow>, tenant: nat, status: Option<string>, cursor: Option<int>, id: int)
    requires Has(table, id, tenant, status) && IsAfter(RunRow(id, 0, ""), cursor)
    ensures exists j | 0 <= j < |Selected(table, tenant, status, cursor)| ::
              Selected(table, tenant, status, cursor)[j].id == id
  {
    hide Matches, Filter;
    var i :| 0 <= i < |table| && table[i].id == id && Matches(table[i], tenant, status);
    FilterKeeps((row: RunRow) => Matches(row, tenant, status) && IsAfter(row, cursor), table, table[i]);
    var all := Selected(table, tenant, status, cursor);
    var j :| 0 <= j < |all| && all[j] == table[i];
    assert all[j].id == id;
  }

  lemma SelectedShape(table: seq<RunRow>, tenant: nat, status: Option<string>, cursor: Option<int>)
    requires IsTable(table)
    ensures var all := Selected(table, tenant, status, cursor); IsTable(all) && AfterAll(all, cursor)
  {
    hide Matches, Filter;
    FilteredTable((row: RunRow) => Matches(row, tenant, status) && IsAfter(row, cursor), table);
  }

  /** A page: rows in order after the cursor; a matching row after the cursor is on it, or the next cursor is before
      it. */
  lemma PageShape(table: seq<RunRow>, tenant: nat, query: ListQuery, id: int)
    requires IsTable(table)
    ensures var page := ListPage(table, tenant, query);
            && IsTable(page.items) && AfterAll(page.items, query.cursor)
            && (page.nextCursor.Some? ==> forall i | 0 <= i < |page.items| :: page.items[i].id <= page.nextCursor.value)
            && (page.nextCursor.Some? ==> IsAfter(RunRow(page.nextCursor.value, 0, ""), query.cursor))
            && (Has(table, id, tenant, query.status) && IsAfter(RunRow(id, 0, ""), query.cursor) ==>
                (exists i | 0 <= i < |page.items| :: page.items[i].id == id)
                  || (page.nextCursor.Some? && id > page.nextCursor.value))
  {
    hide Has, ListPage, Selected;
    var all := Selected(table, tenant, query.status, query.cursor);
    var page := ListPage(table, tenant, query);
    PageOfSelected(table, tenant, query);
    SelectedShape(table, tenant, query.status, query.cursor);
    if Has(table, id, tenant, query.status) && IsAfter(RunRow(id, 0, ""), query.cursor) {
      MatchIsSelected(table, tenant, query.status, query.cursor, id);
      var j :| 0 <= j < |all| && all[j].id == id;
      if j < |page.items| { assert page.items[j].id == id; }
    }
  }

  /** Whatever rows come and go between pages: no row is returned twice, rows come in id order, and every row that
      matches in every table read is returned. */
  lemma {:induction false} ChangingWalk(tables: seq<seq<RunRow>>, tenant: nat, query: ListQuery, id: int)
    requires forall t | 0 <= t < |tables| :: IsTable(tables[t])
    ensures var walked := WalkChanging(tables, tenant, query);
            && IsTable(walked.rows) && AfterAll(walked.rows, query.cursor) && walked.pages <= |tables|
            && (walked.finished && IsAfter(RunRow(id, 0, ""), query.cursor) &&
                (forall t | 0 <= t < walked.pages :: Has(tables[t], id, tenant, query.status)) ==>
                exists i | 0 <= i < |walked.rows| :: walked.rows[i].id == id)
    decreases |tables|
  {
    hide ListPage, Matches, Has;
    if tables != [] {
      var page := ListPage(tables[0], tenant, query);
      PageShape(tables[0], tenant, query, id);
      if page.nextCursor.Some? {
        var query' := query.(cursor := page.nextCursor);
        ChangingWalk(tables[1..], tenant, query', id);
        var rest := WalkChanging(tables[1..], tenant, query');
        var walked := WalkChanging(tables, tenant, query);
        assert walked.rows == page.items + rest.rows;
        forall t | 0 <= t < rest.pages
          ensures Has(tables[1..][t], id, tenant, query.status) <== Has(tables[t + 1], id, tenant, query.status) {
        }
        if i :| 0 <= i < |page.items| && page.items[i].id == id { assert walked.rows[i].id == id; }
        if i :| 0 <= i < |rest.rows| && rest.rows[i].id == id { assert walked.rows[|page.items| + i].id == id; }
      }
    }
  }
}
