/**
 messages/index.ts `list`: keyset pagination, newest first.  A table here is the rows that match the caller's mailbox,
 folder and flags; `created_at` and `id` order them, and a cursor is the pair of the last row shown.
 */
module Pagination {
  import opened Options

  datatype Row = Row(createdAt: int, id: nat)

  datatype Page = Page(items: seq<Row>, next: Option<Row>)

  /** Earlier in the listing. */
  predicate Newer(a: Row, b: Row) {
    a.createdAt > b.createdAt || (a.createdAt == b.createdAt && a.id > b.id)
  }

  /** The WHERE clause of a cursor: created_at < ? OR (created_at = ? AND id < ?). */
  predicate After(cursor: Option<Row>, r: Row) {
    cursor.Some? ==> Newer(cursor.value, r)
  }

  function Matching(table: seq<Row>, cursor: Option<Row>): seq<Row> {
    if table == [] then []
    else if After(cursor, table[0]) then [table[0]] + Matching(table[1..], cursor)
    else Matching(table[1..], cursor)
  }

  function Insert(r: Row, rows: seq<Row>): seq<Row> {
    if rows == [] then [r]
    else if Newer(r, rows[0]) then [r] + rows
    else [rows[0]] + Insert(r, rows[1..])
  }

  /** ORDER BY created_at DESC, id DESC */
  function OrderBy(rows: seq<Row>): seq<Row> {
    if rows == [] then [] else Insert(rows[0], OrderBy(rows[1..]))
  }

  function Limit(rows: seq<Row>, n: nat): seq<Row> {
    if |rows| <= n then rows else rows[..n]
  }

  /** One page: ask for one row more than is shown, to know whether there is a next page. */
  function List(table: seq<Row>, cursor: Option<Row>, limit: nat): Page
    requires limit > 0
  {
    var result := Limit(OrderBy(Matching(table, cursor)), limit + 1);
    var items := Limit(result, limit);
    Page(items, if |result| > limit then Some(items[|items| - 1]) else None)
  }

  // ------------------------------------------------------------------ the order

  predicate Distinct(rows: seq<Row>) {
    forall i, j :: 0 <= i < j < |rows| ==> rows[i] != rows[j]
  }

  predicate Descending(rows: seq<Row>) {
    forall i, j :: 0 <= i < j < |rows| ==> Newer(rows[i], rows[j])
  }

  lemma {:induction false} InsertKeeps(r: Row, rows: seq<Row>)
    requires Descending(rows) && r !in rows
    ensures Descending(Insert(r, rows)) && forall x :: x in Insert(r, rows) <==> x == r || x in rows
  {
    if rows != [] {
      assert rows == [rows[0]] + rows[1..];
      if !Newer(r, rows[0]) {
        InsertKeeps(r, rows[1..]);
        var rest := Insert(r, rows[1..]);
        forall j | 0 <= j < |rest| ensures Newer(rows[0], rest[j]) {
          assert rest[j] in rest;
        }
      }
    }
  }

  lemma {:induction false} OrderByOrders(rows: seq<Row>)
    requires Distinct(rows)
    ensures Descending(OrderBy(rows)) && forall x :: x in OrderBy(rows) <==> x in rows
  {
    if rows != [] {
      OrderByOrders(rows[1..]);
      assert rows == [rows[0]] + rows[1..];
      assert rows[0] !in rows[1..];
      InsertKeeps(rows[0], OrderBy(rows[1..]));
    }
  }

  lemma {:induction false} MatchingKeeps(table: seq<Row>, cursor: Option<Row>)
    requires Distinct(table)
    ensures Distinct(Matching(table, cursor))
    ensures forall x :: x in Matching(table, cursor) <==> x in table && After(cursor, x)
  {
    if table != [] {
      MatchingKeeps(table[1..], cursor);
      assert table == [table[0]] + table[1..];
      assert table[0] !in table[1..];
    }
  }

  /** The listing from a cursor on. */
  function From(table: seq<Row>, cursor: Option<Row>): seq<Row> {
    OrderBy(Matching(table, cursor))
  }

  lemma FromIsOrdered(table: seq<Row>, cursor: Option<Row>)
    requires Distinct(table)
    ensures Descending(From(table, cursor)) && forall x :: x in From(table, cursor) <==> x in table && After(cursor, x)
  {
    MatchingKeeps(table, cursor);
    OrderByOrders(Matching(table, cursor));
  }

  /** In a descending list, the rows after a row are the rows older than it. */
  lemma RestIsOlder(all: seq<Row>, k: nat, x: Row)
    requires Descending(all) && k < |all|
    ensures x in all[k + 1..] <==> x in all && Newer(all[k], x)
  {
    if x in all {
      var i :| 0 <= i < |all| && all[i] == x;
      assert i > k ==> all[k + 1..][i - k - 1] == x;
    }
  }

  /** A descending list is determined by its rows. */
  lemma {:induction false} DescendingIsUnique(a: seq<Row>, b: seq<Row>)
    requires Descending(a) && Descending(b) && forall x :: x in a <==> x in b
    ensures a == b
    decreases |a|
  {
    assert a != [] ==> a[0] in b;
    assert b != [] ==> b[0] in a;
    if a != [] {
      HeadIsNewest(a, b[0]);
      HeadIsNewest(b, a[0]);
      assert a == [a[0]] + a[1..] && b == [b[0]] + b[1..];
      forall x ensures x in a[1..] <==> x in b[1..] {
        RestIsOlder(a, 0, x);
        RestIsOlder(b, 0, x);
      }
      DescendingIsUnique(a[1..], b[1..]);
    }
  }

  lemma HeadIsNewest(a: seq<Row>, x: Row)
    requires Descending(a) && x in a
    ensures x == a[0] || Newer(a[0], x)
  {
  }

  /** The rows after a row that was shown are the rest of the listing. */
  lemma NextContinues(table: seq<Row>, cursor: Option<Row>, k: nat)
    requires Distinct(table) && k < |From(table, cursor)|
    ensures From(table, Some(From(table, cursor)[k])) == From(table, cursor)[k + 1..]
  {
    var all := From(table, cursor);
    FromIsOrdered(table, cursor);
    FromIsOrdered(table, Some(all[k]));
    hide From;
    assert all[k] in all;
    forall x ensures x in all[k + 1..] <==> x in From(table, Some(all[k])) {
      RestIsOlder(all, k, x);
    }
    DescendingIsUnique(From(table, Some(all[k])), all[k + 1..]);
  }

  // ------------------------------------------------------------------ a table that stands still

  function Concat(pages: seq<Page>): seq<Row> {
    if pages == [] then [] else pages[0].items + Concat(pages[1..])
  }

  /** The pages of a listing, by cutting it up. */
  function Cut(rows: seq<Row>, limit: nat): seq<Page>
    requires limit > 0
    decreases |rows|
  {
    if |rows| <= limit then [Page(rows, None)]
    else [Page(rows[..limit], Some(rows[limit - 1]))] + Cut(rows[limit..], limit)
  }

  /** Follow `nextCursor` until it is null. */
  function Follow(table: seq<Row>, cursor: Option<Row>, limit: nat): seq<Page>
    requires limit > 0 && Distinct(table)
    decreases |From(table, cursor)|
  {
    var page := List(table, cursor, limit);
    if page.next == None then [page]
    else
      NextContinues(table, cursor, limit - 1);
      [page] + Follow(table, page.next, limit)
  }

  lemma {:induction false} FollowCuts(table: seq<Row>, cursor: Option<Row>, limit: nat)
    requires limit > 0 && Distinct(table)
    ensures Follow(table, cursor, limit) == Cut(From(table, cursor), limit)
    decreases |From(table, cursor)|
  {
    var all := From(table, cursor);
    if |all| > limit {
      NextContinues(table, cursor, limit - 1);
      FollowCuts(table, Some(all[limit - 1]), limit);
      assert Limit(Limit(all, limit + 1), limit) == all[..limit];
    }
  }

  /** n pages are just enough for this many rows; one page is shown even of nothing. */
  predicate JustEnough(n: nat, rows: nat, limit: nat) {
    n >= 1 && rows <= limit * n && (n > 1 ==> limit * (n - 1) < rows)
  }

  lemma {:induction false} CutIsWhole(rows: seq<Row>, limit: nat)
    requires limit > 0
    ensures Concat(Cut(rows, limit)) == rows
    decreases |rows|
  {
    if |rows| <= limit {
      assert Concat([Page(rows, None)]) == rows + [];
    } else {
      CutIsWhole(rows[limit..], limit);
      assert rows == rows[..limit] + rows[limit..];
    }
  }

  lemma {:induction false} CutIsJustEnough(rows: seq<Row>, limit: nat)
    requires limit > 0
    ensures JustEnough(|Cut(rows, limit)|, |rows|, limit)
    decreases |rows|
  {
    if |rows| > limit {
      CutIsJustEnough(rows[limit..], limit);
      OneMorePage(|Cut(rows[limit..], limit)|, |rows| - limit, limit);
    }
  }

  lemma OneMorePage(n: nat, rows: nat, limit: nat)
    requires JustEnough(n, rows, limit) && rows > 0
    ensures JustEnough(n + 1, rows + limit, limit)
  {
    assert limit * (n + 1) == limit * n + limit;
    assert n > 1 ==> limit * n == limit * (n - 1) + limit;
  }

  /**
   Main result.  Over a table that stands still, following the cursor shows every row exactly once, newest
   first, in as many pages as the rows fill and one page if there are none.
   */
  lemma PagesAreComplete(table: seq<Row>, limit: nat)
    requires limit > 0 && Distinct(table)
    ensures var pages := Follow(table, None, limit);
            Descending(Concat(pages)) && (forall x :: x in Concat(pages) <==> x in table)
            && |Concat(pages)| == |table|
            && JustEnough(|pages|, |table|, limit)
  {
    FollowCuts(table, None, limit);
    CutIsWhole(From(table, None), limit);
    CutIsJustEnough(From(table, None), limit);
    FromIsOrdered(table, None);
    MatchingAll(table);
    OrderByLength(table);
  }

  lemma {:induction false} MatchingAll(table: seq<Row>)
    ensures Matching(table, None) == table
  {
    if table != [] {
      MatchingAll(table[1..]);
    }
  }

  lemma {:induction false} InsertLength(r: Row, rows: seq<Row>)
    ensures |Insert(r, rows)| == |rows| + 1
  {
    if rows != [] && !Newer(r, rows[0]) {
      InsertLength(r, rows[1..]);
    }
  }

  lemma {:induction false} OrderByLength(rows: seq<Row>)
    ensures |OrderBy(rows)| == |rows|
  {
    if rows != [] {
      OrderByLength(rows[1..]);
      InsertLength(rows[0], OrderBy(rows[1..]));
    }
  }

  // ------------------------------------------------------------------ a table that changes between pages

  /** Page i is asked of table i; stop at a null cursor or when no table is left. */
  function Browse(tables: seq<seq<Row>>, cursor: Option<Row>, limit: nat): seq<Page>
    requires limit > 0
    decreases |tables|
  {
    if tables == [] then []
    else
      var page := List(tables[0], cursor, limit);
      [page] + if page.next == None then [] else Browse(tables[1..], page.next, limit)
  }

  /** A page shows rows after its cursor; its own cursor is after the old one and not before any row shown. */
  lemma PageAdvances(table: seq<Row>, cursor: Option<Row>, limit: nat)
    requires limit > 0 && Distinct(table)
    ensures var page := List(table, cursor, limit);
            (forall x :: x in page.items ==> x in table && After(cursor, x))
            && Descending(page.items)
            && (page.next.Some? ==>
                  After(cursor, page.next.value)
                  && forall x :: After(page.next, x) ==> After(cursor, x) && x !in page.items)
            && (forall x :: x in table && After(cursor, x) ==>
               x in page.items || (page.next.Some? && After(page.next, x)))
  {
    var all := From(table, cursor);
    var page := List(table, cursor, limit);
    FromIsOrdered(table, cursor);
    hide From;
    assert page.items == Limit(all, limit);
    forall x | x in page.items ensures x in all {
      var i :| 0 <= i < |page.items| && page.items[i] == x;
      assert all[i] == x;
    }
    if |all| > limit {
      assert page.next == Some(all[limit - 1]) && all[limit - 1] in all;
      forall x | x in page.items ensures !Newer(all[limit - 1], x) {
        var i :| 0 <= i < |page.items| && page.items[i] == x;
        assert all[i] == x;
      }
      forall x | x in all ensures x in page.items || Newer(all[limit - 1], x) {
        var i :| 0 <= i < |all| && all[i] == x;
        assert i < limit ==> page.items[i] == x;
      }
    }
  }

  predicate AllDistinct(tables: seq<seq<Row>>) {
    forall i :: 0 <= i < |tables| ==> Distinct(tables[i])
  }

  lemma {:induction false} BrowseIsAfter(tables: seq<seq<Row>>, cursor: Option<Row>, limit: nat)
    requires limit > 0 && AllDistinct(tables)
    ensures forall i, x :: 0 <= i < |Browse(tables, cursor, limit)| && x in Browse(tables, cursor, limit)[i].items ==>
            After(cursor, x)
    decreases |tables|
  {
    if tables != [] {
      PageAdvances(tables[0], cursor, limit);
      var page := List(tables[0], cursor, limit);
      hide List;
      if page.next.Some? {
        BrowseIsAfter(tables[1..], page.next, limit);
      }
    }
  }

  /** Main result: whatever is inserted or deleted between pages, no two pages show the same row. */
  lemma {:induction false} NoRowTwice(tables: seq<seq<Row>>, cursor: Option<Row>, limit: nat, i: nat, j: nat, x: Row)
    requires limit > 0 && AllDistinct(tables) && i < j < |Browse(tables, cursor, limit)|
    requires x in Browse(tables, cursor, limit)[i].items
    ensures x !in Browse(tables, cursor, limit)[j].items
    decreases |tables|
  {
    hide List, After, Newer, Descending, Distinct, Browse;
    BrowseStarts(tables, cursor, limit);
    PageAdvances(tables[0], cursor, limit);
    var page := List(tables[0], cursor, limit);
    var rest := Browse(tables[1..], page.next, limit);
    if i > 0 {
      NoRowTwice(tables[1..], page.next, limit, i - 1, j - 1, x);
    } else {
      BrowseIsAfter(tables[1..], page.next, limit);
      assert x in rest[j - 1].items ==> After(page.next, x);
    }
  }

  /** The first page, and the others if there is a cursor to ask for them with. */
  lemma BrowseStarts(tables: seq<seq<Row>>, cursor: Option<Row>, limit: nat)
    requires limit > 0 && |Browse(tables, cursor, limit)| > 1
    ensures tables != []
    ensures var page := List(tables[0], cursor, limit);
            page.next.Some? && Browse(tables, cursor, limit) == [page] + Browse(tables[1..], page.next, limit)
  {
    hide List;
  }

  predicate Shown(pages: seq<Page>, x: Row) {
    pages != [] && (x in pages[0].items || Shown(pages[1..], x))
  }

  /** The cursor of the last page is null. */
  predicate Finished(pages: seq<Page>) {
    pages != [] && (if |pages| == 1 then pages[0].next == None else Finished(pages[1..]))
  }

  /** Main result: a row that is there throughout is shown by the time the cursor is null. */
  lemma {:induction false} NoRowMissed(tables: seq<seq<Row>>, cursor: Option<Row>, limit: nat, x: Row)
    requires limit > 0 && AllDistinct(tables) && Finished(Browse(tables, cursor, limit))
    requires After(cursor, x) && forall i :: 0 <= i < |tables| ==> x in tables[i]
    ensures Shown(Browse(tables, cursor, limit), x)
    decreases |tables|
  {
    PageAdvances(tables[0], cursor, limit);
    var page := List(tables[0], cursor, limit);
    hide List;
    if x !in page.items {
      assert x in tables[0];
      var rest := Browse(tables[1..], page.next, limit);
      assert Browse(tables, cursor, limit)[1..] == rest;
      NoRowMissed(tables[1..], page.next, limit, x);
    }
  }
}
