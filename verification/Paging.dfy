/**
 * Listing intents page by page (packages/db/src/repository.ts, apps/api/src/service.ts). The database keeps timestamps in
 * microseconds and a cursor keeps milliseconds. An id stands for its place in the database's order of ids.
 */
module Paging {
  import opened Prelude

  datatype Intent = Intent(createdAt: int, id: int)

  datatype Cursor = Cursor(createdAt: int, id: int)

  /** Rows of one project in the order of the listing, newest first. */
  type Table = t: seq<Intent> | Descending(t) witness []

  predicate Below(row: Intent, createdAt: int, id: int) {
    row.createdAt < createdAt || (row.createdAt == createdAt && row.id < id)
  }

  predicate Older(a: Intent, b: Intent) {
    Below(a, b.createdAt, b.id)
  }

  predicate Descending(rows: seq<Intent>) {
    forall i, j :: 0 <= i < j < |rows| ==> Older(rows[j], rows[i])
  }

  /** A cursor is made from the timestamp as the driver reads it, cut to the millisecond. */
  function CursorOf(row: Intent): Cursor {
    Cursor(row.createdAt / 1000 * 1000, row.id)
  }

  predicate Follows(row: Intent, cursor: Option<Cursor>) {
    cursor.Some? ==> Below(row, cursor.value.createdAt, cursor.value.id)
  }

  function Select(rows: seq<Intent>, cursor: Option<Cursor>): seq<Intent> {
    if rows == [] then []
    else (if Follows(rows[0], cursor) then [rows[0]] else []) + Select(rows[1..], cursor)
  }

  lemma {:induction false} SelectsThoseThatFollow(rows: seq<Intent>, cursor: Option<Cursor>)
    ensures forall row :: row in Select(rows, cursor) <==> row in rows && Follows(row, cursor)
  {
    if rows != [] {
      SelectsThoseThatFollow(rows[1..], cursor);
      assert rows == [rows[0]] + rows[1..];
    }
  }

  datatype Page = Page(items: seq<Intent>, nextCursor: Option<Cursor>)

  function PageSize(limit: int): (size: nat)
    ensures 1 <= size <= 200
  {
    Min(Max(limit, 1), 200)
  }

  function ListIntentsPage(table: Table, limit: int, cursor: Option<Cursor>): Page {
    var selected := Select(table, cursor);
    var rows := selected[..Min(|selected|, PageSize(limit) + 1)];
    if |rows| > PageSize(limit)
    then Page(rows[..PageSize(limit)], Some(CursorOf(rows[PageSize(limit) - 1])))
    else Page(rows, None)
  }

  // ---- Following nextCursor ----------------------------------------------------------------------------------------

  /** What a client lists from one table after the other, the rows its pages ended with, and whether it reached the end. */
  datatype Listing = Listing(items: seq<Intent>, ends: seq<Intent>, complete: bool)

  function Follow(tables: seq<Table>, limit: int, cursor: Option<Cursor>): Listing {
    if tables == [] then Listing([], [], false)
    else
      var page := ListIntentsPage(tables[0], limit, cursor);
      if page.nextCursor.None? then Listing(page.items, [], true)
      else
        var rest := Follow(tables[1..], limit, page.nextCursor);
        Listing(page.items + rest.items, [page.items[|page.items| - 1]] + rest.ends, rest.complete)
  }

  /** Rows may be inserted between the pages, and none is deleted. */
  predicate OnlyGrows(tables: seq<Table>) {
    forall i, j, row :: 0 <= i < j < |tables| && row in tables[i] ==> row in tables[j]
  }

  lemma {:induction false} SelectDescends(rows: seq<Intent>, cursor: Option<Cursor>)
    requires Descending(rows)
    ensures Descending(Select(rows, cursor))
  {
    if rows != [] {
      SelectDescends(rows[1..], cursor);
      SelectsThoseThatFollow(rows[1..], cursor);
      var rest := Select(rows[1..], cursor);
      forall j | 0 <= j < |rest|
        ensures Older(rest[j], rows[0])
      {
        assert rest[j] in rows[1..];
        var i :| 0 <= i < |rows[1..]| && rows[1..][i] == rest[j];
        assert rows[i + 1] == rest[j];
      }
    }
  }

  /** A page holds the newest rows after its cursor; the rows it leaves for later are older than its last one. */
  lemma PageIsNewest(table: Table, limit: int, cursor: Option<Cursor>)
    ensures var page := ListIntentsPage(table, limit, cursor);
            && Descending(page.items) && |page.items| <= PageSize(limit)
            && (forall row :: row in page.items ==> row in table && Follows(row, cursor))
            && (page.nextCursor.None? ==> forall row :: row in table && Follows(row, cursor) ==> row in page.items)
            && (page.nextCursor.Some? ==>
                  page.items != []
                  && var last := page.items[|page.items| - 1];
                     page.nextCursor == Some(CursorOf(last))
                     && forall row :: row in table && Follows(row, cursor) ==> row in page.items || Older(row, last))
  {
    SelectDescends(table, cursor);
    SelectsThoseThatFollow(table, cursor);
    var selected := Select(table, cursor);
    var page := ListIntentsPage(table, limit, cursor);
    assert page.items == selected[..|page.items|];
    forall row | row in table && Follows(row, cursor)
      ensures row in page.items || (page.nextCursor.Some? && page.items != [] && Older(row, page.items[|page.items| - 1]))
    {
      var i :| 0 <= i < |selected| && selected[i] == row;
      if i < |page.items| {
        assert page.items[i] == row;
      }
    }
  }

  /** A page that is not the last one is full: as long as the limit asks, between one row and two hundred. */
  lemma FullPage(table: Table, limit: int, cursor: Option<Cursor>)
    ensures ListIntentsPage(table, limit, cursor).nextCursor.Some? ==>
              |ListIntentsPage(table, limit, cursor).items| == PageSize(limit)
    ensures PageSize(limit) == if limit < 1 then 1 else if limit > 200 then 200 else limit
  {
  }

  /** There is a next cursor if and only if a row is left, and then the page is as long as the limit asks. */
  lemma NextCursorExactlyWhen(table: Table, limit: int, cursor: Option<Cursor>)
    ensures var page := ListIntentsPage(table, limit, cursor);
            && (page.nextCursor.Some? <==> exists row :: row in table && Follows(row, cursor) && row !in page.items)
            && (page.nextCursor.Some? ==> |page.items| == if limit < 1 then 1 else if limit > 200 then 200 else limit)
  {
    var page, selected := ListIntentsPage(table, limit, cursor), Select(table, cursor);
    PageIsNewest(table, limit, cursor);
    FullPage(table, limit, cursor);
    SelectDescends(table, cursor);
    SelectsThoseThatFollow(table, cursor);
    if page.nextCursor.Some? {
      var next := selected[|page.items|];
      assert page.items == selected[..|page.items|];
      forall i | 0 <= i < |page.items|
        ensures page.items[i] != next
      {
        assert Older(selected[|page.items|], selected[i]);
      }
      assert next in table && Follows(next, cursor) && next !in page.items;
    }
  }

  /** The row is older than the page's last one, yet its cursor passes over it. */
  predicate InGap(row: Intent, last: Intent) {
    Older(row, last) && !Follows(row, Some(CursorOf(last)))
  }

  predicate Skipped(row: Intent, ends: seq<Intent>) {
    exists k :: 0 <= k < |ends| && InGap(row, ends[k])
  }

  lemma CursorIsNotNewer(row: Intent, last: Intent)
    requires Follows(row, Some(CursorOf(last)))
    ensures Older(row, last)
  {
  }

  /**
   * Nothing is listed twice, the order is that of the listing, and a client that reached the end has seen exactly the
   * rows present at the start that no page boundary passed over, whatever was inserted meanwhile.
   */
  lemma {:induction false} ListedExactlyWhenNotSkipped(tables: seq<Table>, limit: int, cursor: Option<Cursor>, row: Intent)
    requires OnlyGrows(tables)
    requires tables != [] ==> row in tables[0]
    ensures var listing := Follow(tables, limit, cursor);
            && Descending(listing.items)
            && (forall r :: r in listing.items ==> Follows(r, cursor))
            && (forall r :: r in listing.ends ==> r in listing.items)
            && (listing.complete && Follows(row, cursor) ==> (row in listing.items <==> !Skipped(row, listing.ends)))
  {
    if tables != [] {
      var page := ListIntentsPage(tables[0], limit, cursor);
      PageIsNewest(tables[0], limit, cursor);
      if page.nextCursor.Some? {
        var last := page.items[|page.items| - 1];
        var rest := Follow(tables[1..], limit, page.nextCursor);
        LaterGrows(tables, row);
        ListedExactlyWhenNotSkipped(tables[1..], limit, page.nextCursor, row);
        ListingDescends(page.items, rest.items, last);
        RestFollows(rest.items, last, cursor);
        if rest.complete && Follows(row, cursor) {
          OneBoundary(page.items, rest, last, row);
        }
      }
    }
  }

  lemma LaterGrows(tables: seq<Table>, row: Intent)
    requires OnlyGrows(tables) && tables != [] && row in tables[0]
    ensures OnlyGrows(tables[1..]) && (tables[1..] != [] ==> row in tables[1..][0])
  {
    forall i, j, r | 0 <= i < j < |tables[1..]| && r in tables[1..][i]
      ensures r in tables[1..][j]
    {
      assert tables[1..][i] == tables[i + 1] && tables[1..][j] == tables[j + 1];
    }
    if tables[1..] != [] {
      assert tables[1..][0] == tables[1];
    }
  }

  lemma ListingDescends(items: seq<Intent>, rest: seq<Intent>, last: Intent)
    requires items != [] && last == items[|items| - 1] && Descending(items) && Descending(rest)
    requires forall r :: r in rest ==> Follows(r, Some(CursorOf(last)))
    ensures Descending(items + rest)
  {
    forall j | 0 <= j < |rest|
      ensures Older(rest[j], last)
    {
      CursorIsNotNewer(rest[j], last);
    }
  }

  lemma RestFollows(rest: seq<Intent>, last: Intent, cursor: Option<Cursor>)
    requires Follows(last, cursor)
    requires forall r :: r in rest ==> Follows(r, Some(CursorOf(last)))
    ensures forall r :: r in rest ==> Follows(r, cursor)
  {
    forall r | r in rest
      ensures Follows(r, cursor)
    {
      CursorIsNotNewer(r, last);
    }
  }

  lemma OneBoundary(items: seq<Intent>, rest: Listing, last: Intent, row: Intent)
    requires items != [] && last == items[|items| - 1] && Descending(items)
    requires row in items || Older(row, last)
    requires forall r :: r in rest.items ==> Follows(r, Some(CursorOf(last)))
    requires forall r :: r in rest.ends ==> r in rest.items
    requires Follows(row, Some(CursorOf(last))) ==> (row in rest.items <==> !Skipped(row, rest.ends))
    ensures row in items + rest.items <==> !Skipped(row, [last] + rest.ends)
  {
    SkippedCons(row, last, rest.ends);
    if row in items {
      assert row == last || Older(last, row);
      forall k | 0 <= k < |rest.ends|
        ensures !InGap(row, rest.ends[k])
      {
        assert rest.ends[k] in rest.items;
        CursorIsNotNewer(rest.ends[k], last);
      }
    }
  }

  lemma SkippedCons(row: Intent, last: Intent, ends: seq<Intent>)
    ensures Skipped(row, [last] + ends) <==> InGap(row, last) || Skipped(row, ends)
  {
    var all := [last] + ends;
    assert all[0] == last && forall k :: 0 <= k < |ends| ==> all[k + 1] == ends[k];
    if k :| 0 <= k < |ends| && InGap(row, ends[k]) {
      assert InGap(row, all[k + 1]);
    }
  }

  /** The boundaries are the rows at every full page of the listing. */
  lemma {:induction false} EndsAreEveryPage(tables: seq<Table>, limit: int, cursor: Option<Cursor>, k: nat)
    requires k < |Follow(tables, limit, cursor).ends|
    ensures var listing, at := Follow(tables, limit, cursor), (k + 1) * PageSize(limit) - 1;
            at < |listing.items| && listing.ends[k] == listing.items[at]
  {
    var page := ListIntentsPage(tables[0], limit, cursor);
    var rest := Follow(tables[1..], limit, page.nextCursor);
    FullPage(tables[0], limit, cursor);
    PageIsNewest(tables[0], limit, cursor);
    if k > 0 {
      EndsAreEveryPage(tables[1..], limit, page.nextCursor, k - 1);
      PlaceOfEnd(k, PageSize(limit));
      assert (page.items + rest.items)[PageSize(limit) + (k * PageSize(limit) - 1)] == rest.items[k * PageSize(limit) - 1];
    }
  }

  lemma PlaceOfEnd(k: nat, size: nat)
    requires k > 0 && size > 0
    ensures (k + 1) * size - 1 == size + (k * size - 1) && k * size - 1 >= 0
  {
  }

  // ---- At the precision of a cursor --------------------------------------------------------------------------------

  predicate Milliseconds(row: Intent) {
    row.createdAt % 1000 == 0
  }

  /** A boundary passes over a row exactly when both were created in one millisecond that the boundary row does not start. */
  lemma GapExactlyWhen(row: Intent, last: Intent)
    ensures InGap(row, last) <==>
              Older(row, last) && !Milliseconds(last) && row.createdAt / 1000 == last.createdAt / 1000
              && (Milliseconds(row) ==> row.id >= last.id)
  {
  }

  lemma CountOnce(items: seq<Intent>, row: Intent)
    requires Descending(items) && row in items
    ensures multiset(items)[row] == 1
  {
    if items[0] == row {
      assert items == [row] + items[1..];
      assert row !in items[1..];
    } else {
      assert items == [items[0]] + items[1..];
      CountOnce(items[1..], row);
    }
  }

  /** With timestamps at the cursor's precision, every intent present at the start is listed exactly once, newest first. */
  lemma ListedExactlyOnce(tables: seq<Table>, limit: int, row: Intent)
    requires OnlyGrows(tables) && tables != [] && row in tables[0]
    requires forall k, r :: 0 <= k < |tables| && r in tables[k] ==> Milliseconds(r)
    requires Follow(tables, limit, None).complete
    ensures Descending(Follow(tables, limit, None).items)
    ensures multiset(Follow(tables, limit, None).items)[row] == 1
  {
    var listing := Follow(tables, limit, None);
    ListedExactlyWhenNotSkipped(tables, limit, None, row);
    forall k | 0 <= k < |listing.ends|
      ensures !InGap(row, listing.ends[k])
    {
      assert listing.ends[k] in listing.items;
      ListedIsStored(tables, limit, None, listing.ends[k]);
      GapExactlyWhen(row, listing.ends[k]);
    }
    CountOnce(listing.items, row);
  }

  lemma {:induction false} ListedIsStored(tables: seq<Table>, limit: int, cursor: Option<Cursor>, row: Intent)
    requires row in Follow(tables, limit, cursor).items
    ensures exists k :: 0 <= k < |tables| && row in tables[k]
  {
    var page := ListIntentsPage(tables[0], limit, cursor);
    PageIsNewest(tables[0], limit, cursor);
    if row !in page.items {
      ListedIsStored(tables[1..], limit, page.nextCursor, row);
      var k :| 0 <= k < |tables[1..]| && row in tables[1..][k];
      assert row in tables[k + 1];
    }
  }

  // ---- The listing ends --------------------------------------------------------------------------------------------

  /** Everything inserted after the first page is newer than what the first page saw. */
  predicate OnlyNewer(tables: seq<Table>, start: seq<Intent>) {
    forall k :: 0 <= k < |tables| ==>
      |tables[k]| >= |start| && tables[k][|tables[k]| - |start|..] == start
  }

  lemma LaterNewer(tables: seq<Table>, start: seq<Intent>)
    requires OnlyNewer(tables, start) && tables != []
    ensures OnlyNewer(tables[1..], start) && OnlyNewer([tables[0]], start)
  {
  }

  lemma {:induction false} SelectConcat(a: seq<Intent>, b: seq<Intent>, cursor: Option<Cursor>)
    ensures Select(a + b, cursor) == Select(a, cursor) + Select(b, cursor)
  {
    if a == [] {
      assert a + b == b;
    } else {
      var head := if Follows(a[0], cursor) then [a[0]] else [];
      SelectConcat(a[1..], b, cursor);
      assert (a + b)[0] == a[0] && (a + b)[1..] == a[1..] + b;
      assert Select(a + b, cursor) == head + (Select(a[1..], cursor) + Select(b, cursor));
      assert Select(a, cursor) == head + Select(a[1..], cursor);
    }
  }

  lemma {:induction false} SelectNone(rows: seq<Intent>, cursor: Option<Cursor>)
    requires forall i :: 0 <= i < |rows| ==> !Follows(rows[i], cursor)
    ensures Select(rows, cursor) == []
  {
    if rows != [] {
      SelectNone(rows[1..], cursor);
    }
  }

  /** Newer rows are invisible to a cursor made from a row of the start. */
  lemma NewerIsNotSelected(table: Table, start: Table, last: Intent)
    requires OnlyNewer([table], start) && last in start
    ensures Select(table, Some(CursorOf(last))) == Select(start, Some(CursorOf(last)))
  {
    assert [table][0] == table;
    var n := |table| - |start|;
    assert table == table[..n] + start;
    var cursor := Some(CursorOf(last));
    var j :| 0 <= j < |start| && start[j] == last;
    forall i | 0 <= i < n
      ensures !Follows(table[..n][i], cursor)
    {
      assert table[n + j] == last;
      assert Older(last, table[i]);
    }
    SelectConcat(table[..n], start, cursor);
    SelectNone(table[..n], cursor);
  }

  /** After a page, fewer of the starting rows are left. */
  lemma {:induction false} SelectShrinks(start: seq<Intent>, cursor: Option<Cursor>, last: Intent)
    requires last in start && Follows(last, cursor)
    ensures |Select(start, Some(CursorOf(last)))| < |Select(start, cursor)|
  {
    SelectNotMore(start, cursor, last);
    if start[0] != last {
      SelectShrinks(start[1..], cursor, last);
    } else {
      SelectNotMore(start[1..], cursor, last);
    }
  }

  lemma {:induction false} SelectNotMore(start: seq<Intent>, cursor: Option<Cursor>, last: Intent)
    requires Follows(last, cursor)
    ensures |Select(start, Some(CursorOf(last)))| <= |Select(start, cursor)|
  {
    if start != [] {
      SelectNotMore(start[1..], cursor, last);
    }
  }

  /** While only newer intents are inserted, a client reaches the end within one page more than there were rows. */
  lemma {:induction false} ListingEnds(tables: seq<Table>, limit: int, start: Table, last: Intent)
    requires OnlyNewer(tables, start) && last in start
    requires |tables| > |Select(start, Some(CursorOf(last)))|
    ensures Follow(tables, limit, Some(CursorOf(last))).complete
    decreases |tables|
  {
    var cursor := Some(CursorOf(last));
    var page := ListIntentsPage(tables[0], limit, cursor);
    LaterNewer(tables, start);
    NewerIsNotSelected(tables[0], start, last);
    PageIsNewest(tables[0], limit, cursor);
    if page.nextCursor.Some? {
      var next := page.items[|page.items| - 1];
      SelectsThoseThatFollow(start, cursor);
      SelectShrinks(start, cursor, next);
      ListingEnds(tables[1..], limit, start, next);
    }
  }

  lemma ListingFromStartEnds(tables: seq<Table>, limit: int)
    requires tables != [] && OnlyNewer(tables, tables[0]) && |tables| > |tables[0]|
    ensures Follow(tables, limit, None).complete
  {
    var page := ListIntentsPage(tables[0], limit, None);
    PageIsNewest(tables[0], limit, None);
    if page.nextCursor.Some? {
      var last := page.items[|page.items| - 1];
      SelectAll(tables[0]);
      SelectShrinks(tables[0], None, last);
      LaterNewer(tables, tables[0]);
      ListingEnds(tables[1..], limit, tables[0], last);
    }
  }

  lemma {:induction false} SelectAll(rows: seq<Intent>)
    ensures Select(rows, None) == rows
  {
    if rows != [] {
      SelectAll(rows[1..]);
    }
  }

  // ---- Within one millisecond --------------------------------------------------------------------------------------

  const LATER := Intent(1500, 1)
  const EARLIER := Intent(1200, 2)

  /** Two intents created in one millisecond, one on a page: the older one is never listed. */
  lemma SameMillisecondIsSkipped()
    ensures Descending([LATER, EARLIER])
    ensures Follow([[LATER, EARLIER], [LATER, EARLIER]], 1, None) == Listing([LATER], [LATER], true)
  {
    var table: Table := [LATER, EARLIER];
    SelectAll(table);
    assert Select([EARLIER], Some(CursorOf(LATER))) == [];
    assert table[1..] == [EARLIER] && Select(table, Some(CursorOf(LATER))) == [];
    assert [table, table][1..] == [table];
    assert Follow([table], 1, Some(CursorOf(LATER))) == Listing([], [], true);
  }
}
