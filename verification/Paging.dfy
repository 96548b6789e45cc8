/**
 Cursor paging as both list endpoints do it: one row more than the page is fetched, and its presence
 says whether there is a next page.
 */
module Paging {
  import opened Wrappers
  import opened Sorting

  // `at` is the column the list is ordered by, latest first.
  datatype Row = Row(id: string, at: int)

  const NotEarlier: Order<Row> := (a: Row, b: Row) => a.at >= b.at

  ghost predicate DistinctIds(rows: seq<Row>) {
    forall i, j :: 0 <= i < j < |rows| ==> rows[i].id != rows[j].id
  }

  /** What the database may return for a query without a limit: the matching rows, latest first. */
  ghost predicate Listing(rows: seq<Row>, table: seq<Row>, wanted: Row -> bool) {
    multiset(rows) == multiset(Filter(wanted, table)) && Ordered(NotEarlier, rows)
  }

  // The rows behind the cursor; none when the cursor row is not there.
  function After(rows: seq<Row>, cursor: Option<string>): seq<Row> {
    if cursor.None? then rows else AfterId(rows, cursor.value)
  }

  function AfterId(rows: seq<Row>, id: string): (rest: seq<Row>)
    ensures |rest| <= |rows|
  {
    if rows == [] then [] else if rows[0].id == id then rows[1..] else AfterId(rows[1..], id)
  }

  // A page without rows has no last row to take the cursor from: that request fails.
  datatype Reply = Page(items: seq<Row>, nextCursor: Option<string>, hasMore: bool) | Crash

  // The requested number, at most a hundred.
  function Limit(requested: nat): nat {
    if requested < 100 then requested else 100
  }

  function Take(rows: seq<Row>, n: nat): seq<Row> {
    if |rows| <= n then rows else rows[..n]
  }

  function FindAll(rows: seq<Row>, cursor: Option<string>, requested: nat): Reply {
    var limit := Limit(requested);
    var fetched := Take(After(rows, cursor), limit + 1);
    var hasMore := |fetched| > limit;
    var items := if hasMore then fetched[..limit] else fetched;
    if hasMore && items == [] then Crash
    else Page(items, if hasMore then Some(items[|items| - 1].id) else None, hasMore)
  }

  /** A request fails exactly when it asks for zero rows and there are some. */
  lemma CrashExact(rows: seq<Row>, cursor: Option<string>, requested: nat)
    ensures FindAll(rows, cursor, requested).Crash? <==> requested == 0 && After(rows, cursor) != []
  {}

  // ---------------------------------------------------------------------------
  // One page
  // ---------------------------------------------------------------------------

  lemma {:induction false} AfterPosition(rows: seq<Row>, i: nat)
    requires DistinctIds(rows) && i < |rows|
    ensures AfterId(rows, rows[i].id) == rows[i + 1..]
  {
    if i > 0 {
      AfterPosition(rows[1..], i - 1);
    }
  }

  lemma {:induction false} AfterIsSuffix(rows: seq<Row>, id: string)
    ensures exists n :: 0 <= n <= |rows| && AfterId(rows, id) == rows[n..]
  {
    if rows == [] {
      assert AfterId(rows, id) == rows[0..];
    } else if rows[0].id != id {
      AfterIsSuffix(rows[1..], id);
      var n :| 0 <= n <= |rows| - 1 && AfterId(rows[1..], id) == rows[1..][n..];
      assert AfterId(rows, id) == rows[n + 1..];
    }
  }

  /** A page is the next rows behind its cursor, and its own cursor stands right behind the page. */
  lemma PageThenRest(rows: seq<Row>, cursor: Option<string>, requested: nat)
    requires DistinctIds(rows) && requested > 0
    ensures var rest, r := After(rows, cursor), FindAll(rows, cursor, requested);
            && r.Page? && r.items == Take(rest, Limit(requested))
            && (r.hasMore <==> |rest| > Limit(requested)) && (r.hasMore <==> r.nextCursor.Some?)
            && (r.hasMore ==> rest == r.items + After(rows, r.nextCursor) && r.items != [])
  {
    hide AfterId, DistinctIds, Limit;
    var rest, limit := After(rows, cursor), Limit(requested);
    assert limit > 0 by { LimitPositive(requested); }
    if |rest| > limit {
      var n: nat := if cursor.None? then 0 else SuffixStart(rows, cursor.value);
      assert rest == rows[n..];
      assert Take(rest, limit + 1)[..limit] == rest[..limit];
      BehindPage(rows, n, limit - 1);
    }
  }

  lemma LimitPositive(requested: nat)
    requires requested > 0
    ensures Limit(requested) > 0
  {}

  lemma BehindPage(rows: seq<Row>, n: nat, last: nat)
    requires DistinctIds(rows) && n + last < |rows|
    ensures rows[n..] == rows[n..][..last + 1] + AfterId(rows, rows[n..][last].id)
  {
    hide AfterId, DistinctIds;
    AfterPosition(rows, n + last);
    assert rows[n..][last + 1..] == rows[n + last + 1..];
  }

  ghost function SuffixStart(rows: seq<Row>, id: string): (n: nat)
    ensures n <= |rows| && AfterId(rows, id) == rows[n..]
  {
    AfterIsSuffix(rows, id);
    var n :| 0 <= n <= |rows| && AfterId(rows, id) == rows[n..];
    n
  }

  /**
   The reply in full: the first rows behind the cursor, as many as asked for but at most a hundred; more to come
   if and only if rows are left, and then the cursor is the last row shown.
   */
  lemma PageExact(rows: seq<Row>, cursor: Option<string>, requested: nat)
    requires requested > 0
    ensures var rest, n, r := After(rows, cursor), (if requested < 100 then requested else 100), FindAll(rows, cursor, requested);
            r == if |rest| <= n then Page(rest, None, false) else Page(rest[..n], Some(rest[n - 1].id), true)
  {}

  /** Behind a row come the rows after it; behind a row that is gone comes nothing. */
  lemma {:induction false} CursorExact(rows: seq<Row>, id: string, i: nat)
    requires DistinctIds(rows)
    ensures After(rows, None) == rows
    ensures i < |rows| && rows[i].id == id ==> After(rows, Some(id)) == rows[i + 1..]
    ensures (forall j :: 0 <= j < |rows| ==> rows[j].id != id) ==> After(rows, Some(id)) == []
  {
    if i < |rows| && rows[i].id == id {
      AfterPosition(rows, i);
    } else if rows != [] && rows[0].id != id {
      CursorExact(rows[1..], id, |rows|);
    }
  }

  // ---------------------------------------------------------------------------
  // All pages
  // ---------------------------------------------------------------------------

  /** Following the cursors, page after page, until there is no more. */
  ghost function Follow(rows: seq<Row>, cursor: Option<string>, requested: nat): (pages: seq<seq<Row>>)
    requires DistinctIds(rows) && requested > 0
    decreases |After(rows, cursor)|
  {
    PageThenRest(rows, cursor, requested);
    var r := FindAll(rows, cursor, requested);
    [r.items] + if r.hasMore then Follow(rows, r.nextCursor, requested) else []
  }

  ghost function Concat(pages: seq<seq<Row>>): seq<Row> {
    if pages == [] then [] else pages[0] + Concat(pages[1..])
  }

  lemma {:induction false} PagesAreRest(rows: seq<Row>, cursor: Option<string>, requested: nat)
    requires DistinctIds(rows) && requested > 0
    ensures Concat(Follow(rows, cursor, requested)) == After(rows, cursor)
    decreases |After(rows, cursor)|
  {
    hide FindAll, After;
    PageThenRest(rows, cursor, requested);
    var r := FindAll(rows, cursor, requested);
    var pages := Follow(rows, cursor, requested);
    if r.hasMore {
      PagesAreRest(rows, r.nextCursor, requested);
      assert pages[1..] == Follow(rows, r.nextCursor, requested);
    } else {
      assert pages == [r.items] && pages[1..] == [];
    }
  }

  /** The pages together are every row once, in order, whatever the page size. */
  lemma AllPages(rows: seq<Row>, requested: nat)
    requires DistinctIds(rows) && requested > 0
    ensures Concat(Follow(rows, None, requested)) == rows
  {
    PagesAreRest(rows, None, requested);
  }

  // ---------------------------------------------------------------------------
  // When every request sees the same list
  // ---------------------------------------------------------------------------

  ghost predicate DistinctTimes(rows: seq<Row>) {
    forall i, j :: 0 <= i < |rows| && 0 <= j < |rows| && i != j ==> rows[i].at != rows[j].at
  }

  // The latest row is the same in both.
  lemma SameFirst(a: seq<Row>, b: seq<Row>)
    requires multiset(a) == multiset(b) && Ordered(NotEarlier, a) && Ordered(NotEarlier, b) && DistinctTimes(a)
    requires a != [] && b != []
    ensures a[0] == b[0]
  {
    assert a[0] in multiset(b) && b[0] in multiset(a);
    var i: nat :| i < |a| && a[i] == b[0];
    var j: nat :| j < |b| && b[j] == a[0];
    assert a[0].at >= a[i].at;
    assert b[0].at >= b[j].at;
  }

  lemma TailsShareRows(a: seq<Row>, b: seq<Row>)
    requires multiset(a) == multiset(b) && a != [] && b != [] && a[0] == b[0]
    ensures multiset(a[1..]) == multiset(b[1..])
  {
    assert a == [a[0]] + a[1..] && b == [b[0]] + b[1..];
    assert multiset(a[1..]) == multiset(a) - multiset{a[0]};
  }

  /** Without ties the database has no choice: any two listings are the same. */
  lemma {:induction false} OneListing(a: seq<Row>, b: seq<Row>)
    requires multiset(a) == multiset(b) && Ordered(NotEarlier, a) && Ordered(NotEarlier, b) && DistinctTimes(a)
    ensures a == b
  {
    assert |a| == |multiset(a)| && |b| == |multiset(b)|;
    if a != [] {
      SameFirst(a, b);
      TailsShareRows(a, b);
      OneListing(a[1..], b[1..]);
      assert a == [a[0]] + a[1..] && b == [b[0]] + b[1..];
    }
  }

  predicate Any(row: Row) { true }

  /** With a tie it has: page two of one listing can repeat the row on page one of the other, and lose a row. */
  lemma TiesLoseRows(at: int)
    ensures var x, y := Row("x", at), Row("y", at);
            var table := [x, y];
            var first := FindAll([x, y], None, 1);
            && Listing([x, y], table, Any) && Listing([y, x], table, Any)
            && first == Page([x], Some("x"), true)
            && FindAll([y, x], first.nextCursor, 1) == Page([], None, false)
  {
    var x, y := Row("x", at), Row("y", at);
    assert [x, y][1..] == [y] && [y][1..] == [];
    assert Filter(Any, [x, y]) == [x] + Filter(Any, [y]) == [x, y];
    assert multiset([x, y]) == multiset([y, x]);
    assert AfterId([y, x], "x") == [];
  }

  /** So over a table without ties, any listing a request sees, page by page, is every matching row once. */
  lemma EveryMatchingRowOnce(table: seq<Row>, wanted: Row -> bool, rows: seq<Row>, seen: seq<Row>, requested: nat)
    requires DistinctIds(rows) && requested > 0 && DistinctTimes(rows)
    requires Listing(rows, table, wanted) && Listing(seen, table, wanted)
    ensures seen == rows
    ensures multiset(Concat(Follow(rows, None, requested))) == multiset(Filter(wanted, table))
    ensures forall cursor :: FindAll(seen, cursor, requested) == FindAll(rows, cursor, requested)
  {
    OneListing(rows, seen);
    AllPages(rows, requested);
  }
}
