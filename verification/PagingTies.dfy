/**
 Paging when every request may see another listing of the same rows: exactly when the pages still hold
 every row once.
 */
module PagingTies {
  import opened Wrappers
  import opened Sorting
  import opened Paging

  datatype Walk = Walk(items: seq<Row>, done: bool)

  /** Following the cursors, each request seeing a listing of its own. A failed request ends the walk. */
  function WalkFrom(seen: seq<seq<Row>>, cursor: Option<string>, requested: nat): Walk
    decreases |seen|
  {
    if seen == [] then Walk([], false)
    else
      var r := FindAll(seen[0], cursor, requested);
      if r.Crash? then Walk([], false)
      else if !r.hasMore then Walk(r.items, true)
      else
        var rest := WalkFrom(seen[1..], r.nextCursor, requested);
        Walk(r.items + rest.items, rest.done)
  }

  ghost predicate ListingOf(s: seq<Row>, rows: seq<Row>) {
    multiset(s) == multiset(rows) && Ordered(NotEarlier, s)
  }

  ghost predicate AllListings(seen: seq<seq<Row>>, rows: seq<Row>) {
    forall i :: 0 <= i < |seen| ==> ListingOf(seen[i], rows)
  }

  /** Whatever listings the requests see, if there are enough of them, the pages hold the rows, each once. */
  ghost predicate Complete(rows: seq<Row>, requested: nat) {
    forall seen :: |seen| > |rows| && AllListings(seen, rows) ==>
      var w := WalkFrom(seen, None, requested);
      w.done && multiset(w.items) == multiset(rows)
  }

  // The last row of a page that is not the last page.
  predicate Boundary(m: int, n: nat, limit: nat) {
    0 < limit && 0 <= m < n - 1 && (m + 1) % limit == 0
  }

  ghost predicate TimeUnique(rows: seq<Row>, m: nat)
    requires m < |rows|
  {
    forall p :: 0 <= p < |rows| && p != m ==> rows[p].at != rows[m].at
  }

  ghost predicate BoundariesUnique(rows: seq<Row>, limit: nat) {
    forall m: nat :: Boundary(m, |rows|, limit) ==> TimeUnique(rows, m)
  }

  // ---------------------------------------------------------------------------
  // Two listings of the same rows
  // ---------------------------------------------------------------------------

  lemma SameRows(a: seq<Row>, b: seq<Row>)
    requires multiset(a) == multiset(b)
    ensures |a| == |b| && forall r :: r in a <==> r in b
  {
    assert |multiset(a)| == |multiset(b)|;
    forall r ensures r in a <==> r in b {
      assert r in a <==> r in multiset(a);
      assert r in b <==> r in multiset(b);
    }
  }

  lemma SameDistinctIds(a: seq<Row>, b: seq<Row>)
    requires multiset(a) == multiset(b) && DistinctIds(a)
    ensures DistinctIds(b)
  {
    SameRows(a, b);
    forall i, j | 0 <= i < j < |b| ensures b[i].id != b[j].id {
      assert b[i] in a && b[j] in a;
      if b[i] == b[j] {
        TwiceIn(b, i, j);
        OnceIn(a, b[i]);
      }
    }
  }

  // Where the rows that are at least as late as `at` end.
  lemma {:induction false} CutPoint(rows: seq<Row>, at: int) returns (j: nat)
    requires Ordered(NotEarlier, rows)
    ensures j <= |rows|
    ensures forall k :: 0 <= k < j ==> rows[k].at >= at
    ensures forall k :: j <= k < |rows| ==> rows[k].at < at
  {
    if rows == [] || rows[|rows| - 1].at >= at {
      j := |rows|;
    } else {
      j := CutPoint(rows[..|rows| - 1], at);
    }
  }

  lemma CutSame(a: seq<Row>, b: seq<Row>, i: nat, j: nat, at: int)
    requires multiset(a) == multiset(b) && i <= |a| && j <= |b|
    requires forall k :: 0 <= k < |a| ==> (a[k].at >= at <==> k < i)
    requires forall k :: 0 <= k < |b| ==> (b[k].at >= at <==> k < j)
    ensures i == j
    ensures multiset(a[..i]) == multiset(b[..j]) && multiset(a[i..]) == multiset(b[j..])
  {
    CountAbove(a, i, at);
    CountAbove(b, j, at);
    assert forall r: Row :: multiset(a[..i])[r] == multiset(b[..j])[r];
    assert multiset(a[..i]) == multiset(b[..j]);
    assert |multiset(a[..i])| == i && |multiset(b[..j])| == j;
    RestOf(a, i);
    RestOf(b, j);
  }

  // Above the cut stands all there is of the later rows, and nothing of the others.
  lemma CountAbove(a: seq<Row>, i: nat, at: int)
    requires i <= |a| && forall k :: 0 <= k < |a| ==> (a[k].at >= at <==> k < i)
    ensures forall r: Row :: multiset(a[..i])[r] == if r.at >= at then multiset(a)[r] else 0
  {
    RestOf(a, i);
    forall r: Row ensures multiset(a[..i])[r] == if r.at >= at then multiset(a)[r] else 0 {
      if r.at >= at {
        assert r !in a[i..];
        assert r !in multiset(a[i..]);
      } else {
        assert r !in a[..i];
        assert r !in multiset(a[..i]);
      }
    }
  }

  lemma RestOf(a: seq<Row>, i: nat)
    requires i <= |a|
    ensures multiset(a) == multiset(a[..i]) + multiset(a[i..]) && multiset(a[i..]) == multiset(a) - multiset(a[..i])
  {
    assert a == a[..i] + a[i..];
  }

  /** A row whose time no other row has stands at the same place in every listing, with the same rows behind it. */
  lemma UniqueStaysPut(a: seq<Row>, b: seq<Row>, m: nat)
    requires ListingOf(a, b) && ListingOf(b, a) && m < |a| && TimeUnique(a, m)
    ensures |a| == |b| && b[m] == a[m] && multiset(b[m + 1..]) == multiset(a[m + 1..])
  {
    SameRows(a, b);
    var at := a[m].at;
    forall k | 0 <= k < |a| ensures (a[k].at >= at <==> k < m + 1) && (a[k].at >= at + 1 <==> k < m) {
      if k < m {
        assert NotEarlier(a[k], a[m]);
      } else if m < k {
        assert NotEarlier(a[m], a[k]);
      }
    }
    var j := CutPoint(b, at);
    var j' := CutPoint(b, at + 1);
    CutSame(a, b, m + 1, j, at);
    CutSame(a, b, m, j', at + 1);
    OneApart(a, b, m);
  }

  lemma OneApart(a: seq<Row>, b: seq<Row>, m: nat)
    requires m < |a| && m < |b|
    requires multiset(a[..m + 1]) == multiset(b[..m + 1]) && multiset(a[..m]) == multiset(b[..m])
    ensures a[m] == b[m]
  {
    assert a[..m + 1] == a[..m] + [a[m]] && b[..m + 1] == b[..m] + [b[m]];
    assert multiset{a[m]} == multiset(a[..m + 1]) - multiset(a[..m]);
    assert multiset{b[m]} == multiset(b[..m + 1]) - multiset(b[..m]);
    assert a[m] in multiset{b[m]};
  }

  // ---------------------------------------------------------------------------
  // Enough: the time at every page boundary is nobody else's
  // ---------------------------------------------------------------------------

  function CursorAt(rows: seq<Row>, q: nat): Option<string>
    requires q <= |rows|
  {
    if q == 0 then None else Some(rows[q - 1].id)
  }

  // What a request sees behind a cursor at a page boundary.
  lemma BehindBoundary(rows: seq<Row>, s: seq<Row>, q: nat, limit: nat)
    requires ListingOf(rows, rows) && ListingOf(s, rows) && DistinctIds(rows)
    requires BoundariesUnique(rows, limit) && 0 < limit
    requires q % limit == 0 && (q == 0 || q < |rows|)
    ensures |s| == |rows| && After(s, CursorAt(rows, q)) == s[q..] && multiset(s[q..]) == multiset(rows[q..])
    ensures q > 0 ==> s[q - 1] == rows[q - 1]
  {
    SameRows(s, rows);
    if q == 0 {
      assert s[0..] == s && rows[0..] == rows;
    } else {
      assert Boundary(q - 1, |rows|, limit);
      UniqueStaysPut(rows, s, q - 1);
      SameDistinctIds(rows, s);
      AfterPosition(s, q - 1);
    }
  }

  lemma PageOf(s: seq<Row>, cursor: Option<string>, q: nat, requested: nat)
    requires q <= |s| && After(s, cursor) == s[q..] && requested > 0
    ensures var r, limit := FindAll(s, cursor, requested), Limit(requested);
            && limit > 0 && r.Page?
            && (r.hasMore <==> q + limit < |s|)
            && (r.hasMore ==> r.items == s[q..q + limit] && r.nextCursor == Some(s[q + limit - 1].id))
            && (!r.hasMore ==> r.items == s[q..])
  {
    hide After;
    var limit := Limit(requested);
    if q + limit < |s| {
      assert s[q..][..limit + 1][..limit] == s[q..q + limit];
    }
  }

  // The page at a boundary of any listing, and where it leads.
  lemma BoundaryPage(rows: seq<Row>, s: seq<Row>, q: nat, requested: nat)
    requires ListingOf(rows, rows) && ListingOf(s, rows) && DistinctIds(rows)
    requires requested > 0 && BoundariesUnique(rows, Limit(requested))
    requires q % Limit(requested) == 0 && (q == 0 || q < |rows|)
    ensures var r, next := FindAll(s, CursorAt(rows, q), requested), q + Limit(requested);
            && |s| == |rows| && multiset(s[q..]) == multiset(rows[q..]) && r.Page? && q < next
            && (r.hasMore <==> next < |rows|)
            && (next < |rows| ==> && next % Limit(requested) == 0 && r.nextCursor == CursorAt(rows, next)
                                  && r.items == s[q..next] && multiset(s[next..]) == multiset(rows[next..]))
            && (!r.hasMore ==> r.items == s[q..])
  {
    hide FindAll, After, BoundariesUnique, Limit, DistinctIds, ListingOf;
    LimitPositive(requested);
    BehindBoundary(rows, s, q, Limit(requested));
    PageOf(s, CursorAt(rows, q), q, requested);
    if q + Limit(requested) < |rows| {
      NextBoundary(q, Limit(requested));
      BehindBoundary(rows, s, q + Limit(requested), Limit(requested));
    }
  }

  lemma {:induction false} BoundariesSuffice(rows: seq<Row>, seen: seq<seq<Row>>, q: nat, requested: nat)
    requires ListingOf(rows, rows) && DistinctIds(rows) && AllListings(seen, rows)
    requires requested > 0 && BoundariesUnique(rows, Limit(requested))
    requires q % Limit(requested) == 0 && (q == 0 || q < |rows|) && |seen| > |rows| - q
    ensures var w := WalkFrom(seen, CursorAt(rows, q), requested);
            w.done && multiset(w.items) == multiset(rows[q..])
    decreases |seen|
  {
    hide FindAll, BoundariesUnique, Limit, DistinctIds, ListingOf, CursorAt;
    var s, next := seen[0], q + Limit(requested);
    BoundaryPage(rows, s, q, requested);
    if next < |rows| {
      BoundariesSuffice(rows, seen[1..], next, requested);
      JoinPages(s, rows, q, next, WalkFrom(seen[1..], CursorAt(rows, next), requested).items);
    }
  }

  lemma JoinPages(s: seq<Row>, rows: seq<Row>, q: nat, next: nat, later: seq<Row>)
    requires q <= next <= |s| == |rows| && multiset(s[q..]) == multiset(rows[q..])
    requires multiset(s[next..]) == multiset(rows[next..]) == multiset(later)
    ensures multiset(s[q..next] + later) == multiset(rows[q..])
  {
    assert s[q..] == s[q..next] + s[next..];
  }

  lemma NextBoundary(q: nat, limit: nat)
    requires 0 < limit && q % limit == 0
    ensures (q + limit) % limit == 0
  {
    var k := q / limit + 1 - (q + limit) / limit;
    assert (q + limit) % limit == limit * k;
    MultipleBound(limit, k);
  }

  lemma MultipleBound(limit: int, k: int)
    requires limit >= 0
    ensures k >= 1 ==> limit * k >= limit
    ensures k <= -1 ==> limit * k <= -limit
  {
    if k >= 1 {
      assert limit * (k - 1) >= 0;
    } else if k <= -1 {
      assert limit * (-k - 1) >= 0;
    }
  }

  // ---------------------------------------------------------------------------
  // Needed: a tie at a boundary breaks some walk
  // ---------------------------------------------------------------------------

  function Swapped(rows: seq<Row>, m: nat, p: nat): seq<Row>
    requires m < |rows| && p < |rows|
  {
    rows[m := rows[p]][p := rows[m]]
  }

  /** Two rows of one time may change places. */
  lemma SwapIsListing(rows: seq<Row>, m: nat, p: nat)
    requires ListingOf(rows, rows) && m < |rows| && p < |rows| && m != p && rows[m].at == rows[p].at
    ensures ListingOf(Swapped(rows, m, p), rows)
  {
    var s := Swapped(rows, m, p);
    assert multiset(s) == multiset(rows);
    forall i, j | 0 <= i < j < |s| ensures NotEarlier(s[i], s[j]) {
      assert NotEarlier(rows[i], rows[j]);
    }
  }

  lemma {:induction false} WalkOne(seen: seq<seq<Row>>, s: seq<Row>, cursor: Option<string>, requested: nat)
    requires forall i :: 0 <= i < |seen| ==> seen[i] == s
    requires DistinctIds(s) && requested > 0 && |seen| > |After(s, cursor)|
    ensures WalkFrom(seen, cursor, requested) == Walk(After(s, cursor), true)
    decreases |seen|
  {
    hide FindAll, After, DistinctIds;
    PageThenRest(s, cursor, requested);
    if FindAll(s, cursor, requested).hasMore {
      WalkOne(seen[1..], s, FindAll(s, cursor, requested).nextCursor, requested);
    }
  }

  // The rows on `c` full pages.
  function Span(c: nat, limit: nat): nat {
    if c == 0 then 0 else limit + Span(c - 1, limit)
  }

  lemma {:induction false} SpanIs(c: nat, limit: nat)
    ensures Span(c, limit) == c * limit
  {
    if c > 0 {
      SpanIs(c - 1, limit);
      assert c * limit == (c - 1) * limit + limit;
    }
  }

  // `c` more requests see `rows` and reach place `m`; the requests after that see something else.
  lemma {:induction false} WalkTwo(seen: seq<seq<Row>>, rows: seq<Row>, c: nat, q: nat, m: nat, requested: nat)
    requires c <= |seen| && forall i :: 0 <= i < c ==> seen[i] == rows
    requires DistinctIds(rows) && requested > 0 && q <= m + 1 < |rows| && q + Span(c, Limit(requested)) == m + 1
    ensures var w, rest := WalkFrom(seen, CursorAt(rows, q), requested), WalkFrom(seen[c..], CursorAt(rows, m + 1), requested);
            w == Walk(rows[q..m + 1] + rest.items, rest.done)
    decreases c
  {
    hide WalkFrom, DistinctIds, Limit, CursorAt;
    if c == 0 {
      assert seen[0..] == seen && rows[q..m + 1] == [];
    } else {
      var next := q + Limit(requested);
      FirstOfWalk(seen, rows, q, requested);
      WalkTwo(seen[1..], rows, c - 1, next, m, requested);
      assert seen[1..][c - 1..] == seen[c..];
      JoinSpans(rows, q, next, m + 1, WalkFrom(seen[c..], CursorAt(rows, m + 1), requested).items);
    }
  }

  lemma FirstOfWalk(seen: seq<seq<Row>>, rows: seq<Row>, q: nat, requested: nat)
    requires seen != [] && seen[0] == rows && DistinctIds(rows) && requested > 0 && q + Limit(requested) < |rows|
    ensures var next := q + Limit(requested);
            var rest := WalkFrom(seen[1..], CursorAt(rows, next), requested);
            WalkFrom(seen, CursorAt(rows, q), requested) == Walk(rows[q..next] + rest.items, rest.done)
  {
    hide FindAll, DistinctIds, Limit, CursorAt;
    FullPage(rows, q, requested);
  }

  lemma JoinSpans(rows: seq<Row>, q: nat, next: nat, end: nat, items: seq<Row>)
    requires q <= next <= end <= |rows|
    ensures rows[q..next] + (rows[next..end] + items) == rows[q..end] + items
  {
    assert rows[q..end] == rows[q..next] + rows[next..end];
  }

  lemma FullPage(rows: seq<Row>, q: nat, requested: nat)
    requires DistinctIds(rows) && requested > 0 && q + Limit(requested) < |rows|
    ensures var next := q + Limit(requested);
            FindAll(rows, CursorAt(rows, q), requested) == Page(rows[q..next], CursorAt(rows, next), true)
  {
    hide FindAll, After, DistinctIds, Limit;
    LimitPositive(requested);
    CursorView(rows, q);
    PageOf(rows, CursorAt(rows, q), q, requested);
  }

  lemma CursorView(rows: seq<Row>, q: nat)
    requires DistinctIds(rows) && q <= |rows|
    ensures After(rows, CursorAt(rows, q)) == rows[q..]
  {
    if q > 0 {
      AfterPosition(rows, q - 1);
    }
  }

  function Copies(s: seq<Row>, n: nat): (seen: seq<seq<Row>>)
    ensures |seen| == n && forall i :: 0 <= i < n ==> seen[i] == s
  {
    if n == 0 then [] else Copies(s, n - 1) + [s]
  }

  // The listing and its swapped form, one after the other, give a wrong number of rows.
  lemma TieMiscounts(rows: seq<Row>, m: nat, p: nat, c: nat, requested: nat)
    requires ListingOf(rows, rows) && DistinctIds(rows) && requested > 0
    requires m + 1 < |rows| && c * Limit(requested) == m + 1 && p < |rows| && p != m && rows[p].at == rows[m].at
    ensures var seen := Copies(rows, c) + Copies(Swapped(rows, m, p), |rows| + 1);
            AllListings(seen, rows) && |WalkFrom(seen, None, requested).items| != |rows|
  {
    hide WalkFrom, Limit, After, DistinctIds, ListingOf;
    var s := Swapped(rows, m, p);
    var tail := Copies(s, |rows| + 1);
    var seen := Copies(rows, c) + tail;
    SwapIsListing(rows, m, p);
    SwappedAfter(rows, m, p);
    assert seen[c..] == tail;
    SpanIs(c, Limit(requested));
    WalkTwo(seen, rows, c, 0, m, requested);
    WalkOne(tail, s, CursorAt(rows, m + 1), requested);
  }

  lemma SwappedAfter(rows: seq<Row>, m: nat, p: nat)
    requires DistinctIds(rows) && m < |rows| && p < |rows|
    ensures var s := Swapped(rows, m, p);
            DistinctIds(s) && After(s, CursorAt(rows, m + 1)) == s[p + 1..]
  {
    var s := Swapped(rows, m, p);
    assert multiset(s) == multiset(rows);
    SameDistinctIds(rows, s);
    AfterPosition(s, p);
  }

  /** A tie at a page boundary: some requests see a listing in which a row is lost or comes twice. */
  lemma TieBreaksWalk(rows: seq<Row>, m: nat, p: nat, requested: nat)
    requires ListingOf(rows, rows) && DistinctIds(rows) && requested > 0
    requires Boundary(m, |rows|, Limit(requested)) && p < |rows| && p != m && rows[p].at == rows[m].at
    ensures !Complete(rows, requested)
  {
    hide WalkFrom, Limit, DistinctIds, ListingOf;
    var c := (m + 1) / Limit(requested);
    assert c * Limit(requested) == m + 1;
    TieMiscounts(rows, m, p, c, requested);
    var seen := Copies(rows, c) + Copies(Swapped(rows, m, p), |rows| + 1);
    var w := WalkFrom(seen, None, requested);
    if multiset(w.items) == multiset(rows) {
      SameRows(w.items, rows);
    }
  }

  /**
   For a page size, the pages hold every row once whatever listing each request sees, if and only if no
   row at the end of a page but the last shares its time. A page size of zero works for no rows only.
   */
  lemma CompleteExact(rows: seq<Row>, listing: seq<Row>, requested: nat)
    requires ListingOf(listing, rows) && DistinctIds(rows)
    ensures Complete(rows, requested) <==>
            if requested == 0 then rows == [] else BoundariesUnique(listing, Limit(requested))
  {
    hide WalkFrom, Limit, DistinctIds;
    SameRows(rows, listing);
    SameDistinctIds(rows, listing);
    SameComplete(rows, listing, requested);
    if requested == 0 {
      ZeroExact(rows, listing);
    } else if BoundariesUnique(listing, Limit(requested)) {
      LimitPositive(requested);
      forall seen | |seen| > |listing| && AllListings(seen, listing)
        ensures WalkFrom(seen, None, requested).done && multiset(WalkFrom(seen, None, requested).items) == multiset(listing)
      {
        BoundariesSuffice(listing, seen, 0, requested);
        assert listing[0..] == listing;
      }
    } else {
      var m: nat :| Boundary(m, |listing|, Limit(requested)) && !TimeUnique(listing, m);
      var p: nat :| p < |listing| && p != m && listing[p].at == listing[m].at;
      TieBreaksWalk(listing, m, p, requested);
    }
  }

  lemma SameComplete(a: seq<Row>, b: seq<Row>, requested: nat)
    requires multiset(a) == multiset(b)
    ensures Complete(a, requested) <==> Complete(b, requested)
  {
    hide WalkFrom;
    SameRows(a, b);
    forall seen ensures AllListings(seen, a) <==> AllListings(seen, b) {}
  }

  lemma ZeroExact(rows: seq<Row>, listing: seq<Row>)
    requires ListingOf(listing, rows)
    ensures Complete(rows, 0) <==> rows == []
  {
    SameRows(rows, listing);
    var seen := Copies(listing, |rows| + 1);
    assert AllListings(seen, rows);
    CrashExact(seen[0], None, 0);
    if rows == [] {
      forall seen | |seen| > 0 && AllListings(seen, rows)
        ensures WalkFrom(seen, None, 0) == Walk([], true)
      {
        SameRows(seen[0], rows);
        assert seen[0] == [];
      }
    }
  }

  /** So every page size is safe if and only if no two matching rows share a time. */
  lemma PagingExact(table: seq<Row>, wanted: Row -> bool)
    requires DistinctIds(Filter(wanted, table))
    ensures (forall requested: nat :: requested > 0 ==> Complete(Filter(wanted, table), requested)) <==>
            DistinctTimes(Filter(wanted, table))
  {
    hide Complete, DistinctIds;
    var rows := Filter(wanted, table);
    var listing := Sort(NotEarlier, rows);
    SortMultiset(NotEarlier, rows);
    SortOrdered(NotEarlier, rows);
    SameRows(rows, listing);
    SameDistinctIds(rows, listing);
    SameDistinctTimes(rows, listing);
    CompleteExact(rows, listing, 1);
    if DistinctTimes(rows) {
      forall requested: nat | requested > 0 ensures Complete(rows, requested) {
        CompleteExact(rows, listing, requested);
      }
    }
    if Complete(rows, 1) {
      forall i, j | 0 <= i < |listing| && 0 <= j < |listing| && i != j ensures listing[i].at != listing[j].at {
        var m, p := if i < j then i else j, if i < j then j else i;
        assert Boundary(m, |listing|, Limit(1));
        assert TimeUnique(listing, m);
      }
    }
  }

  lemma SameDistinctTimes(a: seq<Row>, b: seq<Row>)
    requires multiset(a) == multiset(b) && DistinctIds(a) && DistinctIds(b)
    ensures DistinctTimes(a) <==> DistinctTimes(b)
  {
    if DistinctTimes(a) {
      DistinctTimesCarry(a, b);
    }
    if DistinctTimes(b) {
      DistinctTimesCarry(b, a);
    }
  }

  lemma DistinctTimesCarry(a: seq<Row>, b: seq<Row>)
    requires multiset(a) == multiset(b) && DistinctIds(b) && DistinctTimes(a)
    ensures DistinctTimes(b)
  {
    SameRows(a, b);
    forall i, j | 0 <= i < |b| && 0 <= j < |b| && i != j ensures b[i].at != b[j].at {
      assert b[i].id != b[j].id by {
        if i < j {} else { assert b[j].id != b[i].id; }
      }
      assert b[i] in a && b[j] in a;
    }
  }

  /** With a tie between neighbours, a listing exists in which the second is behind neither page nor cursor. */
  lemma TieLosesRow(rows: seq<Row>, i: nat) returns (seen: seq<Row>)
    requires ListingOf(rows, rows) && DistinctIds(rows) && i + 1 < |rows| && rows[i].at == rows[i + 1].at
    ensures ListingOf(seen, rows)
    ensures rows[i + 1] !in rows[..i + 1] && rows[i + 1] !in After(seen, Some(rows[i].id))
  {
    seen := Swapped(rows, i, i + 1);
    SwapIsListing(rows, i, i + 1);
    SameDistinctIds(rows, seen);
    AfterPosition(seen, i + 1);
    forall k | i + 2 <= k < |seen| ensures seen[k] != rows[i + 1] {
      assert rows[i + 1].id != rows[k].id;
    }
  }
}
