/** Keyset pagination of the opportunity list, with the bounded scan of the eligible-only filter. */
module Pagination {
  import opened Wrappers

  const BATCH := 100
  const MAX_BATCHES := 10

  /** The keyset: publication instant (the epoch when unknown) and identifier. */
  datatype Row = Row(published: int, id: int)

  predicate Below(a: Row, b: Row) {
    a.published < b.published || (a.published == b.published && a.id < b.id)
  }

  /** The table after the fixed filters, in the order of the query. */
  ghost predicate Descending(rows: seq<Row>) {
    forall i, j :: 0 <= i < j < |rows| ==>
      rows[j].published < rows[i].published || (rows[j].published == rows[i].published && rows[j].id < rows[i].id)
  }

  function RowsBelow(rows: seq<Row>, cursor: Row): seq<Row> {
    if rows == [] then []
    else (if Below(rows[0], cursor) then [rows[0]] else []) + RowsBelow(rows[1..], cursor)
  }

  function From(rows: seq<Row>, cursor: Option<Row>): seq<Row> {
    if cursor == None then rows else RowsBelow(rows, cursor.value)
  }

  function Limit(rows: seq<Row>, n: nat): seq<Row> {
    if |rows| <= n then rows else rows[..n]
  }

  datatype Filter = Filter(eligibleOnly: bool, eligible: Row -> bool)

  predicate Keeps(f: Filter, r: Row) {
    !f.eligibleOnly || f.eligible(r)
  }

  function Kept(f: Filter, rows: seq<Row>): seq<Row> {
    if rows == [] then []
    else Kept(f, rows[..|rows| - 1]) + if Keeps(f, rows[|rows| - 1]) then [rows[|rows| - 1]] else []
  }

  datatype Page = Page(items: seq<Row>, next: Option<Row>)

  /** What one request returns, as a function of the rows that follow its cursor: the first `limit` kept
      rows and a cursor at the last of them when more are kept; otherwise everything kept in the scanned
      window, with a cursor at the end of the window when the scan bound was reached. */
  function PageOf(f: Filter, rest: seq<Row>, limit: nat): Page
    requires 1 <= limit
  {
    var bound := BATCH * MAX_BATCHES;
    var found := Kept(f, if f.eligibleOnly then Limit(rest, bound) else rest);
    if |found| > limit then Page(found[..limit], Some(found[limit - 1]))
    else if f.eligibleOnly && |rest| >= bound then Page(found, Some(rest[bound - 1]))
    else Page(found, None)
  }

  // ----- facts about filtering

  lemma KeptExtends(f: Filter, rows: seq<Row>, n: nat)
    requires n < |rows|
    ensures Kept(f, rows[..n + 1]) == Kept(f, rows[..n]) + if Keeps(f, rows[n]) then [rows[n]] else []
  {
    assert rows[..n + 1][..n] == rows[..n];
  }

  lemma {:induction false} KeptConcat(f: Filter, a: seq<Row>, b: seq<Row>)
    ensures Kept(f, a + b) == Kept(f, a) + Kept(f, b)
  {
    if b == [] {
      assert a + b == a;
    } else {
      var n := |b| - 1;
      assert (a + b)[..|a| + n] == a + b[..n];
      KeptConcat(f, a, b[..n]);
    }
  }

  lemma KeptPrefix(f: Filter, rows: seq<Row>, n: nat)
    requires n <= |rows|
    ensures Kept(f, rows[..n]) <= Kept(f, rows)
    ensures Kept(f, rows) == Kept(f, rows[..n]) + Kept(f, rows[n..])
  {
    assert rows == rows[..n] + rows[n..];
    KeptConcat(f, rows[..n], rows[n..]);
  }

  lemma {:induction false} RowsBelowSuffix(rows: seq<Row>, cursor: Row) returns (n: nat)
    requires Descending(rows)
    ensures n <= |rows| && RowsBelow(rows, cursor) == rows[n..]
  {
    if rows == [] {
      n := 0;
    } else if Below(rows[0], cursor) {
      var m := RowsBelowSuffix(rows[1..], cursor);
      AllBelow(rows, cursor);
      n := 0;
    } else {
      var m := RowsBelowSuffix(rows[1..], cursor);
      n := m + 1;
    }
  }

  lemma {:induction false} AllBelow(rows: seq<Row>, cursor: Row)
    requires forall i :: 0 <= i < |rows| ==> Below(rows[i], cursor) || (i > 0 && Below(rows[i], rows[0]) && Below(rows[0], cursor))
    ensures RowsBelow(rows, cursor) == rows
  {
    if rows != [] {
      AllBelow(rows[1..], cursor);
    }
  }

  /** Continuing below a row of the table is continuing after its position. */
  lemma {:induction false} RowsBelowMember(rows: seq<Row>, k: nat)
    requires Descending(rows) && k < |rows|
    ensures RowsBelow(rows, rows[k]) == rows[k + 1..]
  {
    if k == 0 {
      AllBelow(rows[1..], rows[0]);
    } else {
      assert !Below(rows[0], rows[k]) by { assert Below(rows[k], rows[0]); }
      RowsBelowMember(rows[1..], k - 1);
    }
  }

  // ----- the request

  /** Evaluates one batch of rows after `scanned` earlier rows. */
  method ScanBatch(f: Filter, limit: nat, before: seq<Row>, batch: seq<Row>, ghost scanned: seq<Row>)
    returns (items: seq<Row>, next: Option<Row>)
    requires 1 <= limit && |before| <= limit && before == Kept(f, scanned)
    ensures next == None ==> items == Kept(f, scanned + batch) && |items| <= limit
    ensures next.Some? ==> |items| == limit && next == Some(items[limit - 1])
                           && items < Kept(f, scanned + batch)
  {
    items, next := before, None;
    KeptConcat(f, scanned, batch);
    for j := 0 to |batch|
      invariant items == Kept(f, scanned) + Kept(f, batch[..j]) && |items| <= limit
    {
      KeptExtends(f, batch, j);
      KeptPrefix(f, batch, j + 1);
      KeptPrefix(f, batch, j);
      var row := batch[j];
      if !f.eligibleOnly && |items| == limit {
        return items, Some(items[|items| - 1]);
      }
      if f.eligibleOnly && !f.eligible(row) {
        continue;
      }
      if |items| == limit {
        return items, Some(items[|items| - 1]);
      }
      items := items + [row];
    }
    assert batch[..|batch|] == batch;
  }

  method ListOpportunities(f: Filter, table: seq<Row>, limit: nat, cursor: Option<Row>) returns (page: Page)
    requires Descending(table) && 1 <= limit <= 100
    ensures page == PageOf(f, From(table, cursor), limit)
  {
    var p := FromIsSuffix(table, cursor);
    page := ScanFrom(f, From(table, cursor), limit);
  }

  /** The loop over at most ten batches; the statement is narrowed below the last row of each. */
  method ScanFrom(f: Filter, rest: seq<Row>, limit: nat) returns (page: Page)
    requires Descending(rest) && 1 <= limit <= 100
    ensures page == PageOf(f, rest, limit)
  {
    var remaining := rest;
    var items, next := [], None;
    for batch := 0 to MAX_BATCHES
      invariant batch < MAX_BATCHES && next == None && BATCH * batch <= |rest| && (batch > 0 ==> f.eligibleOnly)
      invariant remaining == rest[BATCH * batch..]
      invariant items == Kept(f, rest[..BATCH * batch]) && |items| <= limit
    {
      ghost var scanned := BATCH * batch;
      var rows := Limit(remaining, if f.eligibleOnly then BATCH else limit + 1);
      BatchFollows(rest, scanned, rows);
      items, next := ScanBatch(f, limit, items, rows, rest[..scanned]);
      if next.Some? || !f.eligibleOnly || |rows| < BATCH {
        PageEnds(f, rest, limit, scanned, rows, Page(items, next));
        return Page(items, next);
      }
      var last := rows[|rows| - 1];
      if batch == MAX_BATCHES - 1 {
        BoundReached(f, rest, limit, items);
        return Page(items, Some(last));
      }
      BatchAdvances(rest, scanned);
      remaining := RowsBelow(remaining, last);
    }
    assert false;
  }

  lemma BatchAdvances(rest: seq<Row>, scanned: nat)
    requires Descending(rest) && scanned + BATCH <= |rest|
    ensures RowsBelow(rest[scanned..], rest[scanned..][BATCH - 1]) == rest[scanned + BATCH..]
  {
    RowsBelowMember(rest[scanned..], BATCH - 1);
    assert rest[scanned..][BATCH..] == rest[scanned + BATCH..];
  }

  lemma BatchFollows(rest: seq<Row>, scanned: nat, rows: seq<Row>)
    requires scanned <= |rest| && rows <= rest[scanned..]
    ensures rest[..scanned] + rows == rest[..scanned + |rows|]
  {
  }

  lemma BoundReached(f: Filter, rest: seq<Row>, limit: nat, items: seq<Row>)
    requires 1 <= limit && f.eligibleOnly && |rest| >= BATCH * MAX_BATCHES
    requires items == Kept(f, rest[..BATCH * MAX_BATCHES]) && |items| <= limit
    ensures PageOf(f, rest, limit) == Page(items, Some(rest[BATCH * MAX_BATCHES - 1]))
  {
    assert Limit(rest, BATCH * MAX_BATCHES) == rest[..BATCH * MAX_BATCHES];
  }

  /** A page that ends inside a batch is the page of the specification. */
  lemma PageEnds(f: Filter, rest: seq<Row>, limit: nat, scanned: nat, rows: seq<Row>, page: Page)
    requires 1 <= limit <= 100 && scanned <= |rest| && scanned <= BATCH * (MAX_BATCHES - 1)
    requires f.eligibleOnly || scanned == 0
    requires rows == Limit(rest[scanned..], if f.eligibleOnly then BATCH else limit + 1)
    requires page.next.Some? || !f.eligibleOnly || |rows| < BATCH
    requires page.next == None ==> page.items == Kept(f, rest[..scanned + |rows|]) && |page.items| <= limit
    requires page.next.Some? ==> |page.items| == limit && page.next == Some(page.items[limit - 1])
                                 && page.items < Kept(f, rest[..scanned + |rows|])
    ensures page == PageOf(f, rest, limit)
  {
    var window := if f.eligibleOnly then Limit(rest, BATCH * MAX_BATCHES) else rest;
    var end := scanned + |rows|;
    assert rest[..end] == window[..end];
    KeptPrefix(f, window, end);
    if page.next.Some? {
      PrefixOf(page.items, Kept(f, window[..end]), Kept(f, window), limit);
    } else {
      EndOfRows(f, rest, limit, scanned, rows);
    }
  }

  lemma PrefixOf(items: seq<Row>, part: seq<Row>, whole: seq<Row>, limit: nat)
    requires |items| == limit && items < part && part <= whole
    ensures |whole| > limit && whole[..limit] == items && (limit >= 1 ==> whole[limit - 1] == items[limit - 1])
  {
  }

  /** A batch that is not full, or the only one without the filter, when it leaves the page unfilled, is the
      last of the table. */
  lemma EndOfRows(f: Filter, rest: seq<Row>, limit: nat, scanned: nat, rows: seq<Row>)
    requires scanned <= |rest| && scanned <= BATCH * (MAX_BATCHES - 1) && (f.eligibleOnly || scanned == 0)
    requires rows == Limit(rest[scanned..], if f.eligibleOnly then BATCH else limit + 1)
    requires !f.eligibleOnly || |rows| < BATCH
    requires |Kept(f, rest[..scanned + |rows|])| <= limit
    ensures scanned + |rows| == |rest| && rest[..scanned + |rows|] == rest
  {
    if !f.eligibleOnly {
      KeptAll(f, rest[..scanned + |rows|]);
    }
  }

  lemma {:induction false} KeptAll(f: Filter, rows: seq<Row>)
    requires !f.eligibleOnly
    ensures Kept(f, rows) == rows
  {
    if rows != [] {
      KeptAll(f, rows[..|rows| - 1]);
    }
  }

  lemma FromIsSuffix(table: seq<Row>, cursor: Option<Row>) returns (p: nat)
    requires Descending(table)
    ensures p <= |table| && From(table, cursor) == table[p..]
    ensures Descending(From(table, cursor))
  {
    if cursor == None {
      p := 0;
    } else {
      p := RowsBelowSuffix(table, cursor.value);
    }
  }

  // ----- following the cursors

  /** A page consumes at least one row when it has a continuation, and exactly its kept rows are returned. */
  lemma PageConsumes(f: Filter, rest: seq<Row>, limit: nat) returns (n: nat)
    requires 1 <= limit
    ensures n <= |rest|
    ensures var page := PageOf(f, rest, limit);
            && page.items == Kept(f, rest[..n]) && |page.items| <= limit
            && (if page.next == None then n == |rest| else n >= 1 && page.next == Some(rest[n - 1]))
            && (page.next.Some? && |page.items| < limit ==> f.eligibleOnly && n == BATCH * MAX_BATCHES)
  {
    var page := PageOf(f, rest, limit);
    var window := if f.eligibleOnly then Limit(rest, BATCH * MAX_BATCHES) else rest;
    if |Kept(f, window)| > limit {
      n := PositionOfKept(f, window, limit);
      assert window[..n] == rest[..n];
    } else {
      n := |window|;
      assert rest[..n] == window;
    }
  }

  /** The position just after the `m`-th kept row. */
  lemma {:induction false} PositionOfKept(f: Filter, rows: seq<Row>, m: nat) returns (n: nat)
    requires 1 <= m <= |Kept(f, rows)|
    ensures 1 <= n <= |rows| && Kept(f, rows[..n]) == Kept(f, rows)[..m]
    ensures rows[n - 1] == Kept(f, rows)[m - 1]
  {
    var k := |rows| - 1;
    if Keeps(f, rows[k]) && m == |Kept(f, rows)| {
      n := |rows|;
      assert rows[..n] == rows;
    } else {
      n := PositionOfKept(f, rows[..k], m);
      assert rows[..k][..n] == rows[..n];
    }
  }

  lemma NextContinues(f: Filter, table: seq<Row>, limit: nat, cursor: Option<Row>) returns (n: nat)
    requires Descending(table) && 1 <= limit
    ensures var rest := From(table, cursor);
            var page := PageOf(f, rest, limit);
            && n <= |rest| && page.items == Kept(f, rest[..n]) && |page.items| <= limit
            && (page.next == None ==> n == |rest|)
            && (page.next.Some? ==> n >= 1 && page.next == Some(rest[n - 1]) && From(table, page.next) == rest[n..])
            && (page.next.Some? && cursor.Some? ==> Below(page.next.value, cursor.value))
            && (page.next.Some? && |page.items| < limit ==> f.eligibleOnly && n == BATCH * MAX_BATCHES)
  {
    var rest := From(table, cursor);
    n := PageConsumes(f, rest, limit);
    if n >= 1 {
      ContinueAt(table, cursor, n);
    }
  }

  lemma ContinueAt(table: seq<Row>, cursor: Option<Row>, n: nat)
    requires Descending(table) && 1 <= n <= |From(table, cursor)|
    ensures var rest := From(table, cursor);
            && RowsBelow(table, rest[n - 1]) == rest[n..]
            && (cursor.Some? ==> Below(rest[n - 1], cursor.value))
  {
    var p := FromIsSuffix(table, cursor);
    SuffixContinues(table, p, n);
    if cursor.Some? {
      BelowCursor(table, cursor.value);
      assert table[p..][n - 1] in table[p..];
    }
  }

  lemma SuffixContinues(table: seq<Row>, p: nat, n: nat)
    requires Descending(table) && p + n <= |table| && 1 <= n
    ensures RowsBelow(table, table[p..][n - 1]) == table[p..][n..]
  {
    var last := p + n - 1;
    SliceOfSlice(table, p, n);
    RowsBelowMember(table, last);
    assert table[last + 1..] == table[p + n..];
  }

  lemma SliceOfSlice(table: seq<Row>, p: nat, n: nat)
    requires p + n <= |table| && 1 <= n
    ensures table[p..][n - 1] == table[p + n - 1] && table[p..][n..] == table[p + n..]
  {
  }

  lemma {:induction false} BelowCursor(rows: seq<Row>, cursor: Row)
    ensures forall r :: r in RowsBelow(rows, cursor) ==> Below(r, cursor)
  {
    if rows != [] {
      BelowCursor(rows[1..], cursor);
    }
  }

  /** All items a client collects by following next_cursor until there is none. */
  function FollowCursors(f: Filter, table: seq<Row>, limit: nat, cursor: Option<Row>): seq<seq<Row>>
    requires 1 <= limit
    decreases |From(table, cursor)|
  {
    var page := PageOf(f, From(table, cursor), limit);
    if page.next == None || |From(table, page.next)| >= |From(table, cursor)| then [page.items]
    else [page.items] + FollowCursors(f, table, limit, page.next)
  }

  function Flatten(pages: seq<seq<Row>>): seq<Row> {
    if pages == [] then [] else pages[0] + Flatten(pages[1..])
  }

  /** One step of the walk: the page's items, then whatever the rest of the walk gives. */
  lemma FollowOne(f: Filter, table: seq<Row>, limit: nat, cursor: Option<Row>) returns (n: nat)
    requires Descending(table) && 1 <= limit
    ensures var rest := From(table, cursor);
            var page := PageOf(f, rest, limit);
            && n <= |rest| && |page.items| <= limit
            && (page.next == None ==>
                  FollowCursors(f, table, limit, cursor) == [page.items] && Kept(f, rest) == page.items)
            && (page.next.Some? ==>
                  && FollowCursors(f, table, limit, cursor) == [page.items] + FollowCursors(f, table, limit, page.next)
                  && n >= 1 && |From(table, page.next)| == |rest| - n
                  && Kept(f, rest) == page.items + Kept(f, From(table, page.next))
                  && (|page.items| < limit ==> f.eligibleOnly && n == BATCH * MAX_BATCHES))
  {
    var rest := From(table, cursor);
    n := NextContinues(f, table, limit, cursor);
    KeptPrefix(f, rest, n);
    FollowUnfolds(f, table, limit, cursor);
    if PageOf(f, rest, limit).next == None {
      assert rest[..n] == rest;
    }
  }

  lemma FollowUnfolds(f: Filter, table: seq<Row>, limit: nat, cursor: Option<Row>)
    requires 1 <= limit
    ensures var page := PageOf(f, From(table, cursor), limit);
            FollowCursors(f, table, limit, cursor)
            == if page.next == None || |From(table, page.next)| >= |From(table, cursor)| then [page.items]
               else [page.items] + FollowCursors(f, table, limit, page.next)
  {
  }

  /** The pages are exactly the filtered rows in order, without loss or repetition; no page is longer than
      the limit; and every cursor leaves strictly fewer rows, so the walk ends. */
  lemma {:induction false} PagesCoverTable(f: Filter, table: seq<Row>, limit: nat, cursor: Option<Row>)
    requires Descending(table) && 1 <= limit
    ensures Flatten(FollowCursors(f, table, limit, cursor)) == Kept(f, From(table, cursor))
    ensures forall p :: p in FollowCursors(f, table, limit, cursor) ==> |p| <= limit
    ensures var page := PageOf(f, From(table, cursor), limit);
            page.next.Some? ==> |From(table, page.next)| < |From(table, cursor)|
    decreases |From(table, cursor)|
  {
    var page := PageOf(f, From(table, cursor), limit);
    var n := FollowOne(f, table, limit, cursor);
    var more := [];
    if page.next.Some? {
      PagesCoverTable(f, table, limit, page.next);
      more := FollowCursors(f, table, limit, page.next);
    }
    assert FollowCursors(f, table, limit, cursor) == [page.items] + more;
    assert ([page.items] + more)[1..] == more;
  }

  /** How many requests it takes to read everything: apart from the last page, every page is full or its
      request has passed over a thousand rows, and without the eligible-only filter every one is full. */
  lemma {:induction false} RequestsAreFew(f: Filter, table: seq<Row>, limit: nat, cursor: Option<Row>)
    returns (full: nat, sparse: nat)
    requires Descending(table) && 1 <= limit
    ensures |FollowCursors(f, table, limit, cursor)| == full + sparse + 1
    ensures full * limit <= |Kept(f, From(table, cursor))|
    ensures sparse * (BATCH * MAX_BATCHES) <= |From(table, cursor)|
    ensures !f.eligibleOnly ==> sparse == 0
    decreases |From(table, cursor)|
  {
    var page := PageOf(f, From(table, cursor), limit);
    var n := FollowOne(f, table, limit, cursor);
    if page.next == None {
      return 0, 0;
    }
    var rest := From(table, page.next);
    full, sparse := RequestsAreFew(f, table, limit, page.next);
    assert |Kept(f, From(table, cursor))| == |page.items| + |Kept(f, rest)|;
    if |page.items| == limit {
      OneMore(full, limit, |Kept(f, rest)|);
      full := full + 1;
    } else {
      sparse := sparse + 1;
    }
  }

  lemma OneMore(full: nat, limit: nat, kept: nat)
    requires full * limit <= kept
    ensures (full + 1) * limit <= limit + kept
  {
    assert (full + 1) * limit == full * limit + limit;
  }
}
