/** internal/transfer/store/transactions.go and internal/transfer/service/history.go: keyset
    pagination over the transactions table, which may grow between two page reads. */
module History {
  import opened Results
  import opened Bank
  import opened Cursors

  // ----- The page query -----

  /** ORDER BY created_at DESC, id DESC: `a` comes before `b`. */
  predicate Newer(a: Row, b: Row) {
    a.createdAt > b.createdAt || (a.createdAt == b.createdAt && a.id > b.id)
  }

  /** The primary key (id, created_at). */
  predicate Keyed(rows: seq<Row>) {
    forall i, j :: 0 <= i < j < |rows| ==> KeysDiffer(rows[i], rows[j])
  }

  predicate KeysDiffer(a: Row, b: Row) {
    a.id != b.id || a.createdAt != b.createdAt
  }

  predicate Descending(rows: seq<Row>) {
    forall i, j :: 0 <= i < j < |rows| ==> Newer(rows[i], rows[j])
  }

  /** What the driver makes of a bound timestamp: Postgres keeps microseconds. */
  function Micros(nanos: int): int {
    nanos - nanos % 1000
  }

  lemma MicrosIsFloor(nanos: int)
    ensures Micros(nanos) % 1000 == 0 && Micros(nanos) <= nanos < Micros(nanos) + 1000
  {
  }

  /** The WHERE clause: the account, and unless the cursor is the start marker
      (created_at, id) < cursor. */
  predicate Wanted(r: Row, account: int, c: Cursor) {
    && r.account == account
    && (c.createdAt == ZERO_TIME || r.createdAt < Micros(c.createdAt)
        || (r.createdAt == Micros(c.createdAt) && r.id < c.id))
  }

  function Select(rows: seq<Row>, account: int, c: Cursor): seq<Row> {
    if rows == [] then []
    else (if Wanted(rows[0], account, c) then [rows[0]] else []) + Select(rows[1..], account, c)
  }

  function Insert(r: Row, sorted: seq<Row>): seq<Row> {
    if sorted == [] || Newer(r, sorted[0]) then [r] + sorted else [sorted[0]] + Insert(r, sorted[1..])
  }

  function Sort(rows: seq<Row>): seq<Row> {
    if rows == [] then [] else Insert(rows[0], Sort(rows[1..]))
  }

  /** Everything the query matches, in its order, before the LIMIT. */
  function Matching(table: seq<Row>, account: int, c: Cursor): seq<Row> {
    Sort(Select(table, account, c))
  }

  function Take(rows: seq<Row>, limit: nat): seq<Row> {
    if |rows| <= limit then rows else rows[..limit]
  }

  /** The query as it is put together, clause by clause. */
  datatype Query = Query(account: int, before: Option<Cursor>, limit: nat)

  function Run(table: seq<Row>, q: Query): seq<Row> {
    Take(Matching(table, q.account, if q.before.Some? then q.before.value else START), q.limit)
  }

  /** What the caller wants of a page, without sorting anything: wanted rows only, newest first,
      at most `limit` of them, and none left out that is newer than one shown or would still fit. */
  predicate IsFirst(items: seq<Row>, table: seq<Row>, account: int, c: Cursor, limit: nat) {
    && Descending(items) && |items| <= limit
    && (forall r :: r in items ==> r in table && Wanted(r, account, c))
    && (forall r :: r in table && Wanted(r, account, c) && r !in items ==>
          |items| == limit && forall shown :: shown in items ==> Newer(shown, r))
  }

  method TransactionHistoryPage(table: seq<Row>, account: int, c: Cursor, limit: nat) returns (items: seq<Row>)
    ensures items == Take(Matching(table, account, c), limit)
    ensures Keyed(table) ==> IsFirst(items, table, account, c, limit)
    ensures Keyed(table) ==> forall i, j :: 0 <= i < j < |items| ==>
      items[i].createdAt > items[j].createdAt || (items[i].createdAt == items[j].createdAt && items[i].id > items[j].id)
    ensures forall r :: r in items ==> r.account == account
    ensures c.createdAt != ZERO_TIME ==> forall r :: r in items ==>
      r.createdAt < Micros(c.createdAt) || (r.createdAt == Micros(c.createdAt) && r.id < c.id)
  {
    var qb := Query(account, None, limit);
    if c.createdAt != ZERO_TIME {
      qb := qb.(before := Some(c));
    } else {
      SelectFromStart(table, account, c);
    }
    var rows := Run(table, qb);
    items := [];
    for i := 0 to |rows|
      invariant items == rows[..i]
    {
      items := items + [rows[i]];
    }
    MatchingMembers(table, account, c);
    assert forall r :: r in rows ==> r in Matching(table, account, c);
    if Keyed(table) {
      TakenIsFirst(table, account, c, limit);
    }
  }

  lemma TakenIsFirst(table: seq<Row>, account: int, c: Cursor, limit: nat)
    requires Keyed(table)
    ensures IsFirst(Take(Matching(table, account, c), limit), table, account, c, limit)
  {
    var m := Matching(table, account, c);
    SelectionDescends(table, account, c);
    MatchingMembers(table, account, c);
    if |m| > limit {
      assert m == m[..limit] + m[limit..];
      forall r, shown | r in m[limit..] && shown in m[..limit] ensures Newer(shown, r) {
        var j :| 0 <= j < |m[limit..]| && m[limit..][j] == r;
        assert m[limit + j] == r;
      }
    }
  }

  lemma {:induction false} SelectFromStart(table: seq<Row>, account: int, c: Cursor)
    requires c.createdAt == ZERO_TIME
    ensures Select(table, account, c) == Select(table, account, START)
  {
    if table != [] {
      SelectFromStart(table[1..], account, c);
    }
  }

  // ----- One page -----

  datatype Page = Page(items: seq<Row>, nextCursor: string, hasMore: bool)

  function CursorOf(r: Row): Cursor {
    Cursor(r.createdAt, r.id)
  }

  /** The page that belongs to a matching list and a limit. */
  function PageOf(matching: seq<Row>, limit: nat): Page {
    Page(Take(matching, limit),
         if |matching| > limit && limit > 0 then Encoded(CursorOf(matching[limit - 1])) else "",
         |matching| > limit)
  }

  function Listed(table: seq<Row>, account: int, cursor: string, limit: nat): Result<Page, CursorError> {
    match Decoded(cursor)
    case Err(e) => Err(e)
    case Ok(c) => Ok(PageOf(Matching(table, account, c), limit))
  }

  /** One row more than asked for is fetched, and trimmed off again. */
  method ListTransactionHistory(table: seq<Row>, account: int, cursor: string, limit: nat) returns (r: Result<Page, CursorError>)
    ensures r == Listed(table, account, cursor, limit)
    ensures r.Ok? <==> cursor == "" || (|SkipBreaks(cursor)| == 22 && AllSymbols(SkipBreaks(cursor)))
    ensures r.Ok? && Keyed(table) ==> IsPage(r.value, table, account, Decoded(cursor).value, limit)
  {
    ListedIsPage(table, account, cursor, limit);
    var decoded := Decoded(cursor);
    if decoded.Err? {
      return Err(decoded.error);
    }
    var items := TransactionHistoryPage(table, account, decoded.value, limit + 1);
    var hasMore := |items| > limit;
    Trimmed(Matching(table, account, decoded.value), limit);
    if hasMore {
      items := items[..limit];
    }
    var nextCursor := "";
    if hasMore && |items| > 0 {
      nextCursor := EncodeCursor(CursorOf(items[|items| - 1]));
    }
    return Ok(Page(items, nextCursor, hasMore));
  }

  /** The first rows from the cursor on; whether a wanted row is missing; and if so, a cursor that
      stands for the last row shown. */
  predicate IsPage(p: Page, table: seq<Row>, account: int, c: Cursor, limit: nat) {
    && IsFirst(p.items, table, account, c, limit)
    && (p.hasMore <==> exists r :: r in table && Wanted(r, account, c) && r !in p.items)
    && (p.hasMore && limit > 0 ==>
          && p.items != []
          && var last := p.items[|p.items| - 1]; Decoded(p.nextCursor) == Ok(Cursor(last.createdAt, last.id)))
    && (!p.hasMore || limit == 0 ==> p.nextCursor == "")
  }

  /** A cursor that is no cursor is an error, never a page. */
  lemma ListedIsPage(table: seq<Row>, account: int, cursor: string, limit: nat)
    ensures var r := Listed(table, account, cursor, limit);
      && (r.Ok? <==> cursor == "" || (|SkipBreaks(cursor)| == 22 && AllSymbols(SkipBreaks(cursor))))
      && (r.Ok? && Keyed(table) ==> IsPage(r.value, table, account, Decoded(cursor).value, limit))
  {
    if cursor != "" {
      AcceptedCursor(cursor);
    }
    if Decoded(cursor).Ok? && Keyed(table) {
      PageIsPage(table, account, Decoded(cursor).value, limit);
    }
  }

  lemma PageIsPage(table: seq<Row>, account: int, c: Cursor, limit: nat)
    requires Keyed(table)
    ensures IsPage(PageOf(Matching(table, account, c), limit), table, account, c, limit)
  {
    var m := Matching(table, account, c);
    TakenIsFirst(table, account, c, limit);
    MatchingMembers(table, account, c);
    SelectionDescends(table, account, c);
    if |m| > limit {
      assert m[limit] in m;
      assert forall r :: r in m[..limit] ==> Newer(r, m[limit]);
      assert m[limit] !in m[..limit];
      if limit > 0 {
        CursorRoundTrip(CursorOf(m[limit - 1]));
      }
    }
  }

  /** What the extra row is good for. */
  lemma Trimmed(matching: seq<Row>, limit: nat)
    ensures var fetched := Take(matching, limit + 1);
      && (|fetched| > limit <==> |matching| > limit)
      && Take(matching, limit) == (if |fetched| > limit then fetched[..limit] else fetched)
  {
  }

  // ----- Sorting -----

  lemma {:induction false} SelectMembers(table: seq<Row>, account: int, c: Cursor)
    ensures forall r :: r in Select(table, account, c) <==> r in table && Wanted(r, account, c)
  {
    if table != [] {
      SelectMembers(table[1..], account, c);
      assert table == [table[0]] + table[1..];
    }
  }

  lemma {:induction false} InsertMembers(r: Row, sorted: seq<Row>)
    ensures forall x :: x in Insert(r, sorted) <==> x == r || x in sorted
  {
    if sorted != [] && !Newer(r, sorted[0]) {
      InsertMembers(r, sorted[1..]);
      assert sorted == [sorted[0]] + sorted[1..];
    }
  }

  lemma {:induction false} SortMembers(rows: seq<Row>)
    ensures forall r :: r in Sort(rows) <==> r in rows
  {
    if rows != [] {
      SortMembers(rows[1..]);
      InsertMembers(rows[0], Sort(rows[1..]));
      assert rows == [rows[0]] + rows[1..];
    }
  }

  lemma Prepend(r: Row, sorted: seq<Row>)
    requires Descending(sorted) && forall x :: x in sorted ==> Newer(r, x)
    ensures Descending([r] + sorted)
  {
  }

  lemma {:induction false} InsertDescends(r: Row, sorted: seq<Row>)
    requires Descending(sorted) && forall x :: x in sorted ==> KeysDiffer(r, x)
    ensures Descending(Insert(r, sorted))
  {
    if sorted == [] || Newer(r, sorted[0]) {
      assert forall x :: x in sorted ==> x == sorted[0] || Newer(sorted[0], x);
      Prepend(r, sorted);
    } else {
      assert forall x :: x in sorted[1..] ==> x in sorted;
      InsertDescends(r, sorted[1..]);
      InsertMembers(r, sorted[1..]);
      assert sorted[0] in sorted;
      assert forall x :: x in sorted[1..] ==> Newer(sorted[0], x);
      Prepend(sorted[0], Insert(r, sorted[1..]));
    }
  }

  /** Rows with different keys are not tied, so the order of the query is strict. */
  lemma {:induction false} SelectionDescends(table: seq<Row>, account: int, c: Cursor)
    requires Keyed(table)
    ensures Descending(Matching(table, account, c))
  {
    if table != [] {
      SelectionDescends(table[1..], account, c);
      if Wanted(table[0], account, c) {
        var rest := Select(table[1..], account, c);
        assert Select(table, account, c) == [table[0]] + rest;
        SortMembers(rest);
        SelectMembers(table[1..], account, c);
        InsertDescends(table[0], Sort(rest));
      } else {
        assert Select(table, account, c) == Select(table[1..], account, c);
      }
    }
  }

  lemma MatchingMembers(table: seq<Row>, account: int, c: Cursor)
    ensures forall r :: r in Matching(table, account, c) <==> r in table && Wanted(r, account, c)
  {
    SelectMembers(table, account, c);
    SortMembers(Select(table, account, c));
  }

  /** A strictly descending list is determined by its elements. */
  lemma {:induction false} DescendingUnique(xs: seq<Row>, ys: seq<Row>)
    requires Descending(xs) && Descending(ys) && forall r :: r in xs <==> r in ys
    ensures xs == ys
  {
    assert ys != [] ==> ys[0] in ys;
    if xs != [] {
      assert xs[0] in ys && ys[0] in xs;
      assert xs[0] == ys[0];
      forall r ensures r in xs[1..] <==> r in ys[1..] {
        if r in xs[1..] {
          assert r in xs && r != xs[0];
        }
        if r in ys[1..] {
          assert r in ys && r != ys[0];
        }
      }
      DescendingUnique(xs[1..], ys[1..]);
    }
  }
}
