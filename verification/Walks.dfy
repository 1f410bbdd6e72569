/** A client that follows NextCursor from page to page, and what it has seen when it is done. */
module Walks {
  import opened Results
  import opened Bank
  import opened Sequential
  import opened Cursors
  import opened History
  import opened Protocol
  import opened Invariant
  import opened Guarantees

  /** One page request: the table as it is when the page is read, and the limit asked for. */
  datatype Visit = Visit(table: seq<Row>, limit: nat)

  /** The pages of a walk that starts at `cursor` and goes on while there is more. */
  function Walk(visits: seq<Visit>, account: int, cursor: string): seq<Page> {
    if visits == [] then []
    else match Listed(visits[0].table, account, cursor, visits[0].limit)
      case Err(_) => []
      case Ok(p) => [p] + if p.hasMore then Walk(visits[1..], account, p.nextCursor) else []
  }

  function Items(pages: seq<Page>): seq<Row> {
    if pages == [] then [] else pages[0].items + Items(pages[1..])
  }

  predicate Complete(pages: seq<Page>) {
    pages != [] && !pages[|pages| - 1].hasMore
  }

  predicate Within(rows: seq<Row>, rows': seq<Row>) {
    forall r :: r in rows ==> r in rows'
  }

  /** Rows are only added between two visits, keys are unique, and every page asks for some rows. */
  predicate OnlyAdds(visits: seq<Visit>) {
    forall i :: 0 <= i < |visits| ==>
      && visits[i].limit >= 1 && Keyed(visits[i].table)
      && (i + 1 < |visits| ==> Within(visits[i].table, visits[i + 1].table))
  }

  // ----- One page and the next -----

  /** The cursor a page hands out marks its last row: what the next page wants is what is older. */
  lemma NextWanted(last: Row, account: int)
    ensures Decoded(Encoded(CursorOf(last))) == Ok(CursorOf(last))
    ensures forall r :: Wanted(r, account, CursorOf(last)) <==> r.account == account && Newer(last, r)
  {
    CursorRoundTrip(CursorOf(last));
  }

  lemma Join(first: seq<Row>, rest: seq<Row>)
    requires first != [] && Descending(first) && Descending(rest)
    requires forall r :: r in rest ==> Newer(first[|first| - 1], r)
    ensures Descending(first + rest)
  {
    var n := |first|;
    forall i, j | 0 <= i < j < |first + rest| ensures Newer((first + rest)[i], (first + rest)[j]) {
      if i < n <= j {
        assert rest[j - n] in rest;
        assert i < n - 1 ==> Newer(first[i], first[n - 1]);
      }
    }
  }

  lemma WalkUnfolds(visits: seq<Visit>, account: int, cursor: string, c: Cursor)
    requires visits != [] && Decoded(cursor) == Ok(c)
    ensures var m, limit := Matching(visits[0].table, account, c), visits[0].limit;
      var pages := Walk(visits, account, cursor);
      && pages != []
      && (|m| <= limit ==> Items(pages) == m && Complete(pages))
      && (|m| > limit > 0 ==>
            var rest := Walk(visits[1..], account, Encoded(CursorOf(m[limit - 1])));
            Items(pages) == m[..limit] + Items(rest) && (Complete(pages) <==> Complete(rest)))
  {
    var m, limit := Matching(visits[0].table, account, c), visits[0].limit;
    var p := PageOf(m, limit);
    var rest := if p.hasMore then Walk(visits[1..], account, p.nextCursor) else [];
    assert Listed(visits[0].table, account, cursor, limit) == Ok(p);
    assert Walk(visits, account, cursor) == [p] + rest;
    FirstPage(p, rest);
  }

  lemma FirstPage(p: Page, rest: seq<Page>)
    ensures Items([p] + rest) == p.items + Items(rest)
    ensures Complete([p] + rest) <==> if rest == [] then !p.hasMore else Complete(rest)
    ensures rest == [] ==> Items([p] + rest) == p.items
  {
    assert ([p] + rest)[1..] == rest;
    assert p.items + [] == p.items;
  }

  // ----- Growing tables -----

  /** The rows are in order, and all of them are wanted. */
  predicate Shows(items: seq<Row>, account: int, c: Cursor) {
    Descending(items) && forall r :: r in items ==> Wanted(r, account, c)
  }

  /** No wanted row of the table is missing. */
  predicate Covers(items: seq<Row>, table: seq<Row>, account: int, c: Cursor) {
    forall r :: r in table && Wanted(r, account, c) ==> r in items
  }

  lemma MatchingShows(table: seq<Row>, account: int, c: Cursor)
    requires Keyed(table)
    ensures var m := Matching(table, account, c); Shows(m, account, c) && Covers(m, table, account, c)
  {
    SelectionDescends(table, account, c);
    MatchingMembers(table, account, c);
  }

  lemma {:induction false} WalkSees(visits: seq<Visit>, account: int, cursor: string, c: Cursor)
    requires OnlyAdds(visits) && Decoded(cursor) == Ok(c)
    ensures var pages := Walk(visits, account, cursor);
      && Shows(Items(pages), account, c)
      && (Complete(pages) ==> Covers(Items(pages), visits[0].table, account, c))
    decreases |visits|, 1
  {
    if visits != [] {
      var m, limit := Matching(visits[0].table, account, c), visits[0].limit;
      WalkUnfolds(visits, account, cursor, c);
      MatchingShows(visits[0].table, account, c);
      if |m| > limit {
        WalkSeesMore(visits, account, c);
      }
    }
  }

  /** The page is full: its rows, then what the rest of the walk sees. */
  lemma {:induction false} WalkSeesMore(visits: seq<Visit>, account: int, c: Cursor)
    requires OnlyAdds(visits) && visits != [] && |Matching(visits[0].table, account, c)| > visits[0].limit
    ensures var m, limit := Matching(visits[0].table, account, c), visits[0].limit;
      var rest := Walk(visits[1..], account, Encoded(CursorOf(m[limit - 1])));
      && Shows(m[..limit] + Items(rest), account, c)
      && (Complete(rest) ==> Covers(m[..limit] + Items(rest), visits[0].table, account, c))
    decreases |visits|, 0
  {
    var last := CursorOf(Matching(visits[0].table, account, c)[visits[0].limit - 1]);
    var rest := Walk(visits[1..], account, Encoded(last));
    CursorRoundTrip(last);
    TailOnlyAdds(visits);
    WalkSees(visits[1..], account, Encoded(last), last);
    FullPage(visits, account, c, Items(rest), Complete(rest));
  }

  lemma FullPage(visits: seq<Visit>, account: int, c: Cursor, rest: seq<Row>, complete: bool)
    requires OnlyAdds(visits) && visits != [] && |Matching(visits[0].table, account, c)| > visits[0].limit
    requires var last := CursorOf(Matching(visits[0].table, account, c)[visits[0].limit - 1]);
      && Shows(rest, account, last)
      && (complete ==> |visits| > 1 && Covers(rest, visits[1..][0].table, account, last))
    ensures var items := Matching(visits[0].table, account, c)[..visits[0].limit] + rest;
      Shows(items, account, c) && (complete ==> Covers(items, visits[0].table, account, c))
  {
    var m, limit := Matching(visits[0].table, account, c), visits[0].limit;
    MatchingShows(visits[0].table, account, c);
    JoinPages(m, limit, account, c, rest);
    if complete {
      StillCovers(visits, rest, account, CursorOf(m[limit - 1]));
      NothingBetween(visits[0].table, m, limit, account, c, rest);
    }
  }

  lemma StillCovers(visits: seq<Visit>, items: seq<Row>, account: int, c: Cursor)
    requires OnlyAdds(visits) && |visits| > 1 && Covers(items, visits[1..][0].table, account, c)
    ensures Covers(items, visits[0].table, account, c)
  {
    assert Within(visits[0].table, visits[1].table);
  }

  /** What the cursor of a full page wants is what is older than its last row. */
  lemma JoinPages(m: seq<Row>, limit: nat, account: int, c: Cursor, rest: seq<Row>)
    requires 1 <= limit < |m| && Shows(m, account, c) && Shows(rest, account, CursorOf(m[limit - 1]))
    ensures Shows(m[..limit] + rest, account, c)
  {
    Join(m[..limit], rest);
    assert m[limit - 1] in m;
    forall r | r in m[..limit] + rest ensures Wanted(r, account, c) {
      if r in m[..limit] {
        assert r in m;
      }
    }
  }

  lemma NothingBetween(table: seq<Row>, m: seq<Row>, limit: nat, account: int, c: Cursor, rest: seq<Row>)
    requires 1 <= limit < |m| && Shows(m, account, c) && Covers(m, table, account, c)
    requires Covers(rest, table, account, CursorOf(m[limit - 1]))
    ensures Covers(m[..limit] + rest, table, account, c)
  {
    forall r | r in table && Wanted(r, account, c) ensures r in m[..limit] + rest {
      var k :| 0 <= k < |m| && m[k] == r;
      if k < limit {
        assert m[..limit][k] == r;
      } else {
        assert Newer(m[limit - 1], r);
      }
    }
  }

  lemma TailOnlyAdds(visits: seq<Visit>)
    requires OnlyAdds(visits) && visits != []
    ensures OnlyAdds(visits[1..])
  {
    forall i | 0 <= i < |visits[1..]|
      ensures visits[1..][i].limit >= 1 && Keyed(visits[1..][i].table)
      ensures i + 1 < |visits[1..]| ==> Within(visits[1..][i].table, visits[1..][i + 1].table)
    {
      assert visits[1..][i] == visits[i + 1];
      assert i + 1 < |visits[1..]| ==> visits[1..][i + 1] == visits[i + 2];
    }
  }

  lemma DistinctAreKeyed(rows: seq<Row>)
    requires DistinctRows(rows)
    ensures Keyed(rows)
  {
  }

  /** Paging while rows are added: the walk never shows a row twice and its keys strictly
      decrease; every row shown belongs to the account; and a completed walk has shown every row
      of the account that was there when it began. */
  lemma PagingUnderWrites(visits: seq<Visit>, account: int)
    requires OnlyAdds(visits)
    ensures var pages := Walk(visits, account, "");
      && Descending(Items(pages))
      && (forall i, j :: 0 <= i < j < |Items(pages)| ==> Items(pages)[i] != Items(pages)[j])
      && (forall r :: r in Items(pages) ==> r.account == account)
      && (Complete(pages) ==> forall r :: r in visits[0].table && r.account == account ==> r in Items(pages))
  {
    WalkSees(visits, account, "", START);
    var items := Items(Walk(visits, account, ""));
    forall i, j | 0 <= i < j < |items| ensures items[i] != items[j] {
      assert Newer(items[i], items[j]);
    }
  }

  // ----- A fixed table -----

  function Fixed(table: seq<Row>, limits: seq<nat>): seq<Visit> {
    if limits == [] then [] else [Visit(table, limits[0])] + Fixed(table, limits[1..])
  }

  /** Every limit is at least one. */
  predicate AsksForSome(limits: seq<nat>) {
    limits == [] || (limits[0] >= 1 && AsksForSome(limits[1..]))
  }

  function SumOf(limits: seq<nat>): nat {
    if limits == [] then 0 else limits[0] + SumOf(limits[1..])
  }

  /** What a full page leaves is exactly what its cursor asks for. */
  lemma NextMatching(table: seq<Row>, account: int, c: Cursor, limit: nat)
    requires Keyed(table) && 1 <= limit < |Matching(table, account, c)|
    ensures var m := Matching(table, account, c);
      Matching(table, account, CursorOf(m[limit - 1])) == m[limit..]
  {
    var m := Matching(table, account, c);
    var last := m[limit - 1];
    var next := Matching(table, account, CursorOf(last));
    SelectionDescends(table, account, c);
    SelectionDescends(table, account, CursorOf(last));
    MatchingMembers(table, account, c);
    MatchingMembers(table, account, CursorOf(last));
    NextWanted(last, account);
    assert last in m;
    forall r ensures r in next <==> r in m[limit..] {
      OlderIsLater(m, limit, r);
    }
    DescendingUnique(next, m[limit..]);
  }

  lemma OlderIsLater(m: seq<Row>, limit: nat, r: Row)
    requires Descending(m) && 1 <= limit < |m|
    ensures r in m[limit..] <==> r in m && Newer(m[limit - 1], r)
  {
    if r in m[limit..] {
      var k :| 0 <= k < |m[limit..]| && m[limit..][k] == r;
      assert m[limit + k] == r;
    }
    if r in m && Newer(m[limit - 1], r) {
      var k :| 0 <= k < |m| && m[k] == r;
      assert k >= limit;
      assert m[limit..][k - limit] == r;
    }
  }

  /** On a table that does not change, the pages concatenate to a prefix of the whole sorted
      history, as long as the limits add up to; and the walk is complete exactly when that is all
      of it. */
  lemma {:induction false} FixedWalk(table: seq<Row>, limits: seq<nat>, account: int, cursor: string, c: Cursor)
    requires Keyed(table) && Decoded(cursor) == Ok(c)
    requires AsksForSome(limits)
    ensures var m, pages := Matching(table, account, c), Walk(Fixed(table, limits), account, cursor);
      && Items(pages) == Take(m, SumOf(limits))
      && (Complete(pages) <==> limits != [] && |m| <= SumOf(limits))
    decreases |limits|, 1
  {
    var m := Matching(table, account, c);
    if limits == [] {
      assert m[..0] == [];
    } else {
      FixedUnfolds(table, limits);
      WalkUnfolds(Fixed(table, limits), account, cursor, c);
      if |m| > limits[0] {
        FixedWalkMore(table, limits, account, c);
      }
    }
  }

  lemma {:induction false} FixedWalkMore(table: seq<Row>, limits: seq<nat>, account: int, c: Cursor)
    requires Keyed(table) && limits != [] && |Matching(table, account, c)| > limits[0]
    requires AsksForSome(limits)
    ensures var m, limit := Matching(table, account, c), limits[0];
      var rest := Walk(Fixed(table, limits[1..]), account, Encoded(CursorOf(m[limit - 1])));
      && m[..limit] + Items(rest) == Take(m, SumOf(limits))
      && (Complete(rest) <==> |m| <= SumOf(limits))
    decreases |limits|, 0
  {
    var last := CursorOf(Matching(table, account, c)[limits[0] - 1]);
    var rest := Walk(Fixed(table, limits[1..]), account, Encoded(last));
    CursorRoundTrip(last);
    FixedWalk(table, limits[1..], account, Encoded(last), last);
    PageThenRest(table, limits, account, c, Items(rest), Complete(rest));
  }

  lemma PageThenRest(table: seq<Row>, limits: seq<nat>, account: int, c: Cursor, rest: seq<Row>, complete: bool)
    requires Keyed(table) && limits != [] && 1 <= limits[0] < |Matching(table, account, c)|
    requires var next := Matching(table, account, CursorOf(Matching(table, account, c)[limits[0] - 1]));
      && rest == Take(next, SumOf(limits[1..]))
      && (complete <==> limits[1..] != [] && |next| <= SumOf(limits[1..]))
    ensures var m := Matching(table, account, c);
      m[..limits[0]] + rest == Take(m, SumOf(limits)) && (complete <==> |m| <= SumOf(limits))
  {
    NextMatching(table, account, c, limits[0]);
    TakenSoFar(Matching(table, account, c), limits, rest, complete);
  }

  lemma TakenSoFar(m: seq<Row>, limits: seq<nat>, rest: seq<Row>, complete: bool)
    requires limits != [] && |m| > limits[0]
    requires rest == Take(m[limits[0]..], SumOf(limits[1..]))
    requires complete <==> limits[1..] != [] && |m[limits[0]..]| <= SumOf(limits[1..])
    ensures m[..limits[0]] + rest == Take(m, SumOf(limits))
    ensures complete <==> |m| <= SumOf(limits)
  {
    TakeMore(m, limits[0], SumOf(limits[1..]));
  }

  lemma FixedUnfolds(table: seq<Row>, limits: seq<nat>)
    requires limits != []
    ensures var visits := Fixed(table, limits);
      visits != [] && visits[0] == Visit(table, limits[0]) && visits[1..] == Fixed(table, limits[1..])
  {
  }

  lemma TakeMore(m: seq<Row>, limit: nat, n: nat)
    requires limit <= |m|
    ensures m[..limit] + Take(m[limit..], n) == Take(m, limit + n)
  {
    assert m == m[..limit] + m[limit..];
  }

  lemma {:induction false} SumAtLeast(limits: seq<nat>)
    requires AsksForSome(limits)
    ensures SumOf(limits) >= |limits|
  {
    if limits != [] {
      SumAtLeast(limits[1..]);
    }
  }

  /** Paging on a fixed table: every choice of page sizes finishes within as many pages as there
      are rows, with exactly the account's rows, sorted, each once. */
  lemma PagingIsSorting(table: seq<Row>, limits: seq<nat>, account: int)
    requires Keyed(table) && AsksForSome(limits)
    requires limits != [] && |limits| >= |Matching(table, account, START)|
    ensures var pages, all := Walk(Fixed(table, limits), account, ""), Matching(table, account, START);
      && Complete(pages) && Items(pages) == all
      && Descending(all) && (forall r :: r in all <==> r in table && r.account == account)
  {
    FixedWalk(table, limits, account, "", START);
    SumAtLeast(limits);
    SelectionDescends(table, account, START);
    MatchingMembers(table, account, START);
  }

  lemma LastIsOldest(m: seq<Row>, r: Row)
    requires Descending(m) && m != []
    ensures r in m ==> !Newer(m[|m| - 1], r)
  {
  }

  /** HasMore tells the truth: some row of the account is older than everything shown. */
  lemma HasMoreIsExact(table: seq<Row>, account: int, cursor: string, c: Cursor, limit: nat)
    requires Keyed(table) && Decoded(cursor) == Ok(c) && limit >= 1
    ensures var p := Listed(table, account, cursor, limit).value;
      p.hasMore <==> p.items != [] && exists r :: r in table && r.account == account && Newer(p.items[|p.items| - 1], r)
  {
    var m := Matching(table, account, c);
    SelectionDescends(table, account, c);
    MatchingMembers(table, account, c);
    var p := PageOf(m, limit);
    assert Listed(table, account, cursor, limit) == Ok(p);
    if p.hasMore {
      assert m[limit] in m && Newer(p.items[|p.items| - 1], m[limit]);
    } else if p.items != [] {
      var last := m[|m| - 1];
      assert last in m;
      forall r | r in table && r.account == account ensures !Newer(last, r) {
        assert Newer(last, r) ==> Wanted(r, account, c);
        LastIsOldest(m, r);
      }
    }
  }

  // ----- Paging during a run of the protocol -----

  /** The client's page reads fall between the steps of a run: `states[i]` is the state at read
      `i`, and `runs[i]` what happens until the next one. */
  ghost predicate ReadsDuring(env: Env, states: seq<State>, runs: seq<seq<Label>>) {
    && |states| == |runs| + 1
    && (forall i :: 0 <= i < |runs| ==>
          ValidRun(env, states[i], runs[i]) && states[i + 1] == After(env, states[i], runs[i]))
  }

  lemma {:induction false} AllReadsInv(env: Env, states: seq<State>, runs: seq<seq<Label>>, i: nat)
    requires ReadsDuring(env, states, runs) && Inv(env, states[0]) && i < |states|
    ensures Inv(env, states[i])
  {
    if i > 0 {
      AllReadsInv(env, states, runs, i - 1);
      RunInv(env, states[i - 1], runs[i - 1]);
    }
  }

  /** Submissions never disturb a client that is paging: whatever they do between its reads, it
      sees every row once that was committed when it started. */
  lemma PagingDuringSubmissions(env: Env, s0: State, run: seq<Label>, states: seq<State>, runs: seq<seq<Label>>,
                                visits: seq<Visit>, account: int)
    requires ReadsDuring(env, states, runs) && Reached(env, s0, run, states[0]) && |visits| == |states|
    requires forall i :: 0 <= i < |visits| ==> visits[i].table == states[i].tables.rows && visits[i].limit >= 1
    ensures var pages := Walk(visits, account, "");
      && Descending(Items(pages))
      && (forall i, j :: 0 <= i < j < |Items(pages)| ==> Items(pages)[i] != Items(pages)[j])
      && (forall r :: r in Items(pages) ==> r.account == account)
      && (Complete(pages) ==> forall r :: r in states[0].tables.rows && r.account == account ==> r in Items(pages))
  {
    ReachedInv(env, s0, run, states[0]);
    forall i | 0 <= i < |visits|
      ensures Keyed(visits[i].table) && (i + 1 < |visits| ==> Within(visits[i].table, visits[i + 1].table))
    {
      AllReadsInv(env, states, runs, i);
      InvKeeps(env, states[i]);
      DistinctAreKeyed(states[i].tables.rows);
      if i + 1 < |visits| {
        RunLater(env, states[i], runs[i]);
      }
    }
    PagingUnderWrites(visits, account);
  }
}
