/** From the amount strings a client sends to the balance of its account, through any run. */
module EndToEnd {
  import opened Int64
  import opened Results
  import opened Money
  import opened Transfers
  import opened Handler
  import opened Bank
  import opened Sequential
  import opened Protocol
  import opened Invariant
  import opened Guarantees

  /** What the commit of one attempt did: the tables right before and right after it. */
  function TablesAt(s: State, i: nat): Tables
    requires i <= |s.log|
  {
    Upto(s.initial, s.log, i)
  }

  lemma CommitStep(s: State, i: nat)
    requires Opening(s.initial) && LegalLog(s.initial, s.log) && i < |s.log|
    ensures Legal(TablesAt(s, i), s.log[i]) && TablesAt(s, i + 1) == Apply(TablesAt(s, i), s.log[i])
    ensures Conserved(s.initial, TablesAt(s, i))
  {
    assert LegalAt(s.initial, s.log, i);
    SerialConserves(s.initial, s.log, i);
  }

  /** Accepted: the account pays exactly the decimal sum of the client's strings, nobody else's
      balance moves, and one batch with that total and the rows of those strings is added. */
  ghost predicate PaidExactly(t: Tables, t': Tables, req: Request, account: int, ts: seq<TransferDto>)
    requires AllWellFormed(ts)
  {
    && account in t.balances
    && t'.balances == t.balances[account := t.balances[account] - ExactSum(ts)]
    && exists batch, rows ::
         && t'.batches == t.batches + [batch] && t'.rows == t.rows + rows
         && batch.account == account && batch.key == req.key && batch.total == ExactSum(ts)
         && RowsExact(rows, account, batch.id, ts)
  }

  /** No cent lost, end to end: a request whose exact decimal sum fits int64 cents is, when its
      attempt commits, a replay that changes nothing; or denied because the account is unknown or
      holds less than that sum, changing nothing but the ledger; or accepted because the account
      holds that sum, and then exactly that sum is paid. */
  lemma NoCentLostEndToEnd(env: Env, s0: State, run: seq<Label>, s: State, id: nat, dto: RequestDto, key: string)
    requires Reached(env, s0, run, s) && id < |s.attempts| && s.attempts[id].committedAt.Some?
    requires AllValid(dto) && dto.creditTransfers != [] && s.attempts[id].req == DomainRequest(dto, key)
    ensures AllWellFormed(dto.creditTransfers)
    ensures ExactSum(dto.creditTransfers) <= MAX ==>
      var i := s.attempts[id].committedAt.value;
      && i < |s.log|
      && var t, t', where := TablesAt(s, i), TablesAt(s, i + 1), (dto.iban, dto.bic);
      if key in t.ledger then t' == t
      else if where in t.directory && BalanceOf(t, t.directory[where]) >= ExactSum(dto.creditTransfers) then
        && t'.ledger == t.ledger[key := CREATED]
        && PaidExactly(t, t', s.attempts[id].req, t.directory[where], dto.creditTransfers)
      else
        t' == t.(ledger := t.ledger[key := if where in t.directory then INSUFFICIENT_FUNDS else ACCOUNT_NOT_FOUND])
  {
    ReachedInv(env, s0, run, s);
    ExactOnTheWayIn(dto, key);
    assert ReplyOk(s, id);
    var i := s.attempts[id].committedAt.value;
    CommitStep(s, i);
    assert s.log[i].req == s.attempts[id].req;
    if ExactSum(dto.creditTransfers) <= MAX {
      AppliedExactly(s.initial, TablesAt(s, i), s.log[i], dto, key);
    }
  }

  lemma AppliedExactly(open: Tables, t: Tables, e: Entry, dto: RequestDto, key: string)
    requires Conserved(open, t) && Legal(t, e)
    requires AllValid(dto) && dto.creditTransfers != [] && e.req == DomainRequest(dto, key)
    requires AllWellFormed(dto.creditTransfers) && ExactSum(dto.creditTransfers) <= MAX
    ensures var t', where := Apply(t, e), (dto.iban, dto.bic);
      if key in t.ledger then t' == t
      else if where in t.directory && BalanceOf(t, t.directory[where]) >= ExactSum(dto.creditTransfers) then
        && t'.ledger == t.ledger[key := CREATED]
        && PaidExactly(t, t', e.req, t.directory[where], dto.creditTransfers)
      else
        t' == t.(ledger := t.ledger[key := if where in t.directory then INSUFFICIENT_FUNDS else ACCOUNT_NOT_FOUND])
  {
    ExactOnTheWayIn(dto, key);
    if Decide(t, e.req).Create? {
      KnownAccount(open, t, e.req);
      PaysExactly(t, e, dto, key);
    } else {
      WritesLedgerOnly(t, e);
    }
  }

  lemma WritesLedgerOnly(t: Tables, e: Entry)
    requires !Decide(t, e.req).Create? && !Decide(t, e.req).Rejected?
    ensures Apply(t, e) == if e.req.key in t.ledger then t
      else t.(ledger := t.ledger[e.req.key := StatusOf(Decide(t, e.req))])
  {
    assert Apply(t, e).balances == t.balances && Apply(t, e).batches == t.batches && Apply(t, e).rows == t.rows;
    assert e.req.key in t.ledger ==> Apply(t, e).ledger == t.ledger;
  }

  /** Each new row carries the exact cents of one amount string, and the texts sent with it. */
  predicate RowsExact(rows: seq<Row>, account: int, batch: int, ts: seq<TransferDto>)
    requires AllWellFormed(ts)
  {
    && |rows| == |ts|
    && forall k :: 0 <= k < |ts| ==>
         && rows[k].account == account && rows[k].batch == Some(batch)
         && rows[k].transfer.amount == ExactCents(ts[k].amount) && SameText(ts[k], rows[k].transfer)
         && Formatted(rows[k].transfer.amount) == Canonical(ts[k].amount)
  }

  lemma RowsAreExact(dto: RequestDto, key: string, draw: Draw, account: int)
    requires AllValid(dto) && dto.creditTransfers != [] && AllWellFormed(dto.creditTransfers)
    requires ExactSum(dto.creditTransfers) <= MAX && |draw.rowIds| == |dto.creditTransfers|
    ensures RowsExact(RowsFor(draw.rowIds, draw.now, account, draw.batchId, DomainRequest(dto, key).transfers),
                      account, draw.batchId, dto.creditTransfers)
  {
    var ts, req := dto.creditTransfers, DomainRequest(dto, key);
    var rows := RowsFor(draw.rowIds, draw.now, account, draw.batchId, req.transfers);
    ExactOnTheWayIn(dto, key);
    forall k | 0 <= k < |ts|
      ensures rows[k].account == account && rows[k].batch == Some(draw.batchId) && rows[k].transfer == req.transfers[k]
      ensures SameText(ts[k], req.transfers[k])
    {
    }
  }

  lemma KnownAccount(open: Tables, t: Tables, req: Request)
    requires Conserved(open, t) && Decide(t, req).Create?
    ensures Decide(t, req).account in t.balances
  {
  }

  lemma PaysExactly(t: Tables, e: Entry, dto: RequestDto, key: string)
    requires Legal(t, e) && Decide(t, e.req).Create? && Decide(t, e.req).account in t.balances
    requires AllValid(dto) && dto.creditTransfers != [] && e.req == DomainRequest(dto, key)
    requires AllWellFormed(dto.creditTransfers) && ExactSum(dto.creditTransfers) <= MAX
    ensures Apply(t, e).ledger == t.ledger[key := CREATED]
    ensures PaidExactly(t, Apply(t, e), e.req, Decide(t, e.req).account, dto.creditTransfers)
  {
    TotalIsExact(dto, key);
    var account := Decide(t, e.req).account;
    RowsAreExact(dto, key, e.draw, account);
    CreateAppends(t, e);
    PaysAsStated(t, Apply(t, e), e.req, BatchFor(account, e.req, e.draw),
         RowsFor(e.draw.rowIds, e.draw.now, account, e.draw.batchId, e.req.transfers), dto.creditTransfers);
  }

  lemma PaysAsStated(t: Tables, t': Tables, req: Request, batch: Batch, rows: seq<Row>, ts: seq<TransferDto>)
    requires AllWellFormed(ts) && batch.account in t.balances
    requires t'.balances == t.balances[batch.account := t.balances[batch.account] - ExactSum(ts)]
    requires t'.batches == t.batches + [batch] && t'.rows == t.rows + rows
    requires batch.key == req.key && batch.total == ExactSum(ts) && RowsExact(rows, batch.account, batch.id, ts)
    ensures PaidExactly(t, t', req, batch.account, ts)
  {
  }

  lemma CreateAppends(t: Tables, e: Entry)
    requires Legal(t, e) && Decide(t, e.req).Create?
    ensures var t', account := Apply(t, e), Decide(t, e.req).account;
      && t'.ledger == t.ledger[e.req.key := CREATED]
      && t'.balances == t.balances[account := BalanceOf(t, account) - Transfers.Total(e.req)]
      && t'.batches == t.batches + [BatchFor(account, e.req, e.draw)]
      && t'.rows == t.rows + RowsFor(e.draw.rowIds, e.draw.now, account, e.draw.batchId, e.req.transfers)
  {
  }
}
