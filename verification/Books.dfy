/** The account statement against the balance: what the stored rows of an account add up to, and
    when that is what the account has paid. */
module Books {
  import opened Int64
  import opened Results
  import opened Transfers
  import opened Bank
  import opened Sequential
  import opened Protocol
  import opened Guarantees

  /** The exact sum of all batch rows of an account, as they are stored. */
  function Paid(rows: seq<Row>, account: int): int {
    if rows == [] then 0
    else
      var last := rows[|rows| - 1];
      Paid(rows[..|rows| - 1], account) + if last.batch.Some? && last.account == account then last.transfer.amount else 0
  }

  lemma {:induction false} PaidAppend(xs: seq<Row>, ys: seq<Row>, account: int)
    ensures Paid(xs + ys, account) == Paid(xs, account) + Paid(ys, account)
  {
    if ys == [] {
      assert xs + ys == xs;
    } else {
      PaidAppend(xs, ys[..|ys| - 1], account);
      assert (xs + ys)[..|xs + ys| - 1] == xs + ys[..|ys| - 1];
    }
  }

  lemma {:induction false} PaidFor(ids: seq<int64>, at: Instant, payer: int, batch: int, ts: seq<CreditTransfer>, account: int)
    requires |ids| == |ts|
    ensures Paid(RowsFor(ids, at, payer, batch, ts), account) == if account == payer then Sum(ts) else 0
  {
    if ts != [] {
      var n := |ts| - 1;
      PaidFor(ids[..n], at, payer, batch, ts[..n], account);
      assert RowsFor(ids, at, payer, batch, ts)[..n] == RowsFor(ids[..n], at, payer, batch, ts[..n]);
    }
  }

  lemma {:induction false} PaidNothing(rows: seq<Row>, account: int)
    requires forall r :: r in rows ==> r.batch == None
    ensures Paid(rows, account) == 0
  {
    if rows != [] {
      PaidNothing(rows[..|rows| - 1], account);
    }
  }

  // ----- What wrapping hides -----

  /** By how much the rows of a submission exceed the total that was debited for it. */
  function Hidden(t: Tables, e: Entry, account: int): int {
    if Decide(t, e.req) == Create(account) then Sum(e.req.transfers) - Total(e.req) else 0
  }

  lemma ApplyPays(t: Tables, e: Entry, account: int)
    requires Legal(t, e)
    ensures Paid(Apply(t, e).rows, account) - TotalsOf(Apply(t, e).batches, account)
         == Paid(t.rows, account) - TotalsOf(t.batches, account) + Hidden(t, e, account)
  {
    var d, t' := Decide(t, e.req), Apply(t, e);
    if d.Create? {
      var rows := RowsFor(e.draw.rowIds, e.draw.now, d.account, e.draw.batchId, e.req.transfers);
      assert t'.rows == t.rows + rows && t'.batches == t.batches + [BatchFor(d.account, e.req, e.draw)];
      assert t'.batches[..|t.batches|] == t.batches;
      PaidAppend(t.rows, rows, account);
      PaidFor(e.draw.rowIds, e.draw.now, d.account, e.draw.batchId, e.req.transfers, account);
    } else {
      assert t'.batches == t.batches && t'.rows == t.rows;
    }
  }

  function HiddenAt(open: Tables, log: seq<Entry>, i: int, account: int): int
    requires 0 <= i < |log|
  {
    Hidden(Upto(open, log, i), log[i], account)
  }

  /** `hidden` says for each commit of the log what it hides. */
  predicate Lists(hidden: seq<int>, open: Tables, log: seq<Entry>, account: int) {
    && |hidden| == |log|
    && forall i {:trigger HiddenAt(open, log, i, account)} :: 0 <= i < |log| ==> hidden[i] == HiddenAt(open, log, i, account)
  }

  lemma ListOf(open: Tables, log: seq<Entry>, account: int) returns (hidden: seq<int>)
    ensures Lists(hidden, open, log, account)
  {
    hidden := seq(|log|, i requires 0 <= i < |log| => HiddenAt(open, log, i, account));
  }

  function Added(xs: seq<int>, n: nat): int
    requires n <= |xs|
  {
    if n == 0 then 0 else Added(xs, n - 1) + xs[n - 1]
  }

  lemma {:induction false} AddedModulus(xs: seq<int>, n: nat)
    requires n <= |xs| && forall i :: 0 <= i < |xs| ==> xs[i] % MODULUS == 0
    ensures Added(xs, n) % MODULUS == 0
  {
    if n > 0 {
      AddedModulus(xs, n - 1);
    }
  }

  lemma {:induction false} AddedSign(xs: seq<int>, n: nat)
    requires n <= |xs|
    ensures (forall i :: 0 <= i < n ==> xs[i] == 0) ==> Added(xs, n) == 0
    ensures (forall i :: 0 <= i < n ==> xs[i] >= 0) ==>
      Added(xs, n) >= 0 && (Added(xs, n) == 0 ==> forall i :: 0 <= i < n ==> xs[i] == 0)
  {
    if n > 0 {
      AddedSign(xs, n - 1);
    }
  }

  lemma {:induction false} SerialPays(open: Tables, log: seq<Entry>, hidden: seq<int>, n: nat, account: int)
    requires Opening(open) && LegalLog(open, log) && Lists(hidden, open, log, account) && n <= |log|
    ensures var t := Upto(open, log, n);
      Paid(t.rows, account) - TotalsOf(t.batches, account) == Added(hidden, n)
    decreases n
  {
    if n == 0 {
      PaidNothing(open.rows, account);
    } else {
      SerialPays(open, log, hidden, n - 1, account);
      assert LegalAt(open, log, n - 1);
      assert hidden[n - 1] == HiddenAt(open, log, n - 1, account);
      ApplyPays(Upto(open, log, n - 1), log[n - 1], account);
    }
  }

  /** The amounts are positive, as the parser leaves them. */
  predicate Positive(req: Request) {
    forall t :: t in req.transfers ==> t.amount > 0
  }

  predicate AllPositive(log: seq<Entry>) {
    forall i :: 0 <= i < |log| ==> Positive(log[i].req)
  }

  /** Commit `i` debited `account`, and the exact sum of its amounts is no int64. */
  predicate Overflows(open: Tables, log: seq<Entry>, i: int, account: int)
    requires 0 <= i < |log|
  {
    Decide(Upto(open, log, i), log[i].req) == Create(account) && !Fits(Sum(log[i].req.transfers))
  }

  predicate NoneOverflows(open: Tables, log: seq<Entry>, account: int) {
    forall i {:trigger Overflows(open, log, i, account)} :: 0 <= i < |log| ==> !Overflows(open, log, i, account)
  }

  lemma HiddenSign(open: Tables, log: seq<Entry>, i: nat, account: int)
    requires i < |log|
    ensures HiddenAt(open, log, i, account) % MODULUS == 0
    ensures HiddenAt(open, log, i, account) != 0 <==> Overflows(open, log, i, account)
    ensures Positive(log[i].req) ==> HiddenAt(open, log, i, account) >= 0
  {
    WrapHides(log[i].req);
  }

  lemma WrapHides(req: Request)
    ensures (Sum(req.transfers) - Total(req)) % MODULUS == 0
    ensures Sum(req.transfers) != Total(req) <==> !Fits(Sum(req.transfers))
    ensures Positive(req) ==> Sum(req.transfers) >= Total(req)
  {
    if Positive(req) {
      PositiveSum(req.transfers);
    }
  }

  lemma ListSigns(open: Tables, log: seq<Entry>, hidden: seq<int>, account: int)
    requires Lists(hidden, open, log, account)
    ensures forall i :: 0 <= i < |hidden| ==> hidden[i] % MODULUS == 0
    ensures (forall i :: 0 <= i < |hidden| ==> hidden[i] == 0) <==> NoneOverflows(open, log, account)
    ensures AllPositive(log) ==> forall i :: 0 <= i < |hidden| ==> hidden[i] >= 0
  {
    forall i | 0 <= i < |hidden|
      ensures hidden[i] % MODULUS == 0 && (hidden[i] != 0 <==> Overflows(open, log, i, account))
      ensures AllPositive(log) ==> hidden[i] >= 0
    {
      assert hidden[i] == HiddenAt(open, log, i, account);
      HiddenSign(open, log, i, account);
    }
  }

  // ----- The statement of an account -----

  /** Balance plus stored rows is the opening balance, in every reachable state: always modulo
      2^64; exactly if no accepted request of the account has an exact sum beyond int64; and if
      every request has positive amounts, exactly only then. */
  lemma BalancePlusRows(env: Env, s0: State, run: seq<Label>, s: State, account: int)
    requires Reached(env, s0, run, s) && account in s0.tables.balances
    ensures account in s.tables.balances && s.initial == s0.tables
    ensures var gap := s.tables.balances[account] + Paid(s.tables.rows, account) - s0.tables.balances[account];
      && Explained(gap, s.initial, s.log, account)
      && ((forall id :: 0 <= id < |s.attempts| ==> Positive(s.attempts[id].req)) ==>
            (gap == 0 <==> NoneOverflows(s.initial, s.log, account)))
  {
    NoCentLost(env, s0, run, s, account);
    PositiveLog(env, s0, run, s);
    LogBalances(s.initial, s.log, account);
  }

  lemma PositiveLog(env: Env, s0: State, run: seq<Label>, s: State)
    requires Reached(env, s0, run, s)
    ensures s.initial == s0.tables && Opening(s.initial)
    ensures LegalLog(s.initial, s.log) && s.tables == Serial(s.initial, s.log)
    ensures (forall id :: 0 <= id < |s.attempts| ==> Positive(s.attempts[id].req)) ==> AllPositive(s.log)
  {
    ReachedInv(env, s0, run, s);
    Serializable(env, s0, run, s);
  }

  /** The gap is a multiple of 2^64, none at all if nothing overflowed, and with positive amounts
      only then. */
  predicate Explained(gap: int, open: Tables, log: seq<Entry>, account: int) {
    && gap % MODULUS == 0
    && (NoneOverflows(open, log, account) ==> gap == 0)
    && (AllPositive(log) ==> (gap == 0 <==> NoneOverflows(open, log, account)))
  }

  lemma Exposed(gap: int, open: Tables, log: seq<Entry>, hidden: seq<int>, account: int)
    requires Lists(hidden, open, log, account) && gap == Added(hidden, |log|)
    ensures Explained(gap, open, log, account)
  {
    ListSigns(open, log, hidden, account);
    AddedModulus(hidden, |hidden|);
    AddedSign(hidden, |hidden|);
  }

  lemma LogBalances(open: Tables, log: seq<Entry>, account: int)
    requires Opening(open) && LegalLog(open, log)
    ensures var t := Serial(open, log);
      Explained(Paid(t.rows, account) - TotalsOf(t.batches, account), open, log, account)
  {
    var hidden := ListOf(open, log, account);
    SerialPays(open, log, hidden, |log|, account);
    var t := Serial(open, log);
    Exposed(Paid(t.rows, account) - TotalsOf(t.batches, account), open, log, hidden, account);
  }

  /** The bound is needed: three positive amounts with the exact sum 2^64 + 1 have the total 1,
      so an account that holds one cent is debited one cent for them. */
  lemma WrappedTotalIsAccepted(t: Tables, some: CreditTransfer, iban: string, bic: string, key: string)
    requires (iban, bic) in t.directory && BalanceOf(t, t.directory[(iban, bic)]) == 1 && key !in t.ledger
    ensures var req := Request(bic, iban, [some.(amount := MAX), some.(amount := MAX), some.(amount := 3)], key);
      && Positive(req) && Sum(req.transfers) == MODULUS + 1 && Total(req) == 1
      && Decide(t, req) == Create(t.directory[(iban, bic)])
  {
    var a, b, c := some.(amount := MAX), some.(amount := MAX), some.(amount := 3);
    assert [a, b, c][..2] == [a, b] && [a, b][..1] == [a] && [a][..0] == [];
    assert Sum([a]) == MAX && Sum([a, b]) == 2 * MAX;
  }
}
