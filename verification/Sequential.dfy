/** What any sequence of atomic submissions keeps: proved once here, on the specification, and
    carried to every concurrent run by the refinement in module Guarantees. */
module Sequential {
  import opened Int64
  import opened Results
  import opened Transfers
  import opened Bank

  /** The start of a run: valid accounts, an empty ledger, no batches, any rows without a batch. */
  predicate Opening(t: Tables) {
    && t.ledger == map[] && t.batches == []
    && (forall p :: p in t.directory ==> t.directory[p] in t.balances)
    && (forall x :: x in t.balances ==> 0 <= t.balances[x] <= MAX)
    && (forall r :: r in t.rows ==> r.batch == None)
    && DistinctRows(t.rows)
  }

  predicate DistinctRows(rows: seq<Row>) {
    forall i, j :: 0 <= i < j < |rows| ==> rows[i].id != rows[j].id
  }

  predicate DistinctBatches(batches: seq<Batch>) {
    forall i, j :: 0 <= i < j < |batches| ==> batches[i].id != batches[j].id
  }

  /** Money: no balance is negative or above its opening value, and what an account has lost is
      exactly the total of its batches. */
  ghost predicate Conserved(open: Tables, t: Tables) {
    && t.directory == open.directory && t.balances.Keys == open.balances.Keys
    && (forall p :: p in t.directory ==> t.directory[p] in t.balances)
    && (forall x :: x in t.balances ==>
          && 0 <= t.balances[x] <= open.balances[x] <= MAX
          && t.balances[x] + TotalsOf(t.batches, x) == open.balances[x])
  }

  /** Idempotency: a key has one batch if its recorded status is 204, and none otherwise. */
  ghost predicate ExactlyOnce(t: Tables) {
    && (forall key :: key in t.ledger ==> t.ledger[key] in {CREATED, ACCOUNT_NOT_FOUND, INSUFFICIENT_FUNDS})
    && (forall key :: BatchesOf(t.batches, key) == if key in t.ledger && t.ledger[key] == CREATED then 1 else 0)
  }

  /** Books: ids are unique, every row with a batch points to one of the same account, and every
      batch has a positive total, the wrapped sum of exactly its own rows. */
  ghost predicate Balanced(t: Tables) {
    && DistinctRows(t.rows) && DistinctBatches(t.batches)
    && (forall r :: r in t.rows && r.batch.Some? ==>
          exists b :: b in t.batches && b.id == r.batch.value && b.account == r.account)
    && (forall b :: b in t.batches ==> b.total > 0 && b.total == Wrap(RowSum(t.rows, b.id)))
  }

  /** Tables only grow: recorded statuses stay, batches and rows are only appended. */
  predicate Grows(t: Tables, t': Tables) {
    && (forall key :: key in t.ledger ==> key in t'.ledger && t'.ledger[key] == t.ledger[key])
    && t.batches <= t'.batches && t.rows <= t'.rows
    && t'.balances.Keys == t.balances.Keys
    && (forall x :: x in t.balances ==> t'.balances[x] <= t.balances[x])
  }

  // ----- Aggregates over an append -----

  lemma {:induction false} RowSumAppend(xs: seq<Row>, ys: seq<Row>, batch: int)
    ensures RowSum(xs + ys, batch) == RowSum(xs, batch) + RowSum(ys, batch)
  {
    if ys == [] {
      assert xs + ys == xs;
    } else {
      RowSumAppend(xs, ys[..|ys| - 1], batch);
      assert (xs + ys)[..|xs + ys| - 1] == xs + ys[..|ys| - 1];
    }
  }

  lemma {:induction false} RowSumFor(ids: seq<int64>, at: Instant, account: int, batch: int, ts: seq<CreditTransfer>, other: int)
    requires |ids| == |ts|
    ensures RowSum(RowsFor(ids, at, account, batch, ts), other) == if other == batch then Sum(ts) else 0
  {
    if ts != [] {
      var n := |ts| - 1;
      RowSumFor(ids[..n], at, account, batch, ts[..n], other);
      assert RowsFor(ids, at, account, batch, ts)[..n] == RowsFor(ids[..n], at, account, batch, ts[..n]);
    }
  }

  lemma {:induction false} RowSumOfStrangers(rows: seq<Row>, batch: int)
    requires forall r :: r in rows ==> r.batch != Some(batch)
    ensures RowSum(rows, batch) == 0
  {
    if rows != [] {
      RowSumOfStrangers(rows[..|rows| - 1], batch);
    }
  }

  // ----- One submission -----

  lemma ApplyConserves(open: Tables, t: Tables, e: Entry)
    requires Conserved(open, t) && Legal(t, e)
    ensures Conserved(open, Apply(t, e)) && Grows(t, Apply(t, e))
  {
    var d, t' := Decide(t, e.req), Apply(t, e);
    if d.Create? {
      assert t'.batches[..|t'.batches| - 1] == t.batches;
      assert d.account in t.balances;
    } else {
      assert t'.batches == t.batches && t'.rows == t.rows;
    }
  }

  lemma ApplyOnce(t: Tables, e: Entry)
    requires ExactlyOnce(t) && Legal(t, e)
    ensures ExactlyOnce(Apply(t, e))
  {
    var t' := Apply(t, e);
    if Decide(t, e.req).Create? {
      assert t'.batches[..|t'.batches| - 1] == t.batches;
    } else {
      assert t'.batches == t.batches;
    }
  }

  lemma ApplyBalances(t: Tables, e: Entry)
    requires Balanced(t) && Legal(t, e)
    ensures Balanced(Apply(t, e))
  {
    var d, t' := Decide(t, e.req), Apply(t, e);
    if d.Create? {
      var batch := BatchFor(d.account, e.req, e.draw);
      var rows := RowsFor(e.draw.rowIds, e.draw.now, d.account, batch.id, e.req.transfers);
      assert t'.rows == t.rows + rows && t'.batches == t.batches + [batch];
      assert batch in t'.batches;
      forall b | b in t'.batches ensures b.total > 0 && b.total == Wrap(RowSum(t'.rows, b.id)) {
        RowSumAppend(t.rows, rows, b.id);
        RowSumFor(e.draw.rowIds, e.draw.now, d.account, batch.id, e.req.transfers, b.id);
        if b == batch {
          RowSumOfStrangers(t.rows, batch.id);
        }
      }
    } else {
      assert t'.batches == t.batches && t'.rows == t.rows;
    }
  }

  // ----- Any number of submissions -----

  lemma {:induction false} SerialConserves(open: Tables, log: seq<Entry>, n: nat)
    requires Opening(open) && LegalLog(open, log) && n <= |log|
    ensures Conserved(open, Upto(open, log, n))
    decreases n
  {
    if n > 0 {
      SerialConserves(open, log, n - 1);
      assert LegalAt(open, log, n - 1);
      ApplyConserves(open, Upto(open, log, n - 1), log[n - 1]);
    }
  }

  lemma {:induction false} SerialOnce(open: Tables, log: seq<Entry>, n: nat)
    requires Opening(open) && LegalLog(open, log) && n <= |log|
    ensures ExactlyOnce(Upto(open, log, n))
    decreases n
  {
    if n > 0 {
      SerialOnce(open, log, n - 1);
      assert LegalAt(open, log, n - 1);
      ApplyOnce(Upto(open, log, n - 1), log[n - 1]);
    }
  }

  lemma {:induction false} SerialBalances(open: Tables, log: seq<Entry>, n: nat)
    requires Opening(open) && LegalLog(open, log) && n <= |log|
    ensures Balanced(Upto(open, log, n))
    decreases n
  {
    if n > 0 {
      SerialBalances(open, log, n - 1);
      assert LegalAt(open, log, n - 1);
      ApplyBalances(Upto(open, log, n - 1), log[n - 1]);
    }
  }

  lemma SerialKeeps(open: Tables, log: seq<Entry>, n: nat)
    requires Opening(open) && LegalLog(open, log) && n <= |log|
    ensures Conserved(open, Upto(open, log, n)) && ExactlyOnce(Upto(open, log, n)) && Balanced(Upto(open, log, n))
  {
    SerialConserves(open, log, n);
    SerialOnce(open, log, n);
    SerialBalances(open, log, n);
  }

  lemma ApplyKeepsLedger(t: Tables, e: Entry, key: string)
    requires key in t.ledger
    ensures key in Apply(t, e).ledger && Apply(t, e).ledger[key] == t.ledger[key]
  {
  }

  /** A recorded status is never changed and never lost. */
  lemma {:induction false} SerialKeepsLedger(open: Tables, log: seq<Entry>, i: nat, n: nat, key: string)
    requires i <= n <= |log| && key in Upto(open, log, i).ledger
    ensures key in Upto(open, log, n).ledger && Upto(open, log, n).ledger[key] == Upto(open, log, i).ledger[key]
    decreases n
  {
    if i < n {
      SerialKeepsLedger(open, log, i, n - 1, key);
      ApplyKeepsLedger(Upto(open, log, n - 1), log[n - 1], key);
    }
  }

  /** What is appended to a log does not change what came before. */
  lemma {:induction false} UptoExtends(open: Tables, log: seq<Entry>, e: Entry, n: nat)
    requires n <= |log|
    ensures Upto(open, log + [e], n) == Upto(open, log, n)
    decreases n
  {
    if n > 0 {
      UptoExtends(open, log, e, n - 1);
    }
  }
}
