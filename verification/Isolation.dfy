/** What a transaction may rely on while others run: the interface between the step machine, which
    guarantees it, and the code of one submission, which is proved under it. */
module Isolation {
  import opened Int64
  import opened Results
  import opened Transfers
  import opened Bank
  import opened Sequential

  /** The committed tables change from `t` to `t'` while this transaction holds the advisory lock
      of `key` and the row lock of `account`. */
  predicate Rely(t: Tables, t': Tables, key: Option<string>, account: Option<int>) {
    && t'.directory == t.directory && Grows(t, t')
    && (forall x :: x in t'.balances ==> 0 <= t'.balances[x] <= MAX)
    && (key.Some? && key.value !in t.ledger ==> key.value !in t'.ledger)
    && (account.Some? && account.value in t.balances ==> t'.balances[account.value] == t.balances[account.value])
  }

  /** And nobody but the other transactions changes them: `others(n)` is what those have made of
      the tables by the n-th statement of this one. */
  ghost predicate ByOthers(others: nat -> Tables, t: Tables, t': Tables, key: Option<string>, account: Option<int>) {
    Rely(t, t', key, account) && (t' == t || exists n :: others(n) == t')
  }

  predicate Valid(t: Tables) {
    && (forall p :: p in t.directory ==> t.directory[p] in t.balances)
    && (forall x :: x in t.balances ==> 0 <= t.balances[x] <= MAX)
  }

  lemma Weakens(others: nat -> Tables, t: Tables, t': Tables, key: Option<string>, account: Option<int>)
    requires ByOthers(others, t, t', key, account)
    ensures ByOthers(others, t, t', None, None) && ByOthers(others, t, t', key, None)
  {
  }

  lemma Chains(others: nat -> Tables, t: Tables, t': Tables, t'': Tables, key: Option<string>, account: Option<int>)
    requires ByOthers(others, t, t', key, account) && ByOthers(others, t', t'', key, account)
    ensures ByOthers(others, t, t'', key, account)
  {
  }

  /** Under both locks the decision and everything it writes are settled. */
  lemma DecisionSettled(t: Tables, t': Tables, req: Request, draw: Draw, account: Option<int>)
    requires Valid(t) && Rely(t, t', Some(req.key), account)
    requires req.key !in t.ledger && (req.iban, req.bic) in t.directory ==>
      account == Some(t.directory[(req.iban, req.bic)])
    ensures Decide(t', req) == Decide(t, req) && Effect(t', req, draw) == Effect(t, req, draw)
  {
  }

  /** What an accepted submission writes, spelled out. */
  lemma EffectOfBatch(t: Tables, req: Request, draw: Draw, account: int)
    requires req.key !in t.ledger && (req.iban, req.bic) in t.directory
    requires account == t.directory[(req.iban, req.bic)] && BalanceOf(t, account) >= Total(req) > 0
    requires |draw.rowIds| == |req.transfers|
    ensures Decide(t, req) == Create(account)
    ensures Effect(t, req, draw) == Writes(
      map[account := BalanceOf(t, account) - Total(req)], map[req.key := CREATED],
      [BatchFor(account, req, draw)], RowsFor(draw.rowIds, draw.now, account, draw.batchId, req.transfers))
  {
  }

  lemma EffectKeepsValid(t: Tables, req: Request, draw: Draw)
    requires Valid(t)
    ensures Valid(View(t, Effect(t, req, draw)))
  {
  }
}
