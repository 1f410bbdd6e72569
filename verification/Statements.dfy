/** What each call of internal/transfer/store does to the transaction that sends it: defined once,
    kept by the methods of module Submission, and met by the steps of module Protocol. */
module Statements {
  import opened Int64
  import opened Results
  import opened Transfers
  import opened Bank

  /** An open transaction: the tables as everybody sees them, and what is its own. */
  datatype Session = Session(
    committed: Tables, writes: Writes, failed: bool,
    lockedKey: Option<string>, lockedRow: Option<int>, draw: Draw)

  function SeenBy(v: Session): Tables {
    View(v.committed, v.writes)
  }

  function Begun(t: Tables, now: Instant): Session {
    Session(t, NO_WRITES, false, None, None, Draw(now, 0, []))
  }

  function WithKeyLocked(v: Session, key: string): Session {
    v.(lockedKey := Some(key))
  }

  function AccountAt(v: Session, iban: string, bic: string): Option<int> {
    if (iban, bic) in v.committed.directory then Some(v.committed.directory[(iban, bic)]) else None
  }

  function WithAccountLocked(v: Session, iban: string, bic: string): Session {
    if AccountAt(v, iban, bic).Some? then v.(lockedRow := AccountAt(v, iban, bic)) else v
  }

  function WithBatch(v: Session, account: int, key: string, total: int, batchId: int): Session {
    v.(draw := v.draw.(batchId := batchId),
       writes := v.writes.(batches := v.writes.batches + [Batch(batchId, account, key, total)]))
  }

  function WithRows(v: Session, account: int, batchId: int, transfers: seq<CreditTransfer>, rowIds: seq<int64>): Session
    requires |rowIds| == |transfers|
  {
    v.(draw := v.draw.(rowIds := rowIds),
       writes := v.writes.(rows := v.writes.rows + RowsFor(rowIds, v.draw.now, account, batchId, transfers)))
  }

  function WithBalance(v: Session, account: int, balance: int): Session {
    v.(writes := v.writes.(balances := v.writes.balances[account := balance]))
  }

  /** A unique violation leaves the transaction in the failed state. */
  function WithKeyRecorded(v: Session, key: string, status: int): Session {
    if key in SeenBy(v).ledger then v.(failed := true)
    else v.(writes := v.writes.(ledger := v.writes.ledger[key := status]))
  }
}
