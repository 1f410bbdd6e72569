/** SubmitBulkTransfer (internal/transfer/service/transfer.go) under any interleaving: a step
    machine over the statements it sends, with crashes, failures and ambiguous commits. */
module Protocol {
  import opened Int64
  import opened Results
  import opened Transfers
  import opened Bank
  import opened Sequential

  // ----- State -----

  /** What the theorems hold for every choice of: the advisory-lock hash (collisions allowed),
      the pool size of each instance, and whether the database enforces the balance CHECK. */
  datatype Env = Env(hash: string -> int, poolSize: int -> nat, balanceCheck: bool)

  datatype Outcome = Replied(reply: Reply) | Failed

  /** The statement an attempt sends next. */
  datatype Pc =
    | Arrived                  // a connection, and BEGIN
    | Begun                    // AdvisoryLock
    | KeyLocked                // FindIdempotencyRecordStatus
    | KeyFresh                 // FindAccountForUpdate
    | Funded                   // InsertBatch
    | Batched                  // InsertTransactions
    | Loaded                   // DebitAccount
    | Recording(status: int)   // RecordIdempotency
    | Committing(status: int)  // COMMIT: the callback returned nil
    | Aborting                 // ROLLBACK: the callback failed or panicked, or the process died
    | Done(outcome: Outcome)

  /** One call of SubmitBulkTransfer. A retry is another attempt with the same key.
      `aborted` is Postgres's failed-transaction state, in which COMMIT rolls back;
      `committedAt` is a history variable: the position of its commit in the log. */
  datatype Attempt = Attempt(
    req: Request, instance: int, pc: Pc, draw: Draw, account: int, balance: int,
    writes: Writes, aborted: bool, committedAt: Option<nat>)

  /** `advisory` and `rowLocks` say who holds what; `batchIds` and `rowIds` which attempt drew a
      sequence id (no id is drawn twice, and no draw is undone); `initial` and `log` are history. */
  datatype State = State(
    initial: Tables, tables: Tables, log: seq<Entry>, attempts: seq<Attempt>,
    advisory: map<int, nat>, rowLocks: map<int, nat>,
    batchIds: map<int, nat>, rowIds: map<int64, Option<nat>>, violations: nat)

  /** At most this many more steps for an attempt. */
  function Remaining(pc: Pc): nat {
    match pc
    case Arrived => 10
    case Begun => 9
    case KeyLocked => 8
    case KeyFresh => 7
    case Funded => 6
    case Batched => 5
    case Loaded => 4
    case Recording(_) => 3
    case Committing(_) => 2
    case Aborting => 1
    case Done(_) => 0
  }

  predicate InTransaction(pc: Pc) {
    !pc.Arrived? && !pc.Done?
  }

  predicate Holds(locks: map<int, nat>, key: int, id: nat) {
    key in locks && locks[key] == id
  }

  function Release(locks: map<int, nat>, id: nat): map<int, nat> {
    map key | key in locks && locks[key] != id :: locks[key]
  }

  /** The attempts of an instance that occupy a pooled connection. */
  function Busy(s: State, instance: int): set<nat> {
    set id: nat | id < |s.attempts| && InTransaction(s.attempts[id].pc) && s.attempts[id].instance == instance
  }

  ghost predicate Init(s: State) {
    && Opening(s.initial) && s.tables == s.initial
    && s.log == [] && s.attempts == [] && s.advisory == map[] && s.rowLocks == map[] && s.batchIds == map[]
    && (forall r :: r in s.initial.rows ==> r.id in s.rowIds)
    && (forall id :: id in s.rowIds ==> s.rowIds[id] == None)
    && s.violations == 0
  }

  // ----- Steps -----

  /** `Fail` covers a statement error, a panic and a crash of the process; after it the client or
      the server rolls back. Ids and times are whatever the database hands out. */
  datatype Action =
    | Arrive(req: Request, instance: int)
    | Begin(now: Instant)
    | LockKey
    | Lookup
    | FindAccount
    | InsertBatch(batchId: int)
    | InsertRows(rowIds: seq<int64>)
    | Debit
    | Record
    | Commit(result: CommitResult)
    | Fail
    | Rollback

  datatype Label = Label(id: nat, action: Action)

  /** What the next statement of an attempt sees: READ COMMITTED plus its own writes. */
  function Seen(s: State, a: Attempt): Tables {
    View(s.tables, a.writes)
  }

  predicate Unlocked(locks: map<int, nat>, key: int, id: nat) {
    key in locks ==> locks[key] == id
  }

  /** An insert of a key waits for any open transaction that has inserted the same key. */
  predicate KeyPending(s: State, key: string, id: nat) {
    exists other: nat :: other < |s.attempts| && other != id && key in s.attempts[other].writes.ledger
  }

  predicate UnusedRows(s: State, rowIds: seq<int64>) {
    && (forall i :: 0 <= i < |rowIds| ==> rowIds[i] !in s.rowIds)
    && (forall i, j :: 0 <= i < j < |rowIds| ==> rowIds[i] != rowIds[j])
  }

  predicate Enabled(env: Env, s: State, l: Label) {
    if l.action.Arrive? then l.id == |s.attempts|
    else
      && l.id < |s.attempts|
      && var a := s.attempts[l.id];
      match l.action
      case Begin(_) => a.pc.Arrived? && |Busy(s, a.instance)| < env.poolSize(a.instance)
      case LockKey => a.pc.Begun? && Unlocked(s.advisory, env.hash(a.req.key), l.id)
      case Lookup => a.pc.KeyLocked?
      case FindAccount =>
        && a.pc.KeyFresh?
        && var where := (a.req.iban, a.req.bic);
        where in s.tables.directory ==> Unlocked(s.rowLocks, s.tables.directory[where], l.id)
      case InsertBatch(batchId) => a.pc.Funded? && batchId !in s.batchIds
      case InsertRows(rowIds) => a.pc.Batched? && |rowIds| == |a.req.transfers| && UnusedRows(s, rowIds)
      case Debit => a.pc.Loaded? && Unlocked(s.rowLocks, a.account, l.id)
      case Record => a.pc.Recording? && !KeyPending(s, a.req.key, l.id)
      case Commit(_) => a.pc.Committing?
      case Fail => !a.pc.Done? && !a.pc.Aborting?
      case Rollback => a.pc.Aborting?
  }

  function Set(s: State, id: nat, a: Attempt): State
    requires id < |s.attempts|
  {
    s.(attempts := s.attempts[id := a])
  }

  /** The transaction is over: its locks are released and its uncommitted writes are gone. */
  function End(s: State, id: nat, a: Attempt, outcome: Outcome): State
    requires id < |s.attempts|
  {
    Set(s, id, a.(pc := Done(outcome), writes := NO_WRITES, aborted := false))
      .(advisory := Release(s.advisory, id), rowLocks := Release(s.rowLocks, id))
  }

  function DoLookup(s: State, id: nat, a: Attempt): State
    requires id < |s.attempts|
  {
    var seen := Seen(s, a);
    Set(s, id, a.(pc := if a.req.key in seen.ledger then Committing(seen.ledger[a.req.key]) else KeyFresh))
  }

  function DoFindAccount(s: State, id: nat, a: Attempt): State
    requires id < |s.attempts|
  {
    var where := (a.req.iban, a.req.bic);
    if where !in s.tables.directory then Set(s, id, a.(pc := Recording(ACCOUNT_NOT_FOUND)))
    else
      var account := s.tables.directory[where];
      var balance := BalanceOf(Seen(s, a), account);
      var pc := if balance < Total(a.req) then Recording(INSUFFICIENT_FUNDS) else Funded;
      Set(s, id, a.(pc := pc, account := account, balance := balance)).(rowLocks := s.rowLocks[account := id])
  }

  /** The id is drawn even if the CHECK on the total then refuses the row. */
  function DoInsertBatch(s: State, id: nat, a: Attempt, batchId: int): State
    requires id < |s.attempts|
  {
    var draw := a.draw.(batchId := batchId);
    var a' :=
      if Total(a.req) <= 0 then a.(pc := Aborting, draw := draw)
      else a.(pc := Batched, draw := draw,
              writes := a.writes.(batches := a.writes.batches + [BatchFor(a.account, a.req, draw)]));
    Set(s, id, a').(batchIds := s.batchIds[batchId := id])
  }

  function DoInsertRows(s: State, id: nat, a: Attempt, rowIds: seq<int64>): State
    requires id < |s.attempts| && |rowIds| == |a.req.transfers|
  {
    var rows := RowsFor(rowIds, a.draw.now, a.account, a.draw.batchId, a.req.transfers);
    Set(s, id, a.(pc := Loaded, draw := a.draw.(rowIds := rowIds), writes := a.writes.(rows := a.writes.rows + rows)))
      .(rowIds := s.rowIds + (map x | x in rowIds :: Some(id)))
  }

  /** UPDATE ... RETURNING under the balance CHECK. */
  predicate DebitRefused(env: Env, newBalance: int) {
    !Fits(newBalance) || (env.balanceCheck && newBalance < 0)
  }

  /** The debit, and checkBalanceInvariant on the balance it returned. */
  function Debited(env: Env, a: Attempt, newBalance: int): Attempt {
    if DebitRefused(env, newBalance) || newBalance < 0 then a.(pc := Aborting)
    else a.(pc := Recording(CREATED), writes := a.writes.(balances := a.writes.balances[a.account := newBalance]))
  }

  function DoDebit(env: Env, s: State, id: nat, a: Attempt): State
    requires id < |s.attempts|
  {
    var newBalance := BalanceOf(Seen(s, a), a.account) - Total(a.req);
    Set(s, id, Debited(env, a, newBalance)).(
      rowLocks := s.rowLocks[a.account := id],
      violations := if !DebitRefused(env, newBalance) && newBalance < 0 then s.violations + 1 else s.violations)
  }

  /** A unique violation is swallowed by the service, but leaves the transaction failed. */
  function Recorded(seen: Tables, a: Attempt): Attempt
    requires a.pc.Recording?
  {
    if a.req.key in seen.ledger then a.(pc := Committing(a.pc.status), aborted := true)
    else a.(pc := Committing(a.pc.status),
            writes := a.writes.(ledger := a.writes.ledger[a.req.key := a.pc.status]))
  }

  function DoCommit(s: State, id: nat, a: Attempt, result: CommitResult): State
    requires id < |s.attempts| && a.pc.Committing?
  {
    if a.aborted || result.Refused? then End(s, id, a, Failed)
    else
      var outcome := if result.Lost? then Failed else Replied(ReplyFor(a.pc.status));
      End(s, id, a.(committedAt := Some(|s.log|)), outcome)
        .(tables := View(s.tables, a.writes), log := s.log + [Entry(id, a.req, a.draw)])
  }

  function Newcomer(req: Request, instance: int): Attempt {
    Attempt(req, instance, Arrived, Draw(0, 0, []), 0, 0, NO_WRITES, false, None)
  }

  function Next(env: Env, s: State, l: Label): State
    requires Enabled(env, s, l)
  {
    if l.action.Arrive? then s.(attempts := s.attempts + [Newcomer(l.action.req, l.action.instance)])
    else
      var a := s.attempts[l.id];
      match l.action
      case Begin(now) => Set(s, l.id, a.(pc := Begun, draw := a.draw.(now := now)))
      case LockKey => Set(s, l.id, a.(pc := KeyLocked)).(advisory := s.advisory[env.hash(a.req.key) := l.id])
      case Lookup => DoLookup(s, l.id, a)
      case FindAccount => DoFindAccount(s, l.id, a)
      case InsertBatch(batchId) => DoInsertBatch(s, l.id, a, batchId)
      case InsertRows(rowIds) => DoInsertRows(s, l.id, a, rowIds)
      case Debit => DoDebit(env, s, l.id, a)
      case Record => Set(s, l.id, Recorded(Seen(s, a), a))
      case Commit(result) => DoCommit(s, l.id, a, result)
      case Fail => Set(s, l.id, a.(pc := if a.pc.Arrived? then Done(Failed) else Aborting))
      case Rollback => End(s, l.id, a, Failed)
  }

  // ----- Runs -----

  predicate ValidRun(env: Env, s: State, run: seq<Label>)
    decreases |run|
  {
    run == [] || (Enabled(env, s, run[0]) && ValidRun(env, Next(env, s, run[0]), run[1..]))
  }

  function After(env: Env, s: State, run: seq<Label>): State
    requires ValidRun(env, s, run)
    decreases |run|
  {
    if run == [] then s else After(env, Next(env, s, run[0]), run[1..])
  }
}
