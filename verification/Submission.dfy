/** The code as it runs: one call of SubmitBulkTransfer inside Atomic, statement by statement, on
    tables that other transactions keep changing as far as this one's locks let them. */
module Submission {
  import opened Int64
  import opened Results
  import opened Transfers
  import opened Bank
  import opened Isolation
  import opened Statements

  // ----- Errors -----

  /** A Go error: a Postgres error, an error wrapping another, or anything else. */
  datatype Error =
    | PgError(code: string)
    | Wrap(inner: Error)
    | Plain

  const UNIQUE_VIOLATION: string := "23505"

  /** The first Postgres error of a chain. */
  function FirstPgCode(e: Error): Option<string> {
    match e
    case PgError(code) => Some(code)
    case Wrap(inner) => FirstPgCode(inner)
    case Plain => None
  }

  method AsPgError(e: Error) returns (code: Option<string>)
    ensures code == FirstPgCode(e)
  {
    if e.PgError? {
      return Some(e.code);
    }
    var err := e;
    while err.Wrap?
      invariant FirstPgCode(err) == FirstPgCode(e) && !err.PgError?
      decreases err
    {
      err := err.inner;
      if err.PgError? {
        return Some(err.code);
      }
    }
    return None;
  }

  method IsUniqueViolation(e: Error) returns (b: bool)
    ensures b <==> FirstPgCode(e) == Some("23505")
  {
    var code := AsPgError(e);
    b := code == Some(UNIQUE_VIOLATION);
  }

  /** How a call ends: it returns nil, returns an error, or panics. */
  datatype Ending = Nil | Failed(error: Error) | Panicked

  /** What goes wrong by itself at the n-th statement: it fails for reasons of its own, or the code
      around it panics. Never a unique violation, which is the database's answer to a taken key. */
  function MishapAt(mishaps: nat -> Ending, n: nat): (e: Ending)
    ensures e.Failed? ==> FirstPgCode(e.error) != Some(UNIQUE_VIOLATION)
  {
    var e := mishaps(n);
    if e.Failed? && FirstPgCode(e.error) == Some(UNIQUE_VIOLATION) then Failed(Plain) else e
  }

  /** Nothing goes wrong by itself after statement `m`, up to statement `n`. */
  predicate Smooth(mishaps: nat -> Ending, m: nat, n: nat) {
    n <= m || (Smooth(mishaps, m, n - 1) && MishapAt(mishaps, n).Nil?)
  }

  lemma {:induction false} SmoothJoins(mishaps: nat -> Ending, m: nat, mid: nat, n: nat)
    requires m <= mid <= n
    ensures Smooth(mishaps, m, n) <==> Smooth(mishaps, m, mid) && Smooth(mishaps, mid, n)
    decreases n
  {
    if mid < n {
      SmoothJoins(mishaps, m, mid, n - 1);
    }
  }

  /** A CHECK constraint refused the row. */
  const CHECK_FAILED := Failed(Wrap(PgError("23514")))

  /** How a statement ends that the database accepts, or that a CHECK refuses. */
  function Verdict(mishaps: nat -> Ending, n: nat, accepted: bool): Ending {
    if !MishapAt(mishaps, n).Nil? then MishapAt(mishaps, n) else if accepted then Nil else CHECK_FAILED
  }

  // ----- The connection -----

  /** The database as one transaction sees it, through the pooled connection it runs on. */
  class Connection {
    // What each statement meets: the tables as other transactions have left them, a mishap, the
    // way a COMMIT ends.
    const others: nat -> Tables
    const mishaps: nat -> Ending
    const endings: nat -> CommitResult
    var statements: nat
    var committed: Tables            // what every other transaction can see
    var writes: Writes               // what this one has written
    var open: bool
    var failed: bool                 // Postgres's failed-transaction state
    var lockedKey: Option<string>    // advisory lock held
    var lockedRow: Option<int>       // account row locked
    var draw: Draw                   // start time and sequence ids this transaction was given
    var begins: nat
    var commits: nat                 // COMMITs sent
    var acknowledged: nat            // COMMITs that were applied and answered so
    var rollbacks: nat
    var violations: nat              // the balance_invariant_violations counter

    constructor (t: Tables, others: nat -> Tables, mishaps: nat -> Ending, endings: nat -> CommitResult)
      requires Valid(t)
      ensures committed == t && !open && this.others == others && this.mishaps == mishaps && this.endings == endings
      ensures begins == commits == acknowledged == rollbacks == violations == 0
    {
      this.others, this.mishaps, this.endings, statements := others, mishaps, endings, 0;
      committed, writes, open, failed := t, NO_WRITES, false, false;
      lockedKey, lockedRow, draw := None, None, Draw(0, 0, []);
      begins, commits, acknowledged, rollbacks, violations := 0, 0, 0, 0, 0;
    }

    /** Between any two statements others commit, unless the locks of this one make them wait. */
    method Others()
      requires Valid(committed)
      modifies this`committed, this`statements
      ensures Valid(committed) && ByOthers(others, old(committed), committed, lockedKey, lockedRow)
      ensures statements == old(statements) + 1
    {
      statements := statements + 1;
      var t := others(statements);
      if Rely(committed, t, lockedKey, lockedRow) {
        assert t.balances.Keys == committed.balances.Keys;
        committed := t;
      }
    }

    function Snapshot(): Session
      reads this
    {
      Session(committed, writes, failed, lockedKey, lockedRow, draw)
    }

    // ----- internal/transfer/store -----

    method AdvisoryLock(key: string) returns (e: Ending)
      requires open && Valid(committed)
      modifies this`committed, this`statements, this`lockedKey, this`failed
      ensures Valid(committed) && ByOthers(others, old(committed), committed, None, lockedRow)
      ensures statements == old(statements) + 1 && e == Verdict(mishaps, statements, true)
      ensures e.Nil? ==> Snapshot() == WithKeyLocked(old(Snapshot()).(committed := committed), key)
      ensures !e.Nil? ==> lockedKey == old(lockedKey)
    {
      Others();
      e := MishapAt(mishaps, statements);
      if e.Nil? {
        lockedKey := Some(key);
      } else {
        failed := true;
      }
    }

    method FindIdempotencyRecordStatus(key: string) returns (e: Ending, status: int, found: bool)
      requires open && Valid(committed)
      modifies this`committed, this`statements, this`failed
      ensures Valid(committed) && ByOthers(others, old(committed), committed, lockedKey, lockedRow)
      ensures statements == old(statements) + 1 && e == Verdict(mishaps, statements, true)
      ensures e.Nil? ==> Snapshot() == old(Snapshot()).(committed := committed)
      ensures e.Nil? ==>
        var ledger := SeenBy(Snapshot()).ledger; (found <==> key in ledger) && (found ==> status == ledger[key])
    {
      Others();
      status, found := 0, false;
      e := MishapAt(mishaps, statements);
      if !e.Nil? {
        failed := true;
        return;
      }
      var ledger := SeenBy(Snapshot()).ledger;
      found := key in ledger;
      if found {
        status := ledger[key];
      }
    }

    /** SELECT ... FOR UPDATE: waits for the row, then reads what is committed by then. */
    method FindAccountForUpdate(iban: string, bic: string) returns (e: Ending, account: int, balance: int, found: bool)
      requires open && Valid(committed) && lockedRow == None
      modifies this`committed, this`statements, this`failed, this`lockedRow
      ensures Valid(committed) && ByOthers(others, old(committed), committed, lockedKey, None)
      ensures statements == old(statements) + 1 && e == Verdict(mishaps, statements, true)
      ensures e.Nil? ==> Snapshot() == WithAccountLocked(old(Snapshot()).(committed := committed), iban, bic)
      ensures e.Nil? ==> (found <==> AccountAt(Snapshot(), iban, bic).Some?)
      ensures e.Nil? && found ==>
        AccountAt(Snapshot(), iban, bic) == Some(account) && balance == BalanceOf(SeenBy(Snapshot()), account)
    {
      Others();
      account, balance, found := 0, 0, false;
      e := MishapAt(mishaps, statements);
      if !e.Nil? {
        failed := true;
        return;
      }
      found := (iban, bic) in committed.directory;
      if found {
        account := committed.directory[(iban, bic)];
        lockedRow := Some(account);
        balance := BalanceOf(SeenBy(Snapshot()), account);
      }
    }

    /** The CHECK on the total refuses what is not positive; the id is drawn either way. */
    method InsertBatch(account: int, key: string, total: int64) returns (e: Ending, batchId: int)
      requires open && Valid(committed)
      modifies this`committed, this`statements, this`failed, this`writes, this`draw
      ensures Valid(committed) && ByOthers(others, old(committed), committed, lockedKey, lockedRow)
      ensures statements == old(statements) + 1 && e == Verdict(mishaps, statements, total > 0)
      ensures e.Nil? ==>
        total > 0 && Snapshot() == WithBatch(old(Snapshot()).(committed := committed), account, key, total, batchId)
      ensures !e.Nil? ==> writes == old(writes)
    {
      Others();
      batchId := *;
      draw := draw.(batchId := batchId);
      e := MishapAt(mishaps, statements);
      if e.Nil? && total <= 0 {
        e := CHECK_FAILED;
      }
      if !e.Nil? {
        failed := true;
        return;
      }
      writes := writes.(batches := writes.batches + [Batch(batchId, account, key, total)]);
    }

    /** One row per transfer, its amount stored as it is, then one COPY. */
    method InsertTransactions(account: int, batchId: int, transfers: seq<CreditTransfer>) returns (e: Ending)
      requires open && Valid(committed)
      modifies this`committed, this`statements, this`failed, this`writes, this`draw
      ensures Valid(committed) && ByOthers(others, old(committed), committed, lockedKey, lockedRow)
      ensures statements == old(statements) + 1 && e == Verdict(mishaps, statements, true)
      ensures |draw.rowIds| == |transfers|
      ensures e.Nil? ==> RowsAdded(old(writes.rows), writes.rows, draw, account, batchId, transfers)
      ensures e.Nil? ==>
        Snapshot() == WithRows(old(Snapshot()).(committed := committed), account, batchId, transfers, draw.rowIds)
      ensures !e.Nil? ==> writes == old(writes)
    {
      Others();
      assert |seq(|transfers|, _ => 0 as int64)| == |transfers|;
      var ids: seq<int64> :| |ids| == |transfers|;
      draw := draw.(rowIds := ids);
      var rows: seq<Row> := [];
      for i := 0 to |transfers|
        invariant rows == RowsFor(ids, draw.now, account, batchId, transfers)[..i]
      {
        rows := rows + [Row(ids[i], draw.now, account, Some(batchId), transfers[i])];
      }
      e := MishapAt(mishaps, statements);
      if !e.Nil? {
        failed := true;
        return;
      }
      assert rows == RowsFor(ids, draw.now, account, batchId, transfers);
      writes := writes.(rows := writes.rows + rows);
    }

    /** UPDATE ... RETURNING under the row lock and the balance CHECK. */
    method DebitAccount(account: int, amount: int64) returns (e: Ending, newBalance: int)
      requires open && Valid(committed)
      modifies this`committed, this`statements, this`failed, this`writes
      ensures Valid(committed) && ByOthers(others, old(committed), committed, lockedKey, lockedRow)
      ensures statements == old(statements) + 1
      ensures var next := BalanceOf(SeenBy(old(Snapshot()).(committed := committed)), account) - amount;
        && (next <= MAX ==> e == Verdict(mishaps, statements, next >= 0)) && (next > MAX ==> !e.Nil?)
        && (e.Nil? ==> newBalance == next)
      ensures e.Nil? ==> Snapshot() == WithBalance(old(Snapshot()).(committed := committed), account, newBalance)
      ensures !e.Nil? ==> writes == old(writes)
    {
      Others();
      e := MishapAt(mishaps, statements);
      newBalance := BalanceOf(SeenBy(Snapshot()), account) - amount;
      if e.Nil? && newBalance < 0 {
        e := CHECK_FAILED;
      } else if e.Nil? && !Fits(newBalance) {
        e := Failed(Wrap(PgError("22003")));
      }
      if !e.Nil? {
        failed := true;
        return;
      }
      writes := writes.(balances := writes.balances[account := newBalance]);
    }

    /** A unique violation is taken to mean that someone else recorded the key: the call returns
        nil, but the transaction is in the failed state. */
    method RecordIdempotency(key: string, status: int) returns (e: Ending)
      requires open && Valid(committed)
      modifies this`committed, this`statements, this`failed, this`writes
      ensures Valid(committed) && ByOthers(others, old(committed), committed, lockedKey, lockedRow)
      ensures statements == old(statements) + 1 && e == Verdict(mishaps, statements, true)
      ensures e.Nil? ==> Snapshot() == WithKeyRecorded(old(Snapshot()).(committed := committed), key, status)
      ensures !e.Nil? ==> writes == old(writes)
    {
      Others();
      e := MishapAt(mishaps, statements);
      if e.Nil? && key in SeenBy(Snapshot()).ledger {
        e := Failed(Wrap(PgError(UNIQUE_VIOLATION)));
      }
      if e.Nil? {
        writes := writes.(ledger := writes.ledger[key := status]);
        return;
      }
      failed := true;
      if e.Failed? {
        var unique := IsUniqueViolation(e.error);
        if unique {
          e := Nil;
        }
      }
    }

    // ----- internal/transfer/service -----

    method CheckBalanceInvariant(newBalance: int) returns (e: Ending)
      modifies this`violations
      ensures e.Nil? <==> newBalance >= 0
      ensures violations == if newBalance >= 0 then old(violations) else old(violations) + 1
    {
      if newBalance >= 0 {
        return Nil;
      }
      violations := violations + 1;
      return Failed(Plain);
    }

    /** The locks that settle a request: the key's, and for a new key with a known account also the
        row's. */
    predicate Locked(req: Request)
      reads this
    {
      && lockedKey == Some(req.key)
      && (req.key !in committed.ledger && (req.iban, req.bic) in committed.directory ==>
            lockedRow == Some(committed.directory[(req.iban, req.bic)]))
    }

    /** This transaction has done exactly what the specification says, on the tables as they are
        now, and holds the locks that keep it so until it commits. */
    predicate Prepared(req: Request, reply: Reply)
      reads this
    {
      && Valid(committed) && open && !failed && Locked(req)
      && SubmittedOn(committed, req, reply)
      && writes == Effect(committed, req, draw)
      && (Decide(committed, req).Create? ==> |draw.rowIds| == |req.transfers|)
    }

    /** Its last phase: the account has the funds, and this transaction holds both locks. */
    method PersistBatch(req: Request, account: int, total: int64) returns (e: Ending, result: Reply)
      requires open && !failed && Valid(committed) && writes == NO_WRITES && total == Total(req)
      requires Funded(req, account)
      modifies this`committed, this`statements, this`writes, this`failed, this`draw, this`violations
      ensures Valid(committed) && ByOthers(others, old(committed), committed, lockedKey, lockedRow)
      ensures violations == old(violations) && old(statements) < statements
      ensures e.Nil? ==> Prepared(req, result) && Smooth(mishaps, old(statements), statements) && total > 0
      ensures !e.Nil? ==> e == Verdict(mishaps, statements, false) && (MishapAt(mishaps, statements).Nil? ==> total <= 0)
    {
      result := Reply(0, None);
      ghost var t0, n := committed, statements;
      var batchId;
      e, batchId := InsertBatch(account, req.key, total);
      ghost var t1 := committed;
      if !e.Nil? {
        return;
      }
      e := InsertTransactions(account, batchId, req.transfers);
      ghost var t2, n2 := committed, statements;
      Chains(others, t0, t1, t2, lockedKey, lockedRow);
      if !e.Nil? {
        return;
      }
      assert Smooth(mishaps, n, n + 1) && Smooth(mishaps, n, n2);
      e, result := DebitAndRecord(req, account, total);
      Chains(others, t0, t2, committed, lockedKey, lockedRow);
      SmoothJoins(mishaps, n, n2, statements);
    }

    /** This transaction may debit the account for a new key: it holds both locks, and the funds
        are there. */
    predicate Funded(req: Request, account: int)
      reads this
    {
      && lockedKey == Some(req.key) && lockedRow == Some(account)
      && req.key !in committed.ledger && (req.iban, req.bic) in committed.directory
      && account == committed.directory[(req.iban, req.bic)] && BalanceOf(committed, account) >= Total(req)
    }

    /** With batch and rows pending, what is left of that phase. */
    method DebitAndRecord(req: Request, account: int, total: int64) returns (e: Ending, result: Reply)
      requires open && !failed && Valid(committed) && total == Total(req) > 0
      requires Funded(req, account) && |draw.rowIds| == |req.transfers|
      requires writes == Writes(map[], map[], [BatchFor(account, req, draw)],
                                RowsFor(draw.rowIds, draw.now, account, draw.batchId, req.transfers))
      modifies this`committed, this`statements, this`writes, this`failed, this`violations
      ensures Valid(committed) && ByOthers(others, old(committed), committed, lockedKey, lockedRow)
      ensures violations == old(violations) && old(statements) < statements
      ensures e.Nil? ==> Prepared(req, result) && Smooth(mishaps, old(statements), statements)
      ensures !e.Nil? ==> e == MishapAt(mishaps, statements)
    {
      result := Reply(0, None);
      ghost var v0, n := Snapshot(), statements;
      var newBalance;
      e, newBalance := DebitAccount(account, total);
      ghost var v1 := Snapshot();
      if !e.Nil? {
        return;
      }
      assert Smooth(mishaps, n, n + 1);
      e := CheckBalanceInvariant(newBalance);
      if !e.Nil? {
        return;
      }
      result := Reply(CREATED, None);
      e := RecordIdempotency(req.key, CREATED);
      Chains(others, v0.committed, v1.committed, committed, lockedKey, lockedRow);
      if e.Nil? {
        PersistedIsEffect(v0, v1, Snapshot(), req, account, newBalance);
      }
    }

    /** From its second phase on: the key is new, and its lock is held. */
    method ResolveAccount(req: Request) returns (e: Ending, result: Reply)
      requires open && !failed && Valid(committed) && lockedKey == Some(req.key) && lockedRow == None && writes == NO_WRITES
      requires req.key !in committed.ledger
      modifies this`committed, this`statements, this`writes, this`failed, this`lockedRow, this`draw, this`violations
      ensures Valid(committed) && ByOthers(others, old(committed), committed, lockedKey, None)
      ensures violations == old(violations) && old(statements) < statements
      ensures e.Nil? ==> Prepared(req, result) && Smooth(mishaps, old(statements), statements)
      ensures !e.Nil? ==> e == Verdict(mishaps, statements, false)
      ensures !e.Nil? && MishapAt(mishaps, statements).Nil? ==> Locked(req) && Decide(committed, req).Rejected?
    {
      result := Reply(0, None);
      ghost var t0, n := committed, statements;
      var account, balance, found;
      e, account, balance, found := FindAccountForUpdate(req.iban, req.bic);
      ghost var t1 := committed;
      if !e.Nil? {
        return;
      }
      assert Smooth(mishaps, n, statements);
      ghost var n1 := statements;
      if !found {
        result := ReplyFor(ACCOUNT_NOT_FOUND);
        e := RecordDenial(req, result.status);
        Weakens(others, t1, committed, lockedKey, lockedRow);
        Chains(others, t0, t1, committed, lockedKey, None);
        return;
      }

      var total := TotalCents(req);
      if balance < total {
        result := ReplyFor(INSUFFICIENT_FUNDS);
        e := RecordDenial(req, result.status);
        Weakens(others, t1, committed, lockedKey, lockedRow);
        Chains(others, t0, t1, committed, lockedKey, None);
        return;
      }
      e, result := PersistBatch(req, account, total);
      DecisionSettled(t1, committed, req, draw, lockedRow);
      SmoothJoins(mishaps, n, n1, statements);
      Weakens(others, t1, committed, lockedKey, lockedRow);
      Chains(others, t0, t1, committed, lockedKey, None);
    }

    /** The function SubmitBulkTransfer passes to Atomic. */
    method Callback(req: Request) returns (e: Ending, result: Reply)
      requires open && !failed && Valid(committed) && lockedKey == None && lockedRow == None && writes == NO_WRITES
      modifies this`committed, this`statements, this`writes, this`failed, this`lockedKey, this`lockedRow, this`draw, this`violations
      ensures Valid(committed) && ByOthers(others, old(committed), committed, None, None)
      ensures violations == old(violations) && old(statements) < statements
      ensures e.Nil? ==> Prepared(req, result) && Smooth(mishaps, old(statements), statements)
      ensures !e.Nil? ==> e == Verdict(mishaps, statements, false)
      ensures !e.Nil? && MishapAt(mishaps, statements).Nil? ==> Locked(req) && Decide(committed, req).Rejected?
    {
      result := Reply(0, None);
      ghost var t0, n := committed, statements;
      e := AdvisoryLock(req.key);
      ghost var t1 := committed;
      if !e.Nil? {
        return;
      }
      assert Smooth(mishaps, n, statements);
      var status, found;
      e, status, found := FindIdempotencyRecordStatus(req.key);
      ghost var t2 := committed;
      Weakens(others, t1, t2, lockedKey, lockedRow);
      Chains(others, t0, t1, t2, None, None);
      if !e.Nil? {
        return;
      }
      assert Smooth(mishaps, n, statements);
      ghost var n2 := statements;
      if found {
        result := ReplyFor(status);
        return;
      }
      e, result := ResolveAccount(req);
      SmoothJoins(mishaps, n, n2, statements);
      Weakens(others, t2, committed, lockedKey, None);
      Chains(others, t0, t2, committed, None, None);
    }

    /** A denial is recorded like any other outcome. */
    method RecordDenial(req: Request, status: int) returns (e: Ending)
      requires open && !failed && Valid(committed) && writes == NO_WRITES && lockedKey == Some(req.key)
      requires req.key !in committed.ledger
      requires (req.iban, req.bic) in committed.directory ==> lockedRow == Some(committed.directory[(req.iban, req.bic)])
      requires Decide(committed, req).NotFound? || Decide(committed, req).Insufficient?
      requires status == StatusOf(Decide(committed, req))
      modifies this`committed, this`statements, this`writes, this`failed
      ensures Valid(committed) && ByOthers(others, old(committed), committed, lockedKey, lockedRow)
      ensures statements == old(statements) + 1 && e == Verdict(mishaps, statements, true)
      ensures e.Nil? ==> Prepared(req, ReplyFor(status))
    {
      ghost var t0 := committed;
      e := RecordIdempotency(req.key, status);
      DecisionSettled(t0, committed, req, draw, lockedRow);
    }

    // ----- pkg/txn -----

    /** BEGIN: nothing written, nothing locked. */
    method Begin() returns (e: Ending)
      requires !open && Valid(committed)
      modifies this`committed, this`statements, this`writes, this`open, this`failed, this`lockedKey, this`lockedRow, this`draw, this`begins
      ensures Valid(committed) && ByOthers(others, old(committed), committed, None, None)
      ensures statements == old(statements) + 1 && (e.Nil? <==> MishapAt(mishaps, statements).Nil?)
      ensures e.Nil? ==> begins == old(begins) + 1 && open && Snapshot() == Begun(committed, draw.now)
      ensures !e.Nil? ==> !e.Panicked? && begins == old(begins) && !open
    {
      lockedKey, lockedRow := None, None;
      Others();
      e := MishapAt(mishaps, statements);
      if e.Panicked? {
        e := Failed(Plain);
      }
      var now: Instant := *;
      if e.Nil? {
        begins, open, failed, writes, draw := begins + 1, true, false, NO_WRITES, Draw(now, 0, []);
      }
    }

    method Rollback()
      requires open && Valid(committed)
      modifies this`committed, this`statements, this`writes, this`open, this`lockedKey, this`lockedRow, this`rollbacks
      ensures Valid(committed) && ByOthers(others, old(committed), committed, old(lockedKey), old(lockedRow))
      ensures !open && writes == NO_WRITES && rollbacks == old(rollbacks) + 1 && statements == old(statements) + 1
    {
      Others();
      open, writes, lockedKey, lockedRow := false, NO_WRITES, None, None;
      rollbacks := rollbacks + 1;
    }

    /** COMMIT: on a failed transaction it rolls back and reports an error. */
    method Commit() returns (e: Ending, ghost before: Tables)
      requires open && Valid(committed)
      modifies this`committed, this`statements, this`writes, this`open, this`lockedKey, this`lockedRow, this`commits, this`acknowledged
      ensures Valid(before) && ByOthers(others, old(committed), before, old(lockedKey), old(lockedRow))
      ensures e == (if !old(failed) && Answered(statements) then Nil else Failed(Plain))
      ensures committed == if old(failed) || endings(statements).Refused? then before else View(before, old(writes))
      ensures !open && commits == old(commits) + 1 && acknowledged == old(acknowledged) + if e.Nil? then 1 else 0
      ensures statements == old(statements) + 1
    {
      Others();
      before := committed;
      if !failed && !endings(statements).Refused? {
        committed := SeenBy(Snapshot());
      }
      e := Failed(Plain);
      if !failed && Answered(statements) {
        e, acknowledged := Nil, acknowledged + 1;
      }
      open, writes, lockedKey, lockedRow := false, NO_WRITES, None, None;
      commits := commits + 1;
    }

    /** A COMMIT at this statement is applied, and the client is told. */
    predicate Answered(n: nat) {
      endings(n).Acknowledged? && MishapAt(mishaps, n).Nil?
    }

    /** The deferred function of Atomic: commit if the callback returned nil, otherwise roll back
        and pass its error or its panic on. */
    method Finish(ending: Ending, ghost req: Request, ghost reply: Reply) returns (e: Ending, ghost before: Tables)
      requires open && Valid(committed) && (ending.Nil? ==> Prepared(req, reply))
      modifies this`committed, this`statements, this`writes, this`open, this`lockedKey, this`lockedRow, this`commits, this`acknowledged, this`rollbacks
      ensures Valid(committed) && ByOthers(others, old(committed), before, None, None)
      ensures !open && statements == old(statements) + 1
      ensures commits == old(commits) + if ending.Nil? then 1 else 0
      ensures rollbacks == old(rollbacks) + if ending.Nil? then 0 else 1
      ensures acknowledged == old(acknowledged) + if e.Nil? then 1 else 0
      ensures e == if !ending.Nil? then ending else if Answered(statements) then Nil else Failed(Plain)
      ensures ending.Nil? ==> SubmittedOn(before, req, reply) && Drawn(before, req, draw)
      ensures committed ==
        if !ending.Nil? || endings(statements).Refused? then before else View(before, Effect(before, req, draw))
      ensures !ending.Nil? && old(Locked(req)) && old(Decide(committed, req)).Rejected? ==> Decide(before, req).Rejected?
    {
      ghost var t, row := committed, lockedRow;
      if !ending.Nil? {
        Rollback();
        e, before := ending, committed;
        if old(Locked(req)) {
          DecisionSettled(t, before, req, draw, row);
        }
        Weakens(others, t, before, old(lockedKey), row);
        return;
      }
      e, before := Commit();
      AsOfTheCommit(others, t, before, req, reply, draw, row);
    }

    /** The callback and then the deferred function. */
    method InTransaction(req: Request) returns (e: Ending, result: Reply, ghost before: Tables)
      requires open && !failed && Valid(committed) && lockedKey == None && lockedRow == None && writes == NO_WRITES
      modifies this`committed, this`statements, this`writes, this`open, this`failed, this`lockedKey, this`lockedRow, this`draw,
               this`violations, this`commits, this`acknowledged, this`rollbacks
      ensures Valid(committed) && !open && violations == old(violations) && old(statements) < statements
      ensures commits + rollbacks == old(commits) + old(rollbacks) + 1 && commits >= old(commits) && rollbacks >= old(rollbacks)
      ensures acknowledged == old(acknowledged) + if e.Nil? then 1 else 0
      ensures e.Nil? ==> commits > old(commits)
      ensures e.Panicked? ==> rollbacks > old(rollbacks)
      ensures rollbacks > old(rollbacks) ==> e == Verdict(mishaps, statements - 1, false)
      ensures e.Nil? <==>
        && Smooth(mishaps, old(statements), statements) && endings(statements).Acknowledged?
        && !Decide(before, req).Rejected?
      ensures ByOthers(others, old(committed), before, None, None)
      ensures commits > old(commits) ==> SubmittedOn(before, req, result) && Drawn(before, req, draw)
      ensures committed ==
        if commits == old(commits) || endings(statements).Refused? then before else View(before, Effect(before, req, draw))
    {
      ghost var t0, n := committed, statements;
      e, result := Callback(req);
      ghost var t1, n1 := committed, statements;
      e, before := Finish(e, req, result);
      EndsWell(mishaps, n, n1);
      Chains(others, t0, t1, before, None, None);
    }

    /** Atomic with that callback. A transaction that has begun gets exactly one commit or
        rollback; a panic always a rollback, and it goes on. `before` is what the others have made
        of the tables in the meantime. The call ends in nil if and only if nothing went wrong by
        itself, the total is not refused and the commit is answered. Where a commit was applied,
        answered or not, the tables are what the specification leaves behind when run on `before`;
        everywhere else they are `before`. */
    method Atomic(req: Request) returns (e: Ending, result: Reply, ghost before: Tables)
      requires !open && Valid(committed)
      modifies this
      ensures Valid(committed) && !open && violations == old(violations) && old(statements) < statements
      ensures old(begins) <= begins <= old(begins) + 1
      ensures commits + rollbacks - old(commits) - old(rollbacks) == begins - old(begins)
      ensures commits >= old(commits) && rollbacks >= old(rollbacks)
      ensures acknowledged == old(acknowledged) + if e.Nil? then 1 else 0
      ensures e.Nil? ==> commits == old(commits) + 1
      ensures e.Panicked? ==> rollbacks == old(rollbacks) + 1
      ensures rollbacks > old(rollbacks) ==> e == Verdict(mishaps, statements - 1, false)
      ensures e.Nil? <==>
        && Smooth(mishaps, old(statements), statements) && endings(statements).Acknowledged?
        && !Decide(before, req).Rejected?
      ensures ByOthers(others, old(committed), before, None, None)
      ensures commits > old(commits) ==> SubmittedOn(before, req, result) && Drawn(before, req, draw)
      ensures committed ==
        if commits == old(commits) || endings(statements).Refused? then before else View(before, Effect(before, req, draw))
    {
      result := Reply(0, None);
      ghost var t0, n := committed, statements;
      e := Begin();
      before := committed;
      if !e.Nil? {
        return;
      }
      ghost var t1, n1 := committed, statements;
      assert Smooth(mishaps, n, n1);
      e, result, before := InTransaction(req);
      SmoothJoins(mishaps, n, n1, statements);
      Chains(others, t0, t1, before, None, None);
    }

    /** A result is exposed only with a nil error; a panic goes on up. */
    method SubmitBulkTransfer(req: Request) returns (e: Ending, result: Option<Reply>, ghost before: Tables)
      requires !open && Valid(committed)
      modifies this
      ensures Valid(committed) && !open && violations == old(violations) && old(statements) < statements
      ensures old(begins) <= begins <= old(begins) + 1
      ensures commits + rollbacks - old(commits) - old(rollbacks) == begins - old(begins)
      ensures commits >= old(commits) && rollbacks >= old(rollbacks)
      ensures acknowledged == old(acknowledged) + if e.Nil? then 1 else 0
      ensures e.Nil? ==> commits == old(commits) + 1
      ensures e.Panicked? ==> rollbacks == old(rollbacks) + 1
      ensures rollbacks > old(rollbacks) ==> e == Verdict(mishaps, statements - 1, false)
      ensures e.Nil? <==>
        && Smooth(mishaps, old(statements), statements) && endings(statements).Acknowledged?
        && !RefusedTotal(before, req)
      ensures ByOthers(others, old(committed), before, None, None)
      ensures result.Some? <==> e.Nil?
      ensures e.Nil? ==> AsPromised(before, committed, req, draw, result.value)
      ensures if commits == old(commits) || endings(statements).Refused? then committed == before
        else exists reply :: AsPromised(before, committed, req, draw, reply)
    {
      var reply;
      e, reply, before := Atomic(req);
      result := if e.Nil? then Some(reply) else None;
      if commits > old(commits) && !endings(statements).Refused? {
        SubmittedAsPromised(before, committed, req, draw, reply);
      }
    }
  }

  /** The transaction was given one id per row. */
  predicate Drawn(t: Tables, req: Request, draw: Draw) {
    Decide(t, req).Create? ==> |draw.rowIds| == |req.transfers|
  }

  lemma EndsWell(mishaps: nat -> Ending, m: nat, n: nat)
    requires m < n
    ensures Smooth(mishaps, m, n + 1) <==> Smooth(mishaps, m, n) && MishapAt(mishaps, n + 1).Nil?
    ensures !MishapAt(mishaps, n).Nil? ==> !Smooth(mishaps, m, n)
  {
  }

  // ----- The promise, spelled out -----

  /** The one request the database refuses: new, funded, but its total, which has wrapped or is
      not positive to begin with, fails the CHECK. */
  predicate RefusedTotal(t: Tables, req: Request) {
    && req.key !in t.ledger && (req.iban, req.bic) in t.directory
    && BalanceOf(t, t.directory[(req.iban, req.bic)]) >= Total(req) && Total(req) <= 0
  }

  /** What a submission answers, and how the tables change from `t` to `t'`: a replay; an unknown
      account, 404; not enough funds, 422; or 204, with one batch, one row per transfer and the
      debit. */
  predicate AsPromised(t: Tables, t': Tables, req: Request, draw: Draw, reply: Reply) {
    var where := (req.iban, req.bic);
    && Worded(reply)
    && if req.key in t.ledger then t' == t && reply.status == t.ledger[req.key]
    else if where !in t.directory then t' == t.(ledger := t.ledger[req.key := 404]) && reply.status == 404
    else if BalanceOf(t, t.directory[where]) < Total(req) then
      t' == t.(ledger := t.ledger[req.key := 422]) && reply.status == 422
    else
      var account := t.directory[where];
      && reply.status == 204 && t'.ledger == t.ledger[req.key := 204] && t'.directory == t.directory
      && t'.balances == t.balances[account := BalanceOf(t, account) - Total(req)]
      && t'.batches == t.batches + [Batch(draw.batchId, account, req.key, Total(req))]
      && RowsAdded(t.rows, t'.rows, draw, account, draw.batchId, req.transfers)
  }

  /** One row per transfer, in order, each with what the transfer says. */
  predicate RowsAdded(rows: seq<Row>, rows': seq<Row>, draw: Draw, account: int, batch: int, transfers: seq<CreditTransfer>) {
    && rows <= rows' && |rows'| == |rows| + |transfers| && |draw.rowIds| == |transfers|
    && forall k :: 0 <= k < |transfers| ==> IsRowOf(rows'[|rows| + k], draw.rowIds[k], draw.now, account, batch, transfers[k])
  }

  predicate IsRowOf(row: Row, id: int64, now: Instant, account: int, batch: int, transfer: CreditTransfer) {
    && row.id == id && row.createdAt == now && row.account == account && row.batch == Some(batch)
    && row.transfer.amount == transfer.amount && row.transfer.currency == transfer.currency
    && row.transfer.counterpartyName == transfer.counterpartyName
    && row.transfer.counterpartyBic == transfer.counterpartyBic
    && row.transfer.counterpartyIban == transfer.counterpartyIban
    && row.transfer.description == transfer.description
  }

  lemma SubmittedAsPromised(t: Tables, t': Tables, req: Request, draw: Draw, reply: Reply)
    requires SubmittedOn(t, req, reply) && Drawn(t, req, draw) && t' == View(t, Effect(t, req, draw))
    ensures AsPromised(t, t', req, draw, reply)
  {
    RepliesAreWorded(reply.status);
    if Decide(t, req).Create? {
      CreatedAsPromised(t, t', req, draw);
    } else {
      assert t'.balances == t.balances && t'.batches == t.batches && t'.rows == t.rows;
      assert req.key in t.ledger ==> t'.ledger == t.ledger;
    }
  }

  lemma CreatedAsPromised(t: Tables, t': Tables, req: Request, draw: Draw)
    requires Decide(t, req).Create? && Drawn(t, req, draw) && t' == View(t, Effect(t, req, draw))
    ensures AsPromised(t, t', req, draw, Reply(204, None))
  {
    var account := Decide(t, req).account;
    EffectOfBatch(t, req, draw, account);
    assert t'.rows == t.rows + RowsFor(draw.rowIds, draw.now, account, draw.batchId, req.transfers);
  }

  /** What was prepared on the tables `t` is right for the tables `before` the commit. */
  lemma AsOfTheCommit(others: nat -> Tables, t: Tables, before: Tables, req: Request, reply: Reply, draw: Draw, row: Option<int>)
    requires SubmittedOn(t, req, reply)
    requires Valid(t) && Valid(before) && ByOthers(others, t, before, Some(req.key), row)
    requires req.key !in t.ledger && (req.iban, req.bic) in t.directory ==> row == Some(t.directory[(req.iban, req.bic)])
    ensures SubmittedOn(before, req, reply) && Effect(before, req, draw) == Effect(t, req, draw)
    ensures Valid(View(before, Effect(before, req, draw))) && ByOthers(others, t, before, None, None)
  {
    DecisionSettled(t, before, req, draw, row);
    EffectKeepsValid(before, req, draw);
    Weakens(others, t, before, Some(req.key), row);
  }

  /** Batch and rows, the debit and the record of an accepted batch add up to the specification's
      effect, on the tables before the debit and on those after the record. */
  lemma PersistedIsEffect(v0: Session, v1: Session, v2: Session, req: Request, account: int, newBalance: int)
    requires Valid(v0.committed) && !v0.failed && |v0.draw.rowIds| == |req.transfers|
    requires v0.writes == Writes(map[], map[], [BatchFor(account, req, v0.draw)],
      RowsFor(v0.draw.rowIds, v0.draw.now, account, v0.draw.batchId, req.transfers))
    requires req.key !in v0.committed.ledger && (req.iban, req.bic) in v0.committed.directory
    requires account == v0.committed.directory[(req.iban, req.bic)] && BalanceOf(v0.committed, account) >= Total(req) > 0
    requires Rely(v0.committed, v1.committed, Some(req.key), Some(account))
    requires Rely(v0.committed, v2.committed, Some(req.key), Some(account))
    requires newBalance == BalanceOf(SeenBy(v0.(committed := v1.committed)), account) - Total(req)
    requires v1 == WithBalance(v0.(committed := v1.committed), account, newBalance)
    requires v2 == WithKeyRecorded(v1.(committed := v2.committed), req.key, CREATED)
    ensures !v2.failed && v2.writes == Effect(v2.committed, req, v2.draw)
    ensures SubmittedOn(v2.committed, req, Reply(CREATED, None)) && Decide(v2.committed, req) == Create(account)
    ensures v2.committed.directory == v0.committed.directory
  {
    EffectOfBatch(v0.committed, req, v2.draw, account);
    DecisionSettled(v0.committed, v2.committed, req, v2.draw, Some(account));
  }

  /** `reply` is what the specification answers to `req` on the tables `t`. */
  predicate SubmittedOn(t: Tables, req: Request, reply: Reply) {
    !Decide(t, req).Rejected? && reply == ReplyFor(StatusOf(Decide(t, req)))
  }
}
