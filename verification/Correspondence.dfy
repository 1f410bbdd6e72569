/** The step machine and the code tell one story: each step of an attempt does to its transaction
    what the contract of the store call in module Submission says, and then goes where the
    callback goes. With Guarantees.LocksIsolate for the steps of the others, what is proved of all
    runs of the machine is thereby said of the code. */
module Correspondence {
  import opened Transfers
  import opened Bank
  import opened Sequential
  import opened Protocol
  import opened Invariant
  import opened Guarantees
  import Statements

  /** An attempt of the machine as the transaction that the code sees. */
  function SessionOf(s: State, id: nat): Statements.Session
    requires id < |s.attempts|
  {
    var a := s.attempts[id];
    Statements.Session(s.tables, a.writes, a.aborted, HeldKey(s, id), HeldRow(s, id), a.draw)
  }

  /** Where the callback goes after its account lookup. */
  function AfterLookup(found: bool, balance: int, req: Request): Pc {
    if !found then Recording(ACCOUNT_NOT_FOUND)
    else if balance < Total(req) then Recording(INSUFFICIENT_FUNDS)
    else Funded
  }

  /** What the call behind each step promises: the new session, the values it returns, and the
      statement that comes next. */
  predicate PlaysOut(s: State, s': State, id: nat, action: Action)
  {
    && id < |s.attempts| && id < |s'.attempts|
    && (action.InsertRows? ==> |action.rowIds| == |s.attempts[id].req.transfers|)
    && var a, a' := s.attempts[id], s'.attempts[id];
    var v, v' := SessionOf(s, id), SessionOf(s', id);
    match action
    case Arrive(_, _) => true
    case Begin(now) => v'.(draw := v'.draw.(rowIds := [], batchId := 0)) == Statements.Begun(s.tables, now) && a'.pc == Begun
    case LockKey => v' == Statements.WithKeyLocked(v, a.req.key) && a'.pc == KeyLocked
    case Lookup =>
      var ledger := Statements.SeenBy(v).ledger;
      v' == v && a'.pc == if a.req.key in ledger then Committing(ledger[a.req.key]) else KeyFresh
    case FindAccount =>
      var account := Statements.AccountAt(v, a.req.iban, a.req.bic);
      && v' == Statements.WithAccountLocked(v, a.req.iban, a.req.bic)
      && (account.Some? ==> a'.account == account.value && a'.balance == BalanceOf(Statements.SeenBy(v), a'.account))
      && a'.pc == AfterLookup(account.Some?, a'.balance, a.req)
    case InsertBatch(batchId) =>
      if Total(a.req) > 0
      then v' == Statements.WithBatch(v, a.account, a.req.key, Total(a.req), batchId) && a'.pc == Batched
      else a'.pc == Aborting && v'.writes == v.writes
    case InsertRows(rowIds) =>
      v' == Statements.WithRows(v, a.account, a.draw.batchId, a.req.transfers, rowIds) && a'.pc == Loaded
    case Debit =>
      var newBalance := BalanceOf(Statements.SeenBy(v), a.account) - Total(a.req);
      newBalance >= 0 && v' == Statements.WithBalance(v, a.account, newBalance) && a'.pc == Recording(CREATED)
    case Record =>
      a.pc.Recording? && v' == Statements.WithKeyRecorded(v, a.req.key, a.pc.status) && a'.pc == Committing(a.pc.status)
    case Commit(result) =>
      && a.pc.Committing? && !v.failed
      && s'.tables == (if result.Refused? then s.tables else Statements.SeenBy(v))
      && a'.pc == Done(if result.Acknowledged? then Replied(ReplyFor(a.pc.status)) else Failed)
    case Fail => s'.tables == s.tables && (a'.pc == Aborting || a'.pc == Done(Failed))
    case Rollback => s'.tables == s.tables && a'.pc == Done(Failed) && a'.writes == NO_WRITES
  }

  lemma StartPlaysOut(env: Env, s: State, l: Label)
    requires Enabled(env, s, l) && l.id < |s.attempts| && OnTrack(s, l.id) && Covered(env, s, l.id)
    requires l.action.Begin? || l.action.LockKey? || l.action.Lookup?
    ensures PlaysOut(s, Next(env, s, l), l.id, l.action)
  {
  }

  lemma AccountPlaysOut(env: Env, s: State, l: Label)
    requires Enabled(env, s, l) && l.id < |s.attempts| && OnTrack(s, l.id) && l.action.FindAccount?
    ensures PlaysOut(s, Next(env, s, l), l.id, l.action)
  {
  }

  lemma BatchPlaysOut(env: Env, s: State, l: Label)
    requires Enabled(env, s, l) && l.id < |s.attempts| && OnTrack(s, l.id)
    requires l.action.InsertBatch? || l.action.InsertRows?
    ensures PlaysOut(s, Next(env, s, l), l.id, l.action)
  {
  }

  lemma DebitPlaysOut(env: Env, s: State, l: Label)
    requires Enabled(env, s, l) && l.id < |s.attempts| && OnTrack(s, l.id) && l.action.Debit?
    requires Conserved(s.initial, s.tables)
    ensures PlaysOut(s, Next(env, s, l), l.id, l.action)
  {
    LoadedIsFunded(s, l.id);
    DebitGoesThrough(env, s, l.id);
  }

  lemma RecordPlaysOut(env: Env, s: State, l: Label)
    requires Enabled(env, s, l) && l.id < |s.attempts| && OnTrack(s, l.id) && l.action.Record?
    ensures PlaysOut(s, Next(env, s, l), l.id, l.action)
  {
  }

  lemma EndPlaysOut(env: Env, s: State, l: Label)
    requires Enabled(env, s, l) && l.id < |s.attempts| && Covered(env, s, l.id)
    requires l.action.Commit? || l.action.Fail? || l.action.Rollback?
    ensures PlaysOut(s, Next(env, s, l), l.id, l.action)
  {
  }

  /** In every reachable state, every step of every attempt is an instance of the contract of the
      call behind it. */
  lemma StepsAreStatements(env: Env, s0: State, run: seq<Label>, s: State, l: Label)
    requires Reached(env, s0, run, s) && Enabled(env, s, l) && !l.action.Arrive?
    ensures PlaysOut(s, Next(env, s, l), l.id, l.action)
  {
    ReachedInv(env, s0, run, s);
    assert OnTrack(s, l.id) && Covered(env, s, l.id) by { assert AttemptOk(env, s, l.id); }
    match l.action {
      case Begin(_) => StartPlaysOut(env, s, l);
      case LockKey => StartPlaysOut(env, s, l);
      case Lookup => StartPlaysOut(env, s, l);
      case FindAccount => AccountPlaysOut(env, s, l);
      case InsertBatch(_) => BatchPlaysOut(env, s, l);
      case InsertRows(_) => BatchPlaysOut(env, s, l);
      case Debit =>
        InvKeeps(env, s);
        DebitPlaysOut(env, s, l);
      case Record => RecordPlaysOut(env, s, l);
      case Commit(_) => EndPlaysOut(env, s, l);
      case Fail => EndPlaysOut(env, s, l);
      case Rollback => EndPlaysOut(env, s, l);
    }
  }
}
