/** The inductive invariant of the protocol: what every step keeps, for every schedule. */
module Invariant {
  import opened Results
  import opened Transfers
  import opened Bank
  import opened Sequential
  import opened Protocol

  // ----- What holds of one attempt -----

  /** The attempt has taken the advisory lock of its key. */
  predicate KeyHeld(pc: Pc) {
    pc.KeyLocked? || pc.KeyFresh? || Resolved(pc)
  }

  /** The attempt has looked its key up, and if that was unsuccessful, its account too. */
  predicate Resolved(pc: Pc) {
    pc.Funded? || pc.Batched? || pc.Loaded? || pc.Recording? || pc.Committing?
  }

  /** The key is unrecorded, and the account, if there is one, is locked by this attempt. */
  predicate Settled(s: State, id: nat)
    requires id < |s.attempts|
  {
    var a := s.attempts[id];
    && a.req.key !in s.tables.ledger
    && ((a.req.iban, a.req.bic) in s.tables.directory ==>
          Holds(s.rowLocks, s.tables.directory[(a.req.iban, a.req.bic)], id))
  }

  predicate DrewBatch(s: State, id: nat)
    requires id < |s.attempts|
  {
    Holds(s.batchIds, s.attempts[id].draw.batchId, id)
  }

  predicate DrewRows(s: State, id: nat)
    requires id < |s.attempts|
  {
    var a := s.attempts[id];
    && |a.draw.rowIds| == |a.req.transfers|
    && (forall i, j :: 0 <= i < j < |a.draw.rowIds| ==> a.draw.rowIds[i] != a.draw.rowIds[j])
    && (forall x :: x in a.draw.rowIds ==> x in s.rowIds && s.rowIds[x] == Some(id))
  }

  /** The writes of an attempt are, at each statement, the part of the atomic effect that it has
      produced so far, computed on the tables as they are now. */
  predicate OnTrack(s: State, id: nat)
    requires id < |s.attempts|
  {
    var a := s.attempts[id];
    var d, effect := Decide(s.tables, a.req), Effect(s.tables, a.req, a.draw);
    match a.pc
    case Funded =>
      && Settled(s, id) && a.writes == NO_WRITES
      && (d == Create(a.account) || d.Rejected?)
      && (a.req.iban, a.req.bic) in s.tables.directory
      && a.account == s.tables.directory[(a.req.iban, a.req.bic)]
      && a.balance == BalanceOf(s.tables, a.account)
    case Batched =>
      && Settled(s, id) && d == Create(a.account) && DrewBatch(s, id)
      && a.balance == BalanceOf(s.tables, a.account)
      && a.writes == NO_WRITES.(batches := effect.batches)
    case Loaded =>
      && Settled(s, id) && d == Create(a.account) && DrewBatch(s, id) && DrewRows(s, id)
      && a.balance == BalanceOf(s.tables, a.account)
      && a.writes == NO_WRITES.(batches := effect.batches, rows := effect.rows)
    case Recording(status) =>
      && Settled(s, id) && !d.Rejected? && status == StatusOf(d)
      && (d.Create? ==> DrewBatch(s, id) && DrewRows(s, id))
      && a.writes == effect.(ledger := map[])
    case Committing(status) =>
      && (d.Replay? || Settled(s, id)) && !d.Rejected? && status == StatusOf(d)
      && (d.Create? ==> DrewBatch(s, id) && DrewRows(s, id))
      && a.writes == effect
    case Aborting => true
    case KeyFresh => a.req.key !in s.tables.ledger && a.writes == NO_WRITES
    case _ => a.writes == NO_WRITES
  }

  /** The transaction has not failed, and its locks cover its phase and everything it wrote. */
  predicate Covered(env: Env, s: State, id: nat)
    requires id < |s.attempts|
  {
    var a := s.attempts[id];
    && !a.aborted
    && (!a.pc.Done? ==> a.committedAt == None)
    && (KeyHeld(a.pc) ==> Holds(s.advisory, env.hash(a.req.key), id))
    && (forall key :: key in a.writes.ledger ==> key == a.req.key && Holds(s.advisory, env.hash(key), id))
    && (forall x :: x in a.writes.balances ==> Holds(s.rowLocks, x, id))
  }

  predicate AttemptOk(env: Env, s: State, id: nat)
    requires id < |s.attempts|
  {
    Covered(env, s, id) && OnTrack(s, id)
  }

  // ----- What holds of the shared state -----

  /** Every lock belongs to an open transaction that asked for it. */
  predicate LocksOk(env: Env, s: State) {
    && (forall h :: h in s.advisory ==>
          && s.advisory[h] < |s.attempts|
          && var a := s.attempts[s.advisory[h]];
          (KeyHeld(a.pc) || a.pc.Aborting?) && env.hash(a.req.key) == h)
    && (forall x :: x in s.rowLocks ==>
          && s.rowLocks[x] < |s.attempts|
          && var a := s.attempts[s.rowLocks[x]]; Resolved(a.pc) || a.pc.Aborting?)
  }

  /** Committed ids were drawn before the run or by an attempt that has committed. */
  predicate DrawsOk(s: State) {
    && (forall x :: x in s.batchIds ==> s.batchIds[x] < |s.attempts|)
    && (forall x :: x in s.rowIds && s.rowIds[x].Some? ==> s.rowIds[x].value < |s.attempts|)
    && (forall b :: b in s.tables.batches ==>
          b.id in s.batchIds && s.attempts[s.batchIds[b.id]].committedAt.Some?)
    && (forall r :: r in s.tables.rows ==>
          r.id in s.rowIds && (s.rowIds[r.id].Some? ==> s.attempts[s.rowIds[r.id].value].committedAt.Some?))
  }

  /** The refinement: the committed tables are those of the atomic specification run over the
      commits in commit order, and every reply is the specification's at its commit. */
  predicate LogOk(s: State) {
    && LegalLog(s.initial, s.log) && s.tables == Serial(s.initial, s.log)
    && EntriesOk(s)
    && (forall id :: 0 <= id < |s.attempts| ==> ReplyOk(s, id))
  }

  predicate ReplyOk(s: State, id: nat)
    requires id < |s.attempts|
  {
    var a := s.attempts[id];
    && (a.committedAt.Some? ==> a.committedAt.value < |s.log| && s.log[a.committedAt.value].attempt == id)
    && (a.pc.Done? && a.pc.outcome.Replied? ==>
          && a.committedAt.Some?
          && a.pc.outcome.reply == ReplyFor(StatusOf(Decide(Upto(s.initial, s.log, a.committedAt.value), a.req))))
  }

  ghost predicate Inv(env: Env, s: State) {
    && Opening(s.initial)
    && (forall id :: 0 <= id < |s.attempts| ==> AttemptOk(env, s, id))
    && LocksOk(env, s) && DrawsOk(s) && LogOk(s)
    && s.violations == 0
  }

  // ----- Other attempts are not disturbed -----

  /** As far as attempt `id` can tell, nothing has changed. */
  ghost predicate Undisturbed(s: State, s': State, id: nat)
    requires id < |s.attempts|
  {
    var a := s.attempts[id];
    && id < |s'.attempts| && s'.attempts[id] == a
    && (forall h :: Holds(s.advisory, h, id) ==> Holds(s'.advisory, h, id))
    && (forall x :: Holds(s.rowLocks, x, id) ==> Holds(s'.rowLocks, x, id))
    && (forall x :: Holds(s.batchIds, x, id) ==> Holds(s'.batchIds, x, id))
    && (forall x :: x in s.rowIds && s.rowIds[x] == Some(id) ==> x in s'.rowIds && s'.rowIds[x] == Some(id))
    && s'.tables.directory == s.tables.directory
    && (KeyHeld(a.pc) ==> SameKey(s.tables, s'.tables, a.req.key))
    && (Resolved(a.pc) && Settled(s, id) && (a.req.iban, a.req.bic) in s.tables.directory ==>
          var account := s.tables.directory[(a.req.iban, a.req.bic)];
          BalanceOf(s'.tables, account) == BalanceOf(s.tables, account))
  }

  predicate SameKey(t: Tables, t': Tables, key: string) {
    && (key in t'.ledger <==> key in t.ledger)
    && (key in t.ledger ==> t'.ledger[key] == t.ledger[key])
  }

  lemma UndisturbedOk(env: Env, s: State, s': State, id: nat)
    requires id < |s.attempts| && AttemptOk(env, s, id) && Undisturbed(s, s', id)
    ensures AttemptOk(env, s', id)
  {
    var a := s.attempts[id];
    if Resolved(a.pc) {
      assert Decide(s'.tables, a.req) == Decide(s.tables, a.req);
      assert Effect(s'.tables, a.req, a.draw) == Effect(s.tables, a.req, a.draw);
    }
  }

  /** A step that leaves the tables alone, gives or takes locks and ids for its attempt only, and
      moves that attempt forward. */
  predicate Local(s: State, s': State, id: nat) {
    && id < |s.attempts| && |s'.attempts| == |s.attempts|
    && (forall j :: 0 <= j < |s.attempts| && j != id ==> s'.attempts[j] == s.attempts[j])
    && s'.initial == s.initial && s'.tables == s.tables && s'.log == s.log
    && OthersKeep(s.advisory, s'.advisory, id) && OthersKeep(s.rowLocks, s'.rowLocks, id)
    && (forall x :: x in s.batchIds ==> x in s'.batchIds && s'.batchIds[x] == s.batchIds[x])
    && (forall x :: x in s.rowIds ==> x in s'.rowIds && s'.rowIds[x] == s.rowIds[x])
    && (forall x :: x in s'.batchIds && x !in s.batchIds ==> s'.batchIds[x] == id)
    && (forall x :: x in s'.rowIds && x !in s.rowIds ==> s'.rowIds[x] == Some(id))
    && s'.attempts[id].committedAt == s.attempts[id].committedAt
    && s'.attempts[id].req == s.attempts[id].req
    && Remaining(s'.attempts[id].pc) < Remaining(s.attempts[id].pc)
    && (s'.attempts[id].pc.Done? ==> s'.attempts[id].pc.outcome.Failed?)
  }

  predicate OthersKeep(locks: map<int, nat>, locks': map<int, nat>, id: nat) {
    && (forall key :: key in locks && locks[key] != id ==> key in locks' && locks'[key] == locks[key])
    && (forall key :: key in locks' && locks'[key] != id ==> key in locks && locks'[key] == locks[key])
  }

  lemma LocalUndisturbs(s: State, s': State, id: nat, j: nat)
    requires Local(s, s', id) && j < |s.attempts| && j != id
    ensures Undisturbed(s, s', j)
  {
  }

  lemma LocalKeepsOthers(env: Env, s: State, s': State, id: nat)
    requires Inv(env, s) && Local(s, s', id)
    ensures forall j :: 0 <= j < |s.attempts| && j != id ==> AttemptOk(env, s', j)
  {
    forall j | 0 <= j < |s.attempts| && j != id ensures AttemptOk(env, s', j) {
      assert AttemptOk(env, s, j);
      LocalUndisturbs(s, s', id, j);
      UndisturbedOk(env, s, s', j);
    }
  }

  /** The locks an attempt holds are ones its program counter accounts for. */
  ghost predicate OwnLocksOk(env: Env, s: State, id: nat)
    requires id < |s.attempts|
  {
    var a := s.attempts[id];
    && (forall h :: Holds(s.advisory, h, id) ==> (KeyHeld(a.pc) || a.pc.Aborting?) && env.hash(a.req.key) == h)
    && (forall x :: Holds(s.rowLocks, x, id) ==> Resolved(a.pc) || a.pc.Aborting?)
  }

  lemma OwnLocks(env: Env, s: State, id: nat)
    requires LocksOk(env, s) && id < |s.attempts|
    ensures OwnLocksOk(env, s, id)
  {
  }

  /** A local step keeps the invariant if it keeps the part of the attempt that takes it. */
  lemma LocalStep(env: Env, s: State, s': State, id: nat)
    requires Inv(env, s) && Local(s, s', id) && s'.violations == 0
    requires AttemptOk(env, s', id) && OwnLocksOk(env, s', id)
    ensures Inv(env, s')
  {
    LocalKeepsOthers(env, s, s', id);
    LocalKeepsLocks(env, s, s', id);
    LocalKeepsLog(s, s', id);
    LocalKeepsDraws(s, s', id);
  }

  lemma LocalKeepsLog(s: State, s': State, id: nat)
    requires LogOk(s) && Local(s, s', id)
    ensures LogOk(s')
  {
    forall j | 0 <= j < |s'.attempts| ensures ReplyOk(s', j) {
      assert ReplyOk(s, j);
    }
  }

  lemma LocalKeepsDraws(s: State, s': State, id: nat)
    requires DrawsOk(s) && Local(s, s', id)
    ensures DrawsOk(s')
  {
  }

  lemma LocalKeepsLocks(env: Env, s: State, s': State, id: nat)
    requires LocksOk(env, s) && Local(s, s', id) && OwnLocksOk(env, s', id)
    ensures LocksOk(env, s')
  {
    forall h | h in s'.advisory
      ensures s'.advisory[h] < |s'.attempts|
      ensures var a := s'.attempts[s'.advisory[h]]; (KeyHeld(a.pc) || a.pc.Aborting?) && env.hash(a.req.key) == h
    {
      if s'.advisory[h] == id {
        assert Holds(s'.advisory, h, id);
      }
    }
    forall x | x in s'.rowLocks
      ensures s'.rowLocks[x] < |s'.attempts|
      ensures var a := s'.attempts[s'.rowLocks[x]]; Resolved(a.pc) || a.pc.Aborting?
    {
      if s'.rowLocks[x] == id {
        assert Holds(s'.rowLocks, x, id);
      }
    }
  }

  // ----- Each statement keeps the invariant -----

  lemma ArriveUndisturbs(env: Env, s: State, l: Label, j: nat)
    requires Enabled(env, s, l) && l.action.Arrive? && j < |s.attempts|
    ensures Undisturbed(s, Next(env, s, l), j)
  {
  }

  lemma ArriveKeepsShared(env: Env, s: State, l: Label)
    requires Enabled(env, s, l) && l.action.Arrive? && LocksOk(env, s) && DrawsOk(s)
    ensures LocksOk(env, Next(env, s, l)) && DrawsOk(Next(env, s, l))
  {
  }

  lemma ArriveKeepsLog(env: Env, s: State, l: Label)
    requires Enabled(env, s, l) && l.action.Arrive? && LogOk(s)
    ensures LogOk(Next(env, s, l))
  {
    var s' := Next(env, s, l);
    forall j | 0 <= j < |s'.attempts| ensures ReplyOk(s', j) {
      if j < |s.attempts| {
        assert ReplyOk(s, j);
      }
    }
  }

  lemma NewcomerOk(env: Env, s: State, l: Label)
    requires Enabled(env, s, l) && l.action.Arrive?
    ensures AttemptOk(env, Next(env, s, l), |s.attempts|)
  {
  }

  lemma ArriveKeepsAttempt(env: Env, s: State, l: Label, j: nat)
    requires Enabled(env, s, l) && l.action.Arrive? && j < |s.attempts| && AttemptOk(env, s, j)
    ensures AttemptOk(env, Next(env, s, l), j)
  {
    ArriveUndisturbs(env, s, l, j);
    UndisturbedOk(env, s, Next(env, s, l), j);
  }

  lemma ArriveOnlyAdds(env: Env, s: State, l: Label)
    requires Enabled(env, s, l) && l.action.Arrive?
    ensures var s' := Next(env, s, l);
      && |s'.attempts| == |s.attempts| + 1 && s'.initial == s.initial && s'.violations == s.violations
  {
  }

  lemma StepArrive(env: Env, s: State, l: Label)
    requires Inv(env, s) && Enabled(env, s, l) && l.action.Arrive?
    ensures Inv(env, Next(env, s, l))
  {
    var s' := Next(env, s, l);
    ArriveOnlyAdds(env, s, l);
    forall j | 0 <= j < |s'.attempts| ensures AttemptOk(env, s', j) {
      if j < |s.attempts| {
        assert AttemptOk(env, s, j);
        ArriveKeepsAttempt(env, s, l, j);
      } else {
        NewcomerOk(env, s, l);
      }
    }
    ArriveKeepsShared(env, s, l);
    ArriveKeepsLog(env, s, l);
  }

  lemma OwnBegin(env: Env, s: State, l: Label)
    requires l.id < |s.attempts| && AttemptOk(env, s, l.id) && OwnLocksOk(env, s, l.id)
    requires Enabled(env, s, l) && l.action.Begin?
    ensures var s' := Next(env, s, l); AttemptOk(env, s', l.id) && OwnLocksOk(env, s', l.id)
  {
  }

  lemma OwnLockKey(env: Env, s: State, l: Label)
    requires l.id < |s.attempts| && AttemptOk(env, s, l.id) && OwnLocksOk(env, s, l.id)
    requires Enabled(env, s, l) && l.action.LockKey?
    ensures var s' := Next(env, s, l); AttemptOk(env, s', l.id) && OwnLocksOk(env, s', l.id)
  {
    var s' := Next(env, s, l);
    forall h | Holds(s'.advisory, h, l.id) ensures env.hash(s'.attempts[l.id].req.key) == h {
      if h != env.hash(s.attempts[l.id].req.key) {
        assert Holds(s.advisory, h, l.id);
      }
    }
  }

  lemma OwnFail(env: Env, s: State, l: Label)
    requires l.id < |s.attempts| && AttemptOk(env, s, l.id) && OwnLocksOk(env, s, l.id)
    requires Enabled(env, s, l) && l.action.Fail?
    ensures var s' := Next(env, s, l); AttemptOk(env, s', l.id) && OwnLocksOk(env, s', l.id)
  {
  }

  lemma OwnLookup(env: Env, s: State, l: Label)
    requires l.id < |s.attempts| && AttemptOk(env, s, l.id) && OwnLocksOk(env, s, l.id)
    requires Enabled(env, s, l) && l.action.Lookup?
    ensures var s' := Next(env, s, l); AttemptOk(env, s', l.id) && OwnLocksOk(env, s', l.id)
  {
    assert Seen(s, s.attempts[l.id]) == s.tables;
  }

  lemma OwnFindAccount(env: Env, s: State, l: Label)
    requires l.id < |s.attempts| && AttemptOk(env, s, l.id) && OwnLocksOk(env, s, l.id)
    requires Enabled(env, s, l) && l.action.FindAccount?
    ensures var s' := Next(env, s, l); AttemptOk(env, s', l.id) && OwnLocksOk(env, s', l.id)
  {
    assert Seen(s, s.attempts[l.id]) == s.tables;
  }

  lemma OwnInsertBatch(env: Env, s: State, l: Label)
    requires l.id < |s.attempts| && AttemptOk(env, s, l.id) && OwnLocksOk(env, s, l.id)
    requires Enabled(env, s, l) && l.action.InsertBatch?
    ensures var s' := Next(env, s, l); AttemptOk(env, s', l.id) && OwnLocksOk(env, s', l.id)
  {
  }

  lemma OwnInsertRows(env: Env, s: State, l: Label)
    requires l.id < |s.attempts| && AttemptOk(env, s, l.id) && OwnLocksOk(env, s, l.id)
    requires Enabled(env, s, l) && l.action.InsertRows?
    ensures var s' := Next(env, s, l); AttemptOk(env, s', l.id) && OwnLocksOk(env, s', l.id)
  {
  }

  lemma OwnDebit(env: Env, s: State, l: Label)
    requires l.id < |s.attempts| && AttemptOk(env, s, l.id) && OwnLocksOk(env, s, l.id)
    requires Enabled(env, s, l) && l.action.Debit?
    ensures var s' := Next(env, s, l); AttemptOk(env, s', l.id) && OwnLocksOk(env, s', l.id)
  {
  }

  lemma OwnRecord(env: Env, s: State, l: Label)
    requires l.id < |s.attempts| && AttemptOk(env, s, l.id) && OwnLocksOk(env, s, l.id)
    requires Enabled(env, s, l) && l.action.Record?
    ensures var s' := Next(env, s, l); AttemptOk(env, s', l.id) && OwnLocksOk(env, s', l.id)
  {
  }

  lemma OwnEnd(env: Env, s: State, l: Label)
    requires l.id < |s.attempts| && AttemptOk(env, s, l.id) && OwnLocksOk(env, s, l.id)
    requires Enabled(env, s, l) && (l.action.Rollback? || l.action == Commit(Refused))
    ensures var s' := Next(env, s, l); AttemptOk(env, s', l.id) && OwnLocksOk(env, s', l.id)
  {
  }

  lemma StartIsLocal(env: Env, s: State, l: Label)
    requires Enabled(env, s, l) && (l.action.Begin? || l.action.LockKey? || l.action.Fail?)
    ensures Local(s, Next(env, s, l), l.id)
  {
  }

  lemma LookupIsLocal(env: Env, s: State, l: Label)
    requires Enabled(env, s, l) && l.action.Lookup?
    ensures Local(s, Next(env, s, l), l.id)
  {
  }

  lemma LockingIsLocal(s: State, id: nat)
    requires id < |s.attempts| && s.attempts[id].pc.KeyFresh?
    requires var a := s.attempts[id];
      && (a.req.iban, a.req.bic) in s.tables.directory
      && Unlocked(s.rowLocks, s.tables.directory[(a.req.iban, a.req.bic)], id)
    ensures Local(s, DoFindAccount(s, id, s.attempts[id]), id)
  {
    var s' := DoFindAccount(s, id, s.attempts[id]);
    SetIsLocal(s, id, s'.attempts[id], s'.rowLocks, s'.violations);
  }

  lemma FindAccountIsLocal(env: Env, s: State, l: Label)
    requires Enabled(env, s, l) && l.action.FindAccount?
    ensures Local(s, Next(env, s, l), l.id)
  {
    var a := s.attempts[l.id];
    if (a.req.iban, a.req.bic) in s.tables.directory {
      LockingIsLocal(s, l.id);
    }
  }

  lemma InsertBatchIsLocal(env: Env, s: State, l: Label)
    requires Enabled(env, s, l) && l.action.InsertBatch?
    ensures Local(s, Next(env, s, l), l.id)
  {
  }

  lemma InsertRowsIsLocal(env: Env, s: State, l: Label)
    requires Enabled(env, s, l) && l.action.InsertRows?
    ensures Local(s, Next(env, s, l), l.id)
  {
  }

  lemma SetIsLocal(s: State, id: nat, a: Attempt, rowLocks: map<int, nat>, violations: nat)
    requires id < |s.attempts| && OthersKeep(s.rowLocks, rowLocks, id)
    requires a.committedAt == s.attempts[id].committedAt && a.req == s.attempts[id].req
    requires !a.pc.Done? && Remaining(a.pc) < Remaining(s.attempts[id].pc)
    ensures Local(s, Set(s, id, a).(rowLocks := rowLocks, violations := violations), id)
  {
  }

  lemma TakingKeepsOthers(locks: map<int, nat>, key: int, id: nat)
    requires Unlocked(locks, key, id)
    ensures OthersKeep(locks, locks[key := id], id)
  {
  }

  lemma DebitIsLocal(env: Env, s: State, l: Label)
    requires Enabled(env, s, l) && l.action.Debit?
    ensures Local(s, Next(env, s, l), l.id)
  {
    var a := s.attempts[l.id];
    var s' := DoDebit(env, s, l.id, a);
    TakingKeepsOthers(s.rowLocks, a.account, l.id);
    SetIsLocal(s, l.id, Debited(env, a, BalanceOf(Seen(s, a), a.account) - Total(a.req)), s'.rowLocks, s'.violations);
  }

  lemma RecordIsLocal(env: Env, s: State, l: Label)
    requires Enabled(env, s, l) && l.action.Record?
    ensures Local(s, Next(env, s, l), l.id)
  {
    var a := s.attempts[l.id];
    SetIsLocal(s, l.id, Recorded(Seen(s, a), a), s.rowLocks, s.violations);
  }

  lemma EndIsLocal(env: Env, s: State, l: Label)
    requires Enabled(env, s, l) && (l.action.Rollback? || l.action == Commit(Refused))
    ensures Local(s, Next(env, s, l), l.id)
  {
  }

  // ----- Commit -----

  /** A commit that the database applies. */
  predicate Applies(env: Env, s: State, l: Label) {
    && Enabled(env, s, l) && l.action.Commit? && !l.action.result.Refused?
    && !s.attempts[l.id].aborted
  }

  lemma CommitKeepsKey(env: Env, s: State, id: nat, j: nat)
    requires id < |s.attempts| && j < |s.attempts| && id != j
    requires Covered(env, s, id) && Covered(env, s, j) && KeyHeld(s.attempts[j].pc)
    ensures SameKey(s.tables, View(s.tables, s.attempts[id].writes), s.attempts[j].req.key)
  {
  }

  lemma CommitKeepsBalance(env: Env, s: State, id: nat, j: nat)
    requires id < |s.attempts| && j < |s.attempts| && id != j
    requires Covered(env, s, id) && Settled(s, j)
    requires (s.attempts[j].req.iban, s.attempts[j].req.bic) in s.tables.directory
    ensures var account := s.tables.directory[(s.attempts[j].req.iban, s.attempts[j].req.bic)];
      BalanceOf(View(s.tables, s.attempts[id].writes), account) == BalanceOf(s.tables, account)
  {
  }

  /** What an applied commit does to the state. */
  predicate Commits(s: State, s': State, id: nat) {
    && id < |s.attempts| && |s'.attempts| == |s.attempts|
    && var a := s.attempts[id];
    && (forall j :: 0 <= j < |s.attempts| && j != id ==> s'.attempts[j] == s.attempts[j])
    && s'.tables == View(s.tables, a.writes)
    && s'.initial == s.initial && s'.log == s.log + [Entry(id, a.req, a.draw)]
    && s'.advisory == Release(s.advisory, id) && s'.rowLocks == Release(s.rowLocks, id)
    && s'.batchIds == s.batchIds && s'.rowIds == s.rowIds && s'.violations == s.violations
    && s'.attempts[id].req == a.req && s'.attempts[id].committedAt == Some(|s.log|)
    && s'.attempts[id].pc.Done? && s'.attempts[id].writes == NO_WRITES && !s'.attempts[id].aborted
    && a.pc.Committing?
    && (s'.attempts[id].pc.outcome.Replied? ==> s'.attempts[id].pc.outcome.reply == ReplyFor(a.pc.status))
  }

  lemma AppliesCommits(env: Env, s: State, l: Label)
    requires Applies(env, s, l)
    ensures Commits(s, Next(env, s, l), l.id)
  {
  }

  lemma CommitDisturbsNone(env: Env, s: State, s': State, id: nat, j: nat)
    requires Commits(s, s', id) && j < |s.attempts| && j != id
    requires Covered(env, s, id) && Covered(env, s, j)
    ensures Undisturbed(s, s', j)
  {
    var b := s.attempts[j];
    if KeyHeld(b.pc) {
      CommitKeepsKey(env, s, id, j);
    }
    if Settled(s, j) && (b.req.iban, b.req.bic) in s.tables.directory {
      CommitKeepsBalance(env, s, id, j);
    }
  }

  /** Ids drawn by an uncommitted attempt are in no table. */
  lemma DrawIsFresh(s: State, id: nat)
    requires DrawsOk(s) && id < |s.attempts| && s.attempts[id].committedAt == None
    requires DrewBatch(s, id) && DrewRows(s, id)
    ensures FreshDraw(s.tables, s.attempts[id].req, s.attempts[id].draw)
  {
  }

  /** So the commit of an attempt that is on track is one the specification allows. */
  lemma CommitIsLegal(s: State, id: nat)
    requires DrawsOk(s) && id < |s.attempts| && s.attempts[id].committedAt == None
    requires s.attempts[id].pc.Committing? && OnTrack(s, id)
    ensures Legal(s.tables, Entry(id, s.attempts[id].req, s.attempts[id].draw))
  {
    if Decide(s.tables, s.attempts[id].req).Create? {
      DrawIsFresh(s, id);
    }
  }

  lemma LogGrows(open: Tables, log: seq<Entry>, e: Entry)
    requires LegalLog(open, log) && Legal(Serial(open, log), e)
    ensures LegalLog(open, log + [e])
    ensures Serial(open, log + [e]) == Apply(Serial(open, log), e)
    ensures forall i :: 0 <= i <= |log| ==> Upto(open, log + [e], i) == Upto(open, log, i)
  {
    var log' := log + [e];
    forall i | 0 <= i <= |log| ensures Upto(open, log', i) == Upto(open, log, i) {
      UptoExtends(open, log, e, i);
    }
    forall i | 0 <= i < |log'| ensures LegalAt(open, log', i) {
      if i < |log| {
        assert LegalAt(open, log, i);
      }
    }
  }

  lemma CommitLog(s: State, s': State, id: nat)
    requires LogOk(s) && Commits(s, s', id) && s.attempts[id].committedAt == None
    requires var a := s.attempts[id];
      && Legal(s.tables, Entry(id, a.req, a.draw)) && a.writes == Effect(s.tables, a.req, a.draw)
      && a.pc.status == StatusOf(Decide(s.tables, a.req))
    ensures LogOk(s')
  {
    var a := s.attempts[id];
    LogGrows(s.initial, s.log, Entry(id, a.req, a.draw));
    CommitEntries(s, s', id);
    forall j | 0 <= j < |s'.attempts| ensures ReplyOk(s', j) {
      assert ReplyOk(s, j);
      CommitReplies(s, s', id, j);
    }
  }

  predicate EntriesOk(s: State) {
    forall i :: 0 <= i < |s.log| ==>
      && s.log[i].attempt < |s.attempts|
      && s.attempts[s.log[i].attempt].committedAt == Some(i)
      && s.attempts[s.log[i].attempt].req == s.log[i].req
  }

  lemma CommitEntries(s: State, s': State, id: nat)
    requires EntriesOk(s) && Commits(s, s', id) && s.attempts[id].committedAt == None
    ensures EntriesOk(s')
  {
  }

  lemma CommitReplies(s: State, s': State, id: nat, j: nat)
    requires Commits(s, s', id) && s.attempts[id].committedAt == None
    requires j < |s.attempts| && ReplyOk(s, j)
    requires s.attempts[id].pc.status == StatusOf(Decide(s.tables, s.attempts[id].req))
    requires s.tables == Serial(s.initial, s.log)
    requires forall i :: 0 <= i <= |s.log| ==> Upto(s.initial, s'.log, i) == Upto(s.initial, s.log, i)
    ensures ReplyOk(s', j)
  {
  }

  lemma CommitDraws(s: State, s': State, id: nat)
    requires DrawsOk(s) && Commits(s, s', id)
    requires forall b :: b in s.attempts[id].writes.batches ==> Holds(s.batchIds, b.id, id)
    requires forall r :: r in s.attempts[id].writes.rows ==> r.id in s.rowIds && s.rowIds[r.id] == Some(id)
    ensures DrawsOk(s')
  {
    assert forall j :: 0 <= j < |s.attempts| && s.attempts[j].committedAt.Some? ==> s'.attempts[j].committedAt.Some?;
  }

  lemma WritesAreDrawn(s: State, id: nat)
    requires id < |s.attempts| && s.attempts[id].pc.Committing? && OnTrack(s, id)
    ensures forall b :: b in s.attempts[id].writes.batches ==> Holds(s.batchIds, b.id, id)
    ensures forall r :: r in s.attempts[id].writes.rows ==> r.id in s.rowIds && s.rowIds[r.id] == Some(id)
  {
    var a := s.attempts[id];
    forall r | r in a.writes.rows ensures r.id in a.draw.rowIds {
    }
  }

  lemma CommitLocks(env: Env, s: State, s': State, id: nat)
    requires LocksOk(env, s) && Commits(s, s', id)
    ensures LocksOk(env, s')
  {
  }

  lemma CommitOthers(env: Env, s: State, s': State, id: nat)
    requires Commits(s, s', id)
    requires forall j :: 0 <= j < |s.attempts| ==> AttemptOk(env, s, j)
    ensures forall j :: 0 <= j < |s'.attempts| ==> AttemptOk(env, s', j)
  {
    forall j | 0 <= j < |s'.attempts| ensures AttemptOk(env, s', j) {
      if j != id {
        assert AttemptOk(env, s, id) && AttemptOk(env, s, j);
        CommitDisturbsNone(env, s, s', id, j);
        UndisturbedOk(env, s, s', j);
      }
    }
  }

  lemma StepCommit(env: Env, s: State, l: Label)
    requires Inv(env, s) && Applies(env, s, l)
    ensures Inv(env, Next(env, s, l)) && Commits(s, Next(env, s, l), l.id)
  {
    var s' := Next(env, s, l);
    AppliesCommits(env, s, l);
    assert AttemptOk(env, s, l.id);
    CommitIsLegal(s, l.id);
    WritesAreDrawn(s, l.id);
    CommitOthers(env, s, s', l.id);
    CommitLocks(env, s, s', l.id);
    CommitDraws(s, s', l.id);
    CommitLog(s, s', l.id);
  }

  // ----- Every step, every run -----

  lemma InitInv(env: Env, s: State)
    requires Init(s)
    ensures Inv(env, s)
  {
  }

  lemma OwnStep(env: Env, s: State, l: Label)
    requires l.id < |s.attempts| && AttemptOk(env, s, l.id) && OwnLocksOk(env, s, l.id)
    requires Enabled(env, s, l) && !l.action.Arrive? && !Applies(env, s, l)
    ensures var s' := Next(env, s, l); AttemptOk(env, s', l.id) && OwnLocksOk(env, s', l.id)
  {
    match l.action {
      case Begin(_) => OwnBegin(env, s, l);
      case LockKey => OwnLockKey(env, s, l);
      case Fail => OwnFail(env, s, l);
      case Lookup => OwnLookup(env, s, l);
      case FindAccount => OwnFindAccount(env, s, l);
      case InsertBatch(_) => OwnInsertBatch(env, s, l);
      case InsertRows(_) => OwnInsertRows(env, s, l);
      case Debit => OwnDebit(env, s, l);
      case Record => OwnRecord(env, s, l);
      case Commit(_) => OwnEnd(env, s, l);
      case Rollback => OwnEnd(env, s, l);
    }
  }

  lemma StepIsLocal(env: Env, s: State, l: Label)
    requires Enabled(env, s, l) && !l.action.Arrive? && !Applies(env, s, l)
    requires l.id < |s.attempts| && !s.attempts[l.id].aborted
    ensures Local(s, Next(env, s, l), l.id)
  {
    match l.action {
      case Begin(_) => StartIsLocal(env, s, l);
      case LockKey => StartIsLocal(env, s, l);
      case Fail => StartIsLocal(env, s, l);
      case Lookup => LookupIsLocal(env, s, l);
      case FindAccount => FindAccountIsLocal(env, s, l);
      case InsertBatch(_) => InsertBatchIsLocal(env, s, l);
      case InsertRows(_) => InsertRowsIsLocal(env, s, l);
      case Debit => DebitIsLocal(env, s, l);
      case Record => RecordIsLocal(env, s, l);
      case Commit(_) => EndIsLocal(env, s, l);
      case Rollback => EndIsLocal(env, s, l);
    }
  }

  /** The tripwire: with the funds check made under the row lock, no debit returns a negative. */
  lemma NoViolation(env: Env, s: State, l: Label)
    requires Enabled(env, s, l) && (l.action.Arrive? || (l.id < |s.attempts| && OnTrack(s, l.id)))
    ensures Next(env, s, l).violations == s.violations
  {
    if l.action.Debit? {
      LoadedIsFunded(s, l.id);
    }
  }

  lemma LoadedIsFunded(s: State, id: nat)
    requires id < |s.attempts| && OnTrack(s, id) && s.attempts[id].pc.Loaded?
    ensures var a := s.attempts[id]; BalanceOf(Seen(s, a), a.account) >= Total(a.req)
  {
  }

  lemma StepLocal(env: Env, s: State, l: Label)
    requires Inv(env, s) && Enabled(env, s, l) && !l.action.Arrive? && !Applies(env, s, l)
    ensures Inv(env, Next(env, s, l)) && Local(s, Next(env, s, l), l.id)
  {
    assert AttemptOk(env, s, l.id);
    OwnLocks(env, s, l.id);
    OwnStep(env, s, l);
    StepIsLocal(env, s, l);
    NoViolation(env, s, l);
    LocalStep(env, s, Next(env, s, l), l.id);
  }

  lemma StepInv(env: Env, s: State, l: Label)
    requires Inv(env, s) && Enabled(env, s, l)
    ensures Inv(env, Next(env, s, l))
  {
    if l.action.Arrive? {
      StepArrive(env, s, l);
    } else if Applies(env, s, l) {
      StepCommit(env, s, l);
    } else {
      StepLocal(env, s, l);
    }
  }

  lemma {:induction false} RunInv(env: Env, s: State, run: seq<Label>)
    requires Inv(env, s) && ValidRun(env, s, run)
    ensures Inv(env, After(env, s, run))
    decreases |run|
  {
    if run != [] {
      StepInv(env, s, run[0]);
      RunInv(env, Next(env, s, run[0]), run[1..]);
    }
  }
}
