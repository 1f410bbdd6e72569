/** What the invariant means for every run: any number of attempts, instances and retries, with
    crashes, failed statements and ambiguous commits, under any interleaving. */
module Guarantees {
  import opened Int64
  import opened Results
  import opened Bank
  import opened Sequential
  import opened Protocol
  import opened Invariant
  import opened Isolation

  ghost predicate Reached(env: Env, s0: State, run: seq<Label>, s: State) {
    Init(s0) && ValidRun(env, s0, run) && s == After(env, s0, run)
  }

  lemma ReachedInv(env: Env, s0: State, run: seq<Label>, s: State)
    requires Reached(env, s0, run, s)
    ensures Inv(env, s)
  {
    InitInv(env, s0);
    RunInv(env, s0, run);
  }

  lemma InvKeeps(env: Env, s: State)
    requires Inv(env, s)
    ensures Conserved(s.initial, s.tables) && ExactlyOnce(s.tables) && Balanced(s.tables)
  {
    SerialKeeps(s.initial, s.log, |s.log|);
  }

  // ----- Progress in time -----

  /** `s'` is a later state: tables and log have only grown, and what attempts asked for and
      where they committed is unchanged. */
  ghost predicate Later(s: State, s': State) {
    && s'.initial == s.initial && s.log <= s'.log
    && s'.tables.directory == s.tables.directory && Grows(s.tables, s'.tables)
    && |s.attempts| <= |s'.attempts|
    && (forall id :: 0 <= id < |s.attempts| ==> LaterAttempt(s.attempts[id], s'.attempts[id]))
  }

  predicate LaterAttempt(a: Attempt, a': Attempt) {
    && a'.req == a.req
    && (a.committedAt.Some? ==> a'.committedAt == a.committedAt)
    && (a.pc.Done? ==> a'.pc == a.pc)
  }

  lemma LocalLater(s: State, s': State, id: nat)
    requires Local(s, s', id) && !s.attempts[id].pc.Done?
    ensures Later(s, s')
  {
  }

  lemma CommitLater(s: State, s': State, id: nat)
    requires Commits(s, s', id) && Grows(s.tables, s'.tables)
    requires !s.attempts[id].pc.Done? && s.attempts[id].committedAt == None
    ensures Later(s, s')
  {
  }

  lemma CommitGrows(s: State, id: nat)
    requires Conserved(s.initial, s.tables) && DrawsOk(s)
    requires id < |s.attempts| && s.attempts[id].pc.Committing? && s.attempts[id].committedAt == None && OnTrack(s, id)
    ensures Grows(s.tables, View(s.tables, s.attempts[id].writes))
  {
    var a := s.attempts[id];
    CommitIsLegal(s, id);
    ApplyConserves(s.initial, s.tables, Entry(id, a.req, a.draw));
  }

  lemma ArriveLater(s: State, newcomer: Attempt)
    ensures Later(s, s.(attempts := s.attempts + [newcomer]))
  {
  }

  lemma AppliedLater(env: Env, s: State, l: Label)
    requires Inv(env, s) && Applies(env, s, l)
    ensures Inv(env, Next(env, s, l)) && Later(s, Next(env, s, l))
  {
    StepCommit(env, s, l);
    InvKeeps(env, s);
    assert Covered(env, s, l.id) && OnTrack(s, l.id) by { assert AttemptOk(env, s, l.id); }
    CommitGrows(s, l.id);
    CommitLater(s, Next(env, s, l), l.id);
  }

  lemma StepLater(env: Env, s: State, l: Label)
    requires Inv(env, s) && Enabled(env, s, l)
    ensures Inv(env, Next(env, s, l)) && Later(s, Next(env, s, l))
  {
    if l.action.Arrive? {
      StepArrive(env, s, l);
      ArriveLater(s, Newcomer(l.action.req, l.action.instance));
    } else if Applies(env, s, l) {
      AppliedLater(env, s, l);
    } else {
      StepLocal(env, s, l);
      LocalLater(s, Next(env, s, l), l.id);
    }
  }

  lemma {:induction false} RunLater(env: Env, s: State, run: seq<Label>)
    requires Inv(env, s) && ValidRun(env, s, run)
    ensures Inv(env, After(env, s, run)) && Later(s, After(env, s, run))
    decreases |run|
  {
    if run != [] {
      var s' := Next(env, s, run[0]);
      StepLater(env, s, run[0]);
      RunLater(env, s', run[1..]);
      LaterTransitive(s, s', After(env, s', run[1..]));
    }
  }

  lemma LaterTransitive(s: State, s': State, s'': State)
    requires Later(s, s') && Later(s', s'')
    ensures Later(s, s'')
  {
    forall id | 0 <= id < |s.attempts| ensures LaterAttempt(s.attempts[id], s''.attempts[id]) {
      assert LaterAttempt(s.attempts[id], s'.attempts[id]) && LaterAttempt(s'.attempts[id], s''.attempts[id]);
    }
  }

  // ----- The guarantees -----

  /** Serializability: the committed tables are what the atomic specification leaves behind when
      it is run once per commit, in commit order; no attempt commits twice; and every reply is
      the specification's reply at the attempt's place in that order. */
  lemma Serializable(env: Env, s0: State, run: seq<Label>, s: State)
    requires Reached(env, s0, run, s)
    ensures s.initial == s0.tables && LegalLog(s.initial, s.log) && s.tables == Serial(s.initial, s.log)
    ensures forall i, j :: 0 <= i < j < |s.log| ==> s.log[i].attempt != s.log[j].attempt
    ensures forall i :: 0 <= i < |s.log| ==>
      s.log[i].attempt < |s.attempts| && s.log[i].req == s.attempts[s.log[i].attempt].req
    ensures forall id :: 0 <= id < |s.attempts| && s.attempts[id].pc.Done? && s.attempts[id].pc.outcome.Replied? ==>
      exists i :: RepliesAs(s, id, i)
  {
    ReachedInv(env, s0, run, s);
    InitInv(env, s0);
    RunLater(env, s0, run);
    forall id | 0 <= id < |s.attempts| && s.attempts[id].pc.Done? && s.attempts[id].pc.outcome.Replied?
      ensures exists i :: RepliesAs(s, id, i)
    {
      assert ReplyOk(s, id);
      assert RepliesAs(s, id, s.attempts[id].committedAt.value);
    }
  }

  /** The reply of attempt `id` is the specification's answer to commit `i` of the log. */
  predicate RepliesAs(s: State, id: nat, i: int)
    requires id < |s.attempts| && s.attempts[id].pc.Done? && s.attempts[id].pc.outcome.Replied?
  {
    && 0 <= i < |s.log| && s.log[i].attempt == id
    && s.attempts[id].pc.outcome.reply == ReplyFor(StatusOf(Decide(Upto(s.initial, s.log, i), s.attempts[id].req)))
  }

  /** Exactly once: whatever is retried or crashes, a key has one committed batch if its recorded
      status is 204, and otherwise neither a batch nor a row of one. */
  lemma KeyAppliedOnce(env: Env, s0: State, run: seq<Label>, s: State, key: string)
    requires Reached(env, s0, run, s)
    ensures BatchesOf(s.tables.batches, key) <= 1
    ensures BatchesOf(s.tables.batches, key) == 1 <==> key in s.tables.ledger && s.tables.ledger[key] == CREATED
    ensures key in s.tables.ledger ==> s.tables.ledger[key] in {CREATED, ACCOUNT_NOT_FOUND, INSUFFICIENT_FUNDS}
    ensures !(key in s.tables.ledger && s.tables.ledger[key] == CREATED) ==>
      && (forall b :: b in s.tables.batches ==> b.key != key)
      && (forall r :: r in s.tables.rows && r.batch.Some? ==>
            exists b :: b in s.tables.batches && b.id == r.batch.value && b.key != key)
  {
    ReachedInv(env, s0, run, s);
    InvKeeps(env, s);
    if BatchesOf(s.tables.batches, key) == 0 {
      NoBatchOf(s.tables.batches, key);
    }
  }

  lemma {:induction false} NoBatchOf(batches: seq<Batch>, key: string)
    requires BatchesOf(batches, key) == 0
    ensures forall b :: b in batches ==> b.key != key
  {
    if batches != [] {
      var n := |batches| - 1;
      NoBatchOf(batches[..n], key);
      assert batches == batches[..n] + [batches[n]];
    }
  }

  /** Conservation, for all int64 amounts: what an account has lost since the start is the total
      of its batches, so balances never rise and never go negative; the tripwire never fires. */
  lemma NoCentLost(env: Env, s0: State, run: seq<Label>, s: State, account: int)
    requires Reached(env, s0, run, s) && account in s0.tables.balances
    ensures account in s.tables.balances
    ensures s.tables.balances[account] + TotalsOf(s.tables.batches, account) == s0.tables.balances[account]
    ensures 0 <= s.tables.balances[account] <= s0.tables.balances[account]
    ensures s.violations == 0
  {
    ReachedInv(env, s0, run, s);
    InitInv(env, s0);
    RunLater(env, s0, run);
    InvKeeps(env, s);
  }

  /** The books of a batch: its total is positive and is the wrapped sum of exactly its own rows;
      it is the exact sum if and only if that sum fits an int64. */
  lemma BatchMatchesRows(env: Env, s0: State, run: seq<Label>, s: State, b: Batch)
    requires Reached(env, s0, run, s) && b in s.tables.batches
    ensures b.total > 0 && b.total == Wrap(RowSum(s.tables.rows, b.id))
    ensures b.total == RowSum(s.tables.rows, b.id) <==> Fits(RowSum(s.tables.rows, b.id))
    ensures forall r :: r in s.tables.rows && r.batch == Some(b.id) ==> r.account == b.account
  {
    ReachedInv(env, s0, run, s);
    InvKeeps(env, s);
  }

  /** Durable replies: an error-free reply is backed by the ledger, now and in every later state,
      and is the reply of every other attempt with that key, whatever its request says. */
  lemma RepliesAreDurable(env: Env, s0: State, run: seq<Label>, s: State, later: seq<Label>, id: nat, other: nat)
    requires Reached(env, s0, run, s) && ValidRun(env, s, later)
    requires id < |s.attempts| && s.attempts[id].pc.Done? && s.attempts[id].pc.outcome.Replied?
    ensures var s', key, reply := After(env, s, later), s.attempts[id].req.key, s.attempts[id].pc.outcome.reply;
      && key in s'.tables.ledger && s'.tables.ledger[key] == reply.status && reply.body == BodyFor(reply.status)
      && (other < |s'.attempts| && s'.attempts[other].req.key == key
            && s'.attempts[other].pc.Done? && s'.attempts[other].pc.outcome.Replied? ==>
          s'.attempts[other].pc.outcome.reply == reply)
  {
    ReachedInv(env, s0, run, s);
    RunLater(env, s, later);
    var s' := After(env, s, later);
    assert LaterAttempt(s.attempts[id], s'.attempts[id]);
    ReplyIsRecorded(env, s', id);
    if other < |s'.attempts| && s'.attempts[other].pc.Done? && s'.attempts[other].pc.outcome.Replied? {
      ReplyIsRecorded(env, s', other);
    }
  }

  lemma ReplyIsRecorded(env: Env, s: State, id: nat)
    requires Inv(env, s) && id < |s.attempts| && s.attempts[id].pc.Done? && s.attempts[id].pc.outcome.Replied?
    ensures var key, reply := s.attempts[id].req.key, s.attempts[id].pc.outcome.reply;
      key in s.tables.ledger && reply == ReplyFor(s.tables.ledger[key])
  {
    assert ReplyOk(s, id);
    EntryIsRecorded(s.initial, s.log, s.attempts[id].committedAt.value);
  }

  lemma EntryIsRecorded(open: Tables, log: seq<Entry>, i: nat)
    requires Opening(open) && LegalLog(open, log) && i < |log|
    ensures var t, key := Serial(open, log), log[i].req.key;
      key in t.ledger && t.ledger[key] == StatusOf(Decide(Upto(open, log, i), log[i].req))
  {
    var t, e := Upto(open, log, i), log[i];
    assert LegalAt(open, log, i);
    RecordsItsKey(t, e);
    assert Upto(open, log, i + 1) == Apply(t, e);
    SerialKeepsLedger(open, log, i + 1, |log|, e.req.key);
  }

  lemma RecordsItsKey(t: Tables, e: Entry)
    requires Legal(t, e)
    ensures e.req.key in Apply(t, e).ledger && Apply(t, e).ledger[e.req.key] == StatusOf(Decide(t, e.req))
  {
  }

  /** The key whose advisory lock, and the account whose row lock, an attempt holds while its
      callback runs. */
  function HeldKey(s: State, id: nat): Option<string>
    requires id < |s.attempts|
  {
    if KeyHeld(s.attempts[id].pc) then Some(s.attempts[id].req.key) else None
  }

  function HeldRow(s: State, id: nat): Option<int>
    requires id < |s.attempts|
  {
    var where := (s.attempts[id].req.iban, s.attempts[id].req.bic);
    if Resolved(s.attempts[id].pc) && Settled(s, id) && where in s.tables.directory
    then Some(s.tables.directory[where]) else None
  }

  /** The locks work: whatever step another attempt takes, it is one that module Submission lets
      the other transactions take. In particular, from an unsuccessful lookup until the end of the
      transaction nobody else records the key, and from the account read nobody else moves the
      balance that was read. */
  lemma LocksIsolate(env: Env, s0: State, run: seq<Label>, s: State, l: Label, id: nat)
    requires Reached(env, s0, run, s) && Enabled(env, s, l) && l.id != id && id < |s.attempts|
    ensures Rely(s.tables, Next(env, s, l).tables, HeldKey(s, id), HeldRow(s, id))
    ensures s.attempts[id].pc.KeyFresh? ==> s.attempts[id].req.key !in s.tables.ledger
    ensures s.attempts[id].pc.Funded? || s.attempts[id].pc.Batched? || s.attempts[id].pc.Loaded? ==>
      && HeldKey(s, id) == Some(s.attempts[id].req.key) && s.attempts[id].req.key !in s.tables.ledger
      && HeldRow(s, id) == Some(s.attempts[id].account)
      && BalanceOf(s.tables, s.attempts[id].account) == s.attempts[id].balance
  {
    ReachedInv(env, s0, run, s);
    StepRelies(env, s, l, id);
    assert OnTrack(s, id) by { assert AttemptOk(env, s, id); }
    TrackHolds(s, id);
  }

  lemma StepRelies(env: Env, s: State, l: Label, id: nat)
    requires Inv(env, s) && Enabled(env, s, l) && l.id != id && id < |s.attempts|
    ensures Rely(s.tables, Next(env, s, l).tables, HeldKey(s, id), HeldRow(s, id))
  {
    StepLater(env, s, l);
    InvKeeps(env, Next(env, s, l));
    StepUndisturbs(env, s, l, id);
    UndisturbedRelies(s, Next(env, s, l), id);
  }

  lemma TrackHolds(s: State, id: nat)
    requires id < |s.attempts| && OnTrack(s, id)
    ensures s.attempts[id].pc.KeyFresh? ==> s.attempts[id].req.key !in s.tables.ledger
    ensures s.attempts[id].pc.Funded? || s.attempts[id].pc.Batched? || s.attempts[id].pc.Loaded? ==>
      && HeldKey(s, id) == Some(s.attempts[id].req.key) && s.attempts[id].req.key !in s.tables.ledger
      && HeldRow(s, id) == Some(s.attempts[id].account)
      && BalanceOf(s.tables, s.attempts[id].account) == s.attempts[id].balance
  {
  }

  lemma StepUndisturbs(env: Env, s: State, l: Label, id: nat)
    requires Inv(env, s) && Enabled(env, s, l) && l.id != id && id < |s.attempts|
    ensures Undisturbed(s, Next(env, s, l), id)
  {
    var s' := Next(env, s, l);
    if !l.action.Arrive? {
      assert AttemptOk(env, s, l.id) && AttemptOk(env, s, id);
      if Applies(env, s, l) {
        StepCommit(env, s, l);
        CommitDisturbsNone(env, s, s', l.id, id);
      } else {
        StepLocal(env, s, l);
        LocalUndisturbs(s, s', l.id, id);
      }
    }
  }

  lemma UndisturbedRelies(s: State, s': State, id: nat)
    requires id < |s.attempts| && Undisturbed(s, s', id)
    requires Grows(s.tables, s'.tables) && Conserved(s'.initial, s'.tables)
    ensures Rely(s.tables, s'.tables, HeldKey(s, id), HeldRow(s, id))
  {
  }

  /** The dead branches: RecordIdempotency never waits for, and never meets, another record of
      its key; no transaction is ever in the failed state; and no debit is ever refused. */
  lemma RecordNeverCollides(env: Env, s0: State, run: seq<Label>, s: State, id: nat)
    requires Reached(env, s0, run, s) && id < |s.attempts|
    ensures !s.attempts[id].aborted
    ensures s.attempts[id].pc.Recording? ==>
      s.attempts[id].req.key !in Seen(s, s.attempts[id]).ledger && !KeyPending(s, s.attempts[id].req.key, id)
    ensures s.attempts[id].pc.Loaded? ==>
      Enabled(env, s, Label(id, Debit)) && Next(env, s, Label(id, Debit)).attempts[id].pc == Recording(CREATED)
  {
    ReachedInv(env, s0, run, s);
    assert AttemptOk(env, s, id);
    InvKeeps(env, s);
    if s.attempts[id].pc.Recording? {
      KeyIsOurs(env, s, id);
    }
    if s.attempts[id].pc.Loaded? {
      DebitGoesThrough(env, s, id);
    }
  }

  lemma KeyIsOurs(env: Env, s: State, id: nat)
    requires Inv(env, s) && id < |s.attempts| && KeyHeld(s.attempts[id].pc)
    ensures !KeyPending(s, s.attempts[id].req.key, id)
  {
    assert Covered(env, s, id) by { assert AttemptOk(env, s, id); }
    forall other: nat | other < |s.attempts| && other != id
      ensures s.attempts[id].req.key !in s.attempts[other].writes.ledger
    {
      assert Covered(env, s, other) by { assert AttemptOk(env, s, other); }
    }
  }

  lemma DebitGoesThrough(env: Env, s: State, id: nat)
    requires id < |s.attempts| && s.attempts[id].pc.Loaded? && OnTrack(s, id)
    requires Conserved(s.initial, s.tables)
    ensures Enabled(env, s, Label(id, Debit)) && Next(env, s, Label(id, Debit)).attempts[id].pc == Recording(CREATED)
  {
    var a := s.attempts[id];
    assert Seen(s, a).balances == s.tables.balances;
    assert a.account in s.tables.balances;
    assert DoDebit(env, s, id, a).attempts[id].pc == Recording(CREATED);
  }

  /** All or nothing: a step is either the commit of one attempt, and then everything the
      specification wants of it is in the tables, or it leaves every table as it was. */
  lemma AllOrNothing(env: Env, s0: State, run: seq<Label>, s: State, l: Label)
    requires Reached(env, s0, run, s) && Enabled(env, s, l)
    ensures var s' := Next(env, s, l);
      if Applies(env, s, l) then
        var e := Entry(l.id, s.attempts[l.id].req, s.attempts[l.id].draw);
        && s'.attempts[l.id].committedAt == Some(|s.log|) && s'.log == s.log + [e]
        && Legal(s.tables, e) && s'.tables == Apply(s.tables, e)
      else s'.tables == s.tables && s'.log == s.log
  {
    ReachedInv(env, s0, run, s);
    if Applies(env, s, l) {
      assert OnTrack(s, l.id) && Covered(env, s, l.id) by { assert AttemptOk(env, s, l.id); }
      CommitIsLegal(s, l.id);
      StepCommit(env, s, l);
    } else if !l.action.Arrive? {
      StepLocal(env, s, l);
    }
  }

  /** An attempt that is over holds no lock, and if it has not committed it has left nothing. */
  lemma NothingLeftBehind(env: Env, s0: State, run: seq<Label>, s: State, id: nat)
    requires Reached(env, s0, run, s) && id < |s.attempts| && s.attempts[id].pc.Done?
    ensures s.attempts[id].writes == NO_WRITES
    ensures forall h :: h in s.advisory ==> s.advisory[h] != id
    ensures forall x :: x in s.rowLocks ==> s.rowLocks[x] != id
    ensures s.attempts[id].committedAt == None ==> forall e :: e in s.log ==> e.attempt != id
  {
    ReachedInv(env, s0, run, s);
    assert OnTrack(s, id) by { assert AttemptOk(env, s, id); }
  }
}
