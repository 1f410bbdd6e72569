/** No deadlock, and every run of finitely many attempts comes to an end. */
module Progress {
  import opened Int64
  import opened Bank
  import opened Protocol
  import opened Invariant
  import opened Guarantees

  // ----- No deadlock -----

  /** The statement an attempt sends when nothing goes wrong, given what the database hands out. */
  function Healthy(a: Attempt, batchId: int, rowIds: seq<int64>): Action
    requires !a.pc.Done?
  {
    match a.pc
    case Arrived => Begin(0)
    case Begun => LockKey
    case KeyLocked => Lookup
    case KeyFresh => FindAccount
    case Funded => InsertBatch(batchId)
    case Batched => InsertRows(rowIds)
    case Loaded => Debit
    case Recording(_) => Record
    case Committing(_) => Commit(Acknowledged)
    case Aborting => Rollback
  }

  /** The sequences can hand out these ids to this attempt. */
  predicate Available(s: State, a: Attempt, batchId: int, rowIds: seq<int64>) {
    batchId !in s.batchIds && |rowIds| == |a.req.transfers| && UnusedRows(s, rowIds)
  }

  /** The sequences are not exhausted. */
  ghost predicate Supplied(s: State) {
    forall id :: 0 <= id < |s.attempts| ==> exists batchId, rowIds :: Available(s, s.attempts[id], batchId, rowIds)
  }

  /** The attempt is unfinished and its next regular step is enabled. */
  ghost predicate CanStep(env: Env, s: State, id: nat) {
    && id < |s.attempts| && !s.attempts[id].pc.Done?
    && exists batchId, rowIds :: Enabled(env, s, Label(id, Healthy(s.attempts[id], batchId, rowIds)))
  }

  /** How far an attempt has come in taking locks: one only ever waits for one further on. */
  function Rung(pc: Pc): nat {
    if pc.Arrived? then 0
    else if pc.Begun? then 1
    else if pc.KeyFresh? then 2
    else 3
  }

  /** A blocked attempt waits for one on a strictly higher rung, or for a connection that an
      attempt of its own instance occupies. */
  ghost predicate WaitsFor(s: State, id: nat, other: nat) {
    && id < |s.attempts| && other < |s.attempts| && !s.attempts[other].pc.Done?
    && Rung(s.attempts[id].pc) < Rung(s.attempts[other].pc)
    && (s.attempts[id].pc.Arrived? ==> s.attempts[other].instance == s.attempts[id].instance)
  }

  lemma TopRungSteps(env: Env, s: State, id: nat)
    requires Inv(env, s) && Supplied(s)
    requires id < |s.attempts| && !s.attempts[id].pc.Done? && Rung(s.attempts[id].pc) == 3
    ensures CanStep(env, s, id)
  {
    var batchId, rowIds :| Available(s, s.attempts[id], batchId, rowIds);
    if s.attempts[id].pc.Recording? {
      KeyIsOurs(env, s, id);
    } else if s.attempts[id].pc.Loaded? {
      assert OnTrack(s, id) by { assert AttemptOk(env, s, id); }
      InvKeeps(env, s);
      DebitGoesThrough(env, s, id);
    }
    TopRungEnabled(env, s, id, batchId, rowIds);
  }

  lemma TopRungEnabled(env: Env, s: State, id: nat, batchId: int, rowIds: seq<int64>)
    requires id < |s.attempts| && !s.attempts[id].pc.Done? && Rung(s.attempts[id].pc) == 3
    requires Available(s, s.attempts[id], batchId, rowIds)
    requires s.attempts[id].pc.Recording? ==> !KeyPending(s, s.attempts[id].req.key, id)
    requires s.attempts[id].pc.Loaded? ==> Enabled(env, s, Label(id, Debit))
    ensures Enabled(env, s, Label(id, Healthy(s.attempts[id], batchId, rowIds)))
  {
  }

  lemma ArrivedWaits(env: Env, s: State, id: nat) returns (other: nat)
    requires id < |s.attempts| && s.attempts[id].pc.Arrived? && !Enabled(env, s, Label(id, Begin(0)))
    requires env.poolSize(s.attempts[id].instance) >= 1
    ensures WaitsFor(s, id, other)
  {
    var busy := Busy(s, s.attempts[id].instance);
    assert |busy| >= 1;
    other :| other in busy;
  }

  lemma BegunWaits(env: Env, s: State, id: nat) returns (other: nat)
    requires LocksOk(env, s)
    requires id < |s.attempts| && s.attempts[id].pc.Begun? && !Enabled(env, s, Label(id, LockKey))
    ensures WaitsFor(s, id, other)
  {
    other := s.advisory[env.hash(s.attempts[id].req.key)];
  }

  lemma FreshWaits(env: Env, s: State, id: nat) returns (other: nat)
    requires LocksOk(env, s)
    requires id < |s.attempts| && s.attempts[id].pc.KeyFresh? && !Enabled(env, s, Label(id, FindAccount))
    ensures WaitsFor(s, id, other)
  {
    other := s.rowLocks[s.tables.directory[(s.attempts[id].req.iban, s.attempts[id].req.bic)]];
  }

  lemma BlockedWaitsHigher(env: Env, s: State, id: nat) returns (other: nat)
    requires Inv(env, s) && Supplied(s) && (forall i :: env.poolSize(i) >= 1)
    requires id < |s.attempts| && !s.attempts[id].pc.Done? && Rung(s.attempts[id].pc) < 3 && !CanStep(env, s, id)
    ensures WaitsFor(s, id, other)
  {
    var a := s.attempts[id];
    assert LocksOk(env, s);
    assert !Enabled(env, s, Label(id, Healthy(a, 0, [])));
    if a.pc.Arrived? {
      other := ArrivedWaits(env, s, id);
    } else if a.pc.Begun? {
      other := BegunWaits(env, s, id);
    } else {
      other := FreshWaits(env, s, id);
    }
  }

  /** Waiting climbs: following it from any unfinished attempt ends at one that can step. */
  lemma {:induction false} SomeoneSteps(env: Env, s: State, id: nat) returns (mover: nat)
    requires Inv(env, s) && Supplied(s) && (forall i :: env.poolSize(i) >= 1)
    requires id < |s.attempts| && !s.attempts[id].pc.Done?
    ensures CanStep(env, s, mover)
    decreases 3 - Rung(s.attempts[id].pc)
  {
    if CanStep(env, s, id) {
      mover := id;
    } else if Rung(s.attempts[id].pc) < 3 {
      var other := BlockedWaitsHigher(env, s, id);
      mover := SomeoneSteps(env, s, other);
    } else {
      TopRungSteps(env, s, id);
      mover := id;
    }
  }

  /** No deadlock: as long as some attempt is unfinished, some attempt can take its next regular
      step, whatever the hash collisions and however small the pools. */
  lemma NoDeadlock(env: Env, s0: State, run: seq<Label>, s: State)
    requires Reached(env, s0, run, s) && Supplied(s) && (forall i :: env.poolSize(i) >= 1)
    requires exists id :: 0 <= id < |s.attempts| && !s.attempts[id].pc.Done?
    ensures exists id :: CanStep(env, s, id)
  {
    ReachedInv(env, s0, run, s);
    var id :| 0 <= id < |s.attempts| && !s.attempts[id].pc.Done?;
    var mover := SomeoneSteps(env, s, id);
  }

  // ----- Termination -----

  function Work(attempts: seq<Attempt>): nat {
    if attempts == [] then 0
    else Work(attempts[..|attempts| - 1]) + Remaining(attempts[|attempts| - 1].pc)
  }

  lemma {:induction false} WorkUpdate(attempts: seq<Attempt>, id: nat, a: Attempt)
    requires id < |attempts|
    ensures Work(attempts[id := a]) == Work(attempts) - Remaining(attempts[id].pc) + Remaining(a.pc)
  {
    var n := |attempts| - 1;
    if id == n {
      assert attempts[id := a][..n] == attempts[..n];
    } else {
      WorkUpdate(attempts[..n], id, a);
      assert attempts[id := a][..n] == attempts[..n][id := a];
    }
  }

  lemma StepLessWork(s: State, s': State, id: nat)
    requires Local(s, s', id) || Commits(s, s', id)
    ensures Work(s'.attempts) < Work(s.attempts)
  {
    assert s'.attempts == s.attempts[id := s'.attempts[id]];
    WorkUpdate(s.attempts, id, s'.attempts[id]);
  }

  function Arrivals(run: seq<Label>): nat {
    if run == [] then 0 else Arrivals(run[1..]) + if run[0].action.Arrive? then 1 else 0
  }

  /** Every step but an arrival uses up work, and an arrival brings ten steps of it. */
  lemma StepWork(env: Env, s: State, l: Label)
    requires Inv(env, s) && Enabled(env, s, l)
    ensures if l.action.Arrive? then Work(Next(env, s, l).attempts) == Work(s.attempts) + 10
      else Work(Next(env, s, l).attempts) < Work(s.attempts)
  {
    var s' := Next(env, s, l);
    if l.action.Arrive? {
      assert s'.attempts[..|s.attempts|] == s.attempts;
    } else if Applies(env, s, l) {
      StepCommit(env, s, l);
      StepLessWork(s, s', l.id);
    } else {
      StepLocal(env, s, l);
      StepLessWork(s, s', l.id);
    }
  }

  lemma {:induction false} RunWork(env: Env, s: State, run: seq<Label>)
    requires Inv(env, s) && ValidRun(env, s, run)
    ensures |run| + Work(After(env, s, run).attempts) <= Work(s.attempts) + 11 * Arrivals(run)
    decreases |run|
  {
    if run != [] {
      StepInv(env, s, run[0]);
      StepWork(env, s, run[0]);
      RunWork(env, Next(env, s, run[0]), run[1..]);
    }
  }

  lemma {:induction false} NoWorkLeft(attempts: seq<Attempt>, id: nat)
    requires id < |attempts|
    ensures Remaining(attempts[id].pc) <= Work(attempts)
  {
    if id < |attempts| - 1 {
      NoWorkLeft(attempts[..|attempts| - 1], id);
    }
  }

  /** Termination: a run with n attempts has at most 11 n steps, and when it has that many, every
      attempt is over. */
  lemma {:induction false} RunsEnd(env: Env, s0: State, run: seq<Label>, s: State)
    requires Reached(env, s0, run, s)
    ensures |run| <= 11 * Arrivals(run)
    ensures |run| == 11 * Arrivals(run) ==> forall id :: 0 <= id < |s.attempts| ==> s.attempts[id].pc.Done?
  {
    InitInv(env, s0);
    RunWork(env, s0, run);
    forall id | 0 <= id < |s.attempts| && Work(s.attempts) == 0 ensures s.attempts[id].pc.Done? {
      NoWorkLeft(s.attempts, id);
    }
  }
}
