/** Exact capacity: equal batches racing for one account succeed exactly as often as its balance
    holds their amount, in every interleaving. */
module Capacity {
  import opened Transfers
  import opened Bank
  import opened Sequential
  import opened Protocol
  import opened Guarantees

  /** A request of `amount` cents in all against the account at `where`. */
  predicate Asks(req: Request, where: (string, string), amount: int) {
    (req.iban, req.bic) == where && Total(req) == amount
  }

  /** How many times `amount` fits into `balance`, but at most `n`. */
  function Fitting(n: nat, balance: nat, amount: nat): nat
    requires amount > 0
  {
    if n <= balance / amount then n else balance / amount
  }

  /** The requests of a log have different keys. */
  predicate DistinctKeys(log: seq<Entry>) {
    forall i, j :: 0 <= i < j < |log| ==> log[i].req.key != log[j].req.key
  }

  lemma {:induction false} LedgerKeys(open: Tables, log: seq<Entry>, n: nat)
    requires Opening(open) && n <= |log|
    ensures forall key :: key in Upto(open, log, n).ledger ==> exists i :: 0 <= i < n && log[i].req.key == key
    decreases n
  {
    if n > 0 {
      LedgerKeys(open, log, n - 1);
    }
  }

  /** The first `n` of them, one after the other: `made` were created, and either all were or
      the rest of the balance is below the amount. */
  predicate Served(open: Tables, t: Tables, account: int, amount: nat, n: nat, made: nat) {
    && account in open.balances && account in t.balances
    && made <= n && |t.batches| == made
    && t.balances[account] == open.balances[account] - made * amount
    && (made == n || t.balances[account] < amount)
  }

  /** Entry `i` of a log meets the same accounts and a key nobody has used. */
  predicate MeetsFreshKey(open: Tables, log: seq<Entry>, i: int)
    requires 0 <= i < |log|
  {
    Upto(open, log, i).directory == open.directory && log[i].req.key !in Upto(open, log, i).ledger
  }

  predicate FreshKeys(open: Tables, log: seq<Entry>) {
    forall i {:trigger MeetsFreshKey(open, log, i)} :: 0 <= i < |log| ==> MeetsFreshKey(open, log, i)
  }

  predicate AllAsk(log: seq<Entry>, where: (string, string), amount: int) {
    forall i :: 0 <= i < |log| ==> Asks(log[i].req, where, amount)
  }

  lemma AllMeetFreshKeys(open: Tables, log: seq<Entry>)
    requires Opening(open) && LegalLog(open, log) && DistinctKeys(log)
    ensures FreshKeys(open, log)
  {
    forall i | 0 <= i < |log| ensures MeetsFreshKey(open, log, i) {
      SerialKeeps(open, log, i);
      LedgerKeys(open, log, i);
    }
  }

  lemma {:induction false} ServeFirst(open: Tables, log: seq<Entry>, n: nat, where: (string, string), amount: nat) returns (made: nat)
    requires n <= |log| && amount > 0
    requires where in open.directory && open.directory[where] in open.balances && open.batches == []
    requires AllAsk(log, where, amount) && FreshKeys(open, log)
    ensures Served(open, Upto(open, log, n), open.directory[where], amount, n, made)
    decreases n
  {
    if n == 0 {
      made := 0;
    } else {
      var m := ServeFirst(open, log, n - 1, where, amount);
      assert MeetsFreshKey(open, log, n - 1) && Asks(log[n - 1].req, where, amount);
      made := ServeOne(open, Upto(open, log, n - 1), log[n - 1], where, amount, n - 1, m);
    }
  }

  lemma ServeOne(open: Tables, t: Tables, e: Entry, where: (string, string), amount: nat, n: nat, m: nat) returns (made: nat)
    requires where in open.directory && amount > 0 && Asks(e.req, where, amount)
    requires t.directory == open.directory && e.req.key !in t.ledger
    requires Served(open, t, open.directory[where], amount, n, m)
    ensures Served(open, Apply(t, e), open.directory[where], amount, n + 1, made)
  {
    made := if t.balances[open.directory[where]] < amount then m else m + 1;
    assert (m + 1) * amount == m * amount + amount;
  }

  lemma ServedIsFitting(balance: nat, amount: nat, n: nat, made: nat)
    requires amount > 0 && made <= n && balance - made * amount >= 0
    requires made == n || balance - made * amount < amount
    ensures made == Fitting(n, balance, amount)
  {
    var q := balance / amount;
    assert q * amount <= balance < (q + 1) * amount;
    if made < n {
      Between(q, made, amount);
    } else if q < n {
      Between(q, made, amount);
    }
  }

  lemma Between(q: nat, made: nat, amount: nat)
    ensures q < made ==> (q + 1) * amount <= made * amount
    ensures made < q ==> (made + 1) * amount <= q * amount
  {
    if q < made {
      ProductGrows(q + 1, made, amount);
    } else if made < q {
      ProductGrows(made + 1, q, amount);
    }
  }

  lemma ProductGrows(x: nat, y: nat, factor: nat)
    requires x <= y
    ensures x * factor <= y * factor
  {
  }

  // ----- Counting -----

  predicate DistinctAttempts(log: seq<Entry>) {
    forall i, j :: 0 <= i < j < |log| ==> log[i].attempt != log[j].attempt
  }

  predicate CreatesAt(open: Tables, log: seq<Entry>, i: int)
    requires 0 <= i < |log|
  {
    Decide(Upto(open, log, i), log[i].req).Create?
  }

  /** `made` says which commits of a log created a batch. */
  predicate Tells(made: seq<bool>, open: Tables, log: seq<Entry>) {
    |made| == |log| && forall i {:trigger CreatesAt(open, log, i)} :: 0 <= i < |log| ==> made[i] == CreatesAt(open, log, i)
  }

  function Creating(open: Tables, log: seq<Entry>): (made: seq<bool>)
    ensures Tells(made, open, log)
  {
    seq(|log|, i requires 0 <= i < |log| => CreatesAt(open, log, i))
  }

  /** The attempts of those among the first `n` commits that are marked. */
  function Marked(log: seq<Entry>, made: seq<bool>, n: nat): set<nat>
    requires n <= |log| && |made| == |log|
  {
    if n == 0 then {} else Marked(log, made, n - 1) + if made[n - 1] then {log[n - 1].attempt} else {}
  }

  function Marks(made: seq<bool>, n: nat): nat
    requires n <= |made|
  {
    if n == 0 then 0 else Marks(made, n - 1) + if made[n - 1] then 1 else 0
  }

  lemma {:induction false} MarkedAt(log: seq<Entry>, made: seq<bool>, n: nat, id: nat)
    requires n <= |log| && |made| == |log|
    ensures id in Marked(log, made, n) <==> exists i :: 0 <= i < n && log[i].attempt == id && made[i]
    decreases n
  {
    if n > 0 {
      MarkedAt(log, made, n - 1, id);
    }
  }

  lemma MarkedOnce(log: seq<Entry>, made: seq<bool>, i: nat)
    requires DistinctAttempts(log) && i < |log| && |made| == |log|
    ensures log[i].attempt in Marked(log, made, |log|) <==> made[i]
  {
    MarkedAt(log, made, |log|, log[i].attempt);
  }

  lemma AddOne(ids: set<nat>, id: nat, made: bool)
    requires id !in ids
    ensures |ids + if made then {id} else {}| == |ids| + if made then 1 else 0
  {
  }

  lemma {:induction false} MarkedCount(log: seq<Entry>, made: seq<bool>, n: nat)
    requires DistinctAttempts(log) && n <= |log| && |made| == |log|
    ensures |Marked(log, made, n)| == Marks(made, n)
    decreases n
  {
    if n > 0 {
      MarkedCount(log, made, n - 1);
      MarkedAt(log, made, n - 1, log[n - 1].attempt);
      AddOne(Marked(log, made, n - 1), log[n - 1].attempt, made[n - 1]);
    }
  }

  /** The attempts that created a batch. */
  function Created(open: Tables, log: seq<Entry>): set<nat> {
    Marked(log, Creating(open, log), |log|)
  }

  lemma BatchesAdded(t: Tables, e: Entry)
    ensures |Apply(t, e).batches| == |t.batches| + if Decide(t, e.req).Create? then 1 else 0
  {
  }

  lemma {:induction false} MarksAreBatches(open: Tables, log: seq<Entry>, made: seq<bool>, n: nat)
    requires Tells(made, open, log) && n <= |log| && open.batches == []
    ensures Marks(made, n) == |Upto(open, log, n).batches|
    decreases n
  {
    if n > 0 {
      MarksAreBatches(open, log, made, n - 1);
      assert made[n - 1] == CreatesAt(open, log, n - 1);
      BatchesAdded(Upto(open, log, n - 1), log[n - 1]);
    }
  }

  /** Each creating commit adds exactly one batch, and is the only commit of its attempt. */
  lemma CreatedCount(open: Tables, log: seq<Entry>)
    requires Opening(open) && DistinctAttempts(log)
    ensures |Created(open, log)| == |Serial(open, log).batches|
  {
    MarksAreBatches(open, log, Creating(open, log), |log|);
    MarkedCount(log, Creating(open, log), |log|);
  }

  /** The ids of the first `n` attempts. */
  function Ids(n: nat): set<nat> {
    if n == 0 then {} else Ids(n - 1) + {n - 1}
  }

  function Attempts(log: seq<Entry>): set<nat> {
    set i | 0 <= i < |log| :: log[i].attempt
  }

  lemma {:induction false} IdsSize(n: nat)
    ensures forall id :: id in Ids(n) <==> 0 <= id < n
    ensures |Ids(n)| == n
  {
    if n > 0 {
      IdsSize(n - 1);
    }
  }

  lemma {:induction false} AttemptsSize(log: seq<Entry>)
    requires DistinctAttempts(log)
    ensures |Attempts(log)| == |log|
  {
    if log != [] {
      var n := |log| - 1;
      AttemptsSize(log[..n]);
      assert Attempts(log) == Attempts(log[..n]) + {log[n].attempt} by {
        assert forall i :: 0 <= i < n ==> log[..n][i] == log[i];
      }
    }
  }

  // ----- The race -----

  ghost predicate Race(env: Env, s0: State, run: seq<Label>, s: State, where: (string, string), amount: nat) {
    && Reached(env, s0, run, s) && where in s0.tables.directory && amount > 0
    && (forall id :: 0 <= id < |s.attempts| ==> Asks(s.attempts[id].req, where, amount))
    && (forall i, j :: 0 <= i < j < |s.attempts| ==> s.attempts[i].req.key != s.attempts[j].req.key)
  }

  lemma RaceLog(env: Env, s0: State, run: seq<Label>, s: State, where: (string, string), amount: nat)
    requires Race(env, s0, run, s, where, amount)
    ensures Opening(s0.tables) && s.initial == s0.tables
    ensures LegalLog(s0.tables, s.log) && s.tables == Serial(s0.tables, s.log)
    ensures DistinctAttempts(s.log) && DistinctKeys(s.log)
    ensures AllAsk(s.log, where, amount)
  {
    Serializable(env, s0, run, s);
    forall i, j | 0 <= i < j < |s.log| ensures s.log[i].req.key != s.log[j].req.key {
      var a, b := s.log[i].attempt, s.log[j].attempt;
      assert s.log[i].req == s.attempts[a].req && s.log[j].req == s.attempts[b].req;
      assert a != b;
    }
  }

  /** In any run, crashes and retries of the connection included: of the n attempts that have
      committed, exactly as many as the opening balance holds were accepted, and the account has
      paid for exactly those. */
  lemma RaceOutcome(env: Env, s0: State, run: seq<Label>, s: State, where: (string, string), amount: nat)
    requires Race(env, s0, run, s, where, amount)
    ensures var account := s0.tables.directory[where];
      && account in s0.tables.balances && account in s.tables.balances && s0.tables.balances[account] >= 0
      && var made := Fitting(|s.log|, s0.tables.balances[account], amount);
      && |s.tables.batches| == made
      && s.tables.balances[account] == s0.tables.balances[account] - made * amount
  {
    RaceLog(env, s0, run, s, where, amount);
    var account := s0.tables.directory[where];
    AllMeetFreshKeys(s0.tables, s.log);
    var made := ServeFirst(s0.tables, s.log, |s.log|, where, amount);
    SerialKeeps(s0.tables, s.log, |s.log|);
    ServedIsFitting(s0.tables.balances[account], amount, |s.log|, made);
  }

  /** The attempts that were answered with `status`. */
  function Answered(s: State, status: int): set<nat> {
    set id: nat | id < |s.attempts| && s.attempts[id].pc.Done? && s.attempts[id].pc.outcome.Replied?
      && s.attempts[id].pc.outcome.reply.status == status
  }

  /** And when all k attempts have been answered: exactly min(k, balance / amount) with 204, and
      the rest with 422. */
  lemma ExactCapacity(env: Env, s0: State, run: seq<Label>, s: State, where: (string, string), amount: nat)
    requires Race(env, s0, run, s, where, amount)
    requires forall id :: 0 <= id < |s.attempts| ==> s.attempts[id].pc.Done? && s.attempts[id].pc.outcome.Replied?
    ensures var account := s0.tables.directory[where];
      && account in s0.tables.balances && account in s.tables.balances && s0.tables.balances[account] >= 0
      && var made := Fitting(|s.attempts|, s0.tables.balances[account], amount);
      && |Answered(s, CREATED)| == made
      && Answered(s, INSUFFICIENT_FUNDS) == Ids(|s.attempts|) - Answered(s, CREATED)
      && s.tables.balances[account] == s0.tables.balances[account] - made * amount
  {
    RaceOutcome(env, s0, run, s, where, amount);
    RaceLog(env, s0, run, s, where, amount);
    AllCommitted(env, s0, run, s);
    CreatedCount(s0.tables, s.log);
    forall id: nat | id < |s.attempts|
      ensures id in Answered(s, if id in Created(s0.tables, s.log) then CREATED else INSUFFICIENT_FUNDS)
    {
      RaceAnswer(env, s0, run, s, where, amount, id);
    }
    IdsSize(|s.attempts|);
    AnsweredIsCreated(env, s0, run, s);
  }

  lemma AnsweredIsCreated(env: Env, s0: State, run: seq<Label>, s: State)
    requires Reached(env, s0, run, s)
    requires forall id: nat :: id < |s.attempts| ==>
      id in Answered(s, if id in Created(s0.tables, s.log) then CREATED else INSUFFICIENT_FUNDS)
    ensures Answered(s, CREATED) == Created(s0.tables, s.log)
  {
    Serializable(env, s0, run, s);
    forall id | id in Created(s0.tables, s.log) ensures id < |s.attempts| {
      MarkedAt(s.log, Creating(s0.tables, s.log), |s.log|, id);
    }
  }

  lemma CreatedAt(open: Tables, log: seq<Entry>, i: nat)
    requires DistinctAttempts(log) && i < |log|
    ensures log[i].attempt in Created(open, log) <==> CreatesAt(open, log, i)
  {
    MarkedOnce(log, Creating(open, log), i);
  }

  lemma AnswerAt(open: Tables, log: seq<Entry>, where: (string, string), amount: nat, i: nat)
    requires Opening(open) && LegalLog(open, log) && DistinctKeys(log) && DistinctAttempts(log)
    requires amount > 0 && where in open.directory && AllAsk(log, where, amount)
    requires i < |log|
    ensures StatusOf(Decide(Upto(open, log, i), log[i].req)) ==
      if log[i].attempt in Created(open, log) then CREATED else INSUFFICIENT_FUNDS
  {
    AllMeetFreshKeys(open, log);
    assert MeetsFreshKey(open, log, i);
    CreatedAt(open, log, i);
  }

  lemma RaceAnswer(env: Env, s0: State, run: seq<Label>, s: State, where: (string, string), amount: nat, id: nat)
    requires Race(env, s0, run, s, where, amount)
    requires id < |s.attempts| && s.attempts[id].pc.Done? && s.attempts[id].pc.outcome.Replied?
    ensures s.attempts[id].pc.outcome.reply.status ==
      if id in Created(s0.tables, s.log) then CREATED else INSUFFICIENT_FUNDS
  {
    RaceLog(env, s0, run, s, where, amount);
    var i := ReplyPlace(env, s0, run, s, id);
    AnswerAt(s0.tables, s.log, where, amount, i);
  }

  lemma ReplyPlace(env: Env, s0: State, run: seq<Label>, s: State, id: nat) returns (i: nat)
    requires Reached(env, s0, run, s)
    requires id < |s.attempts| && s.attempts[id].pc.Done? && s.attempts[id].pc.outcome.Replied?
    ensures i < |s.log| && s.log[i].attempt == id && s.log[i].req == s.attempts[id].req
    ensures s.initial == s0.tables
    ensures s.attempts[id].pc.outcome.reply.status == StatusOf(Decide(Upto(s0.tables, s.log, i), s.log[i].req))
  {
    Serializable(env, s0, run, s);
    i :| RepliesAs(s, id, i);
  }

  lemma AllCommitted(env: Env, s0: State, run: seq<Label>, s: State)
    requires Reached(env, s0, run, s)
    requires forall id :: 0 <= id < |s.attempts| ==> s.attempts[id].pc.Done? && s.attempts[id].pc.outcome.Replied?
    ensures |s.log| == |s.attempts|
  {
    Serializable(env, s0, run, s);
    IdsSize(|s.attempts|);
    AttemptsSize(s.log);
    forall id: nat | id < |s.attempts| ensures id in Attempts(s.log) {
      var i := ReplyPlace(env, s0, run, s, id);
      assert s.log[i].attempt in Attempts(s.log);
    }
    assert Attempts(s.log) == Ids(|s.attempts|);
  }
}
