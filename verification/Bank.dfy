/** The tables the store works on, and the atomic meaning of one bulk-transfer submission. */
module Bank {
  import opened Int64
  import opened Results
  import opened Transfers

  // ----- Tables -----

  datatype Batch = Batch(id: int, account: int, key: string, total: int)

  /** A timestamptz: nanoseconds since the Unix epoch, kept to the microsecond. */
  type Instant = x: int64 | x % 1000 == 0

  datatype Row = Row(id: int64, createdAt: Instant, account: int, batch: Option<int>, transfer: CreditTransfer)

  /** Committed state. `directory` is the unique index on (iban, bic), `ledger` the idempotency
      table with its unique key; `batches` and `rows` are append-only, in commit order. */
  datatype Tables = Tables(
    directory: map<(string, string), int>,
    balances: map<int, int>,
    ledger: map<string, int>,
    batches: seq<Batch>,
    rows: seq<Row>)

  /** What an open transaction has written and no other transaction can see yet. */
  datatype Writes = Writes(balances: map<int, int>, ledger: map<string, int>, batches: seq<Batch>, rows: seq<Row>)

  const NO_WRITES := Writes(map[], map[], [], [])

  /** What a statement of the transaction sees, and what committing it leaves behind. */
  function View(t: Tables, w: Writes): Tables {
    Tables(t.directory, t.balances + w.balances, t.ledger + w.ledger, t.batches + w.batches, t.rows + w.rows)
  }

  function BalanceOf(t: Tables, account: int): int {
    if account in t.balances then t.balances[account] else 0
  }

  function RowsFor(rowIds: seq<int64>, createdAt: Instant, account: int, batch: int, ts: seq<CreditTransfer>): (rows: seq<Row>)
    requires |rowIds| == |ts|
    ensures |rows| == |ts|
  {
    seq(|ts|, i requires 0 <= i < |ts| => Row(rowIds[i], createdAt, account, Some(batch), ts[i]))
  }

  // ----- Replies -----

  const CREATED := 204
  const ACCOUNT_NOT_FOUND := 404
  const INSUFFICIENT_FUNDS := 422

  datatype Reply = Reply(status: int, body: Option<string>)

  function EncodeError(msg: string): string {
    "{\"error\":\"" + msg + "\"}"
  }

  function BodyFor(status: int): Option<string> {
    if status == ACCOUNT_NOT_FOUND then Some(EncodeError("account not found"))
    else if status == INSUFFICIENT_FUNDS then Some(EncodeError("insufficient funds"))
    else None
  }

  function ReplyFor(status: int): Reply {
    Reply(status, BodyFor(status))
  }

  /** The bodies, word for word. */
  predicate Worded(reply: Reply) {
    reply.body ==
      if reply.status == 404 then Some("{\"error\":\"account not found\"}")
      else if reply.status == 422 then Some("{\"error\":\"insufficient funds\"}")
      else None
  }

  lemma RepliesAreWorded(status: int)
    ensures Worded(ReplyFor(status))
  {
    NotFoundIsWorded();
    InsufficientIsWorded();
  }

  lemma NotFoundIsWorded()
    ensures EncodeError("account not found") == "{\"error\":\"account not found\"}"
  {
  }

  lemma InsufficientIsWorded()
    ensures EncodeError("insufficient funds") == "{\"error\":\"insufficient funds\"}"
  {
  }

  // ----- One submission, as if it ran alone -----

  /** What the tables say about a request. `Rejected` is a total the batch CHECK refuses. */
  datatype Decision =
    | Replay(status: int)
    | NotFound
    | Insufficient
    | Rejected
    | Create(account: int)

  function Decide(t: Tables, req: Request): Decision {
    if req.key in t.ledger then Replay(t.ledger[req.key])
    else if (req.iban, req.bic) !in t.directory then NotFound
    else
      var account := t.directory[(req.iban, req.bic)];
      if BalanceOf(t, account) < Total(req) then Insufficient
      else if Total(req) <= 0 then Rejected
      else Create(account)
  }

  function StatusOf(d: Decision): int {
    match d
    case Replay(status) => status
    case NotFound => ACCOUNT_NOT_FOUND
    case Insufficient => INSUFFICIENT_FUNDS
    case Rejected => 0
    case Create(_) => CREATED
  }

  /** The values the database hands out to one transaction: its start time and the sequence
      ids it draws. */
  datatype Draw = Draw(now: Instant, batchId: int, rowIds: seq<int64>)

  /** How a COMMIT ends: applied and acknowledged, applied with the answer lost, or not applied. */
  datatype CommitResult = Acknowledged | Lost | Refused

  function BatchFor(account: int, req: Request, draw: Draw): Batch {
    Batch(draw.batchId, account, req.key, Total(req))
  }

  /** Everything an accepted submission writes; a replay and a refused total write nothing. */
  function Effect(t: Tables, req: Request, draw: Draw): Writes {
    match Decide(t, req)
    case Replay(_) => NO_WRITES
    case Rejected => NO_WRITES
    case NotFound => NO_WRITES.(ledger := map[req.key := ACCOUNT_NOT_FOUND])
    case Insufficient => NO_WRITES.(ledger := map[req.key := INSUFFICIENT_FUNDS])
    case Create(account) =>
      Writes(
        map[account := BalanceOf(t, account) - Total(req)],
        map[req.key := CREATED],
        [BatchFor(account, req, draw)],
        if |draw.rowIds| == |req.transfers|
        then RowsFor(draw.rowIds, draw.now, account, draw.batchId, req.transfers) else [])
  }

  /** One committed transaction: which attempt ran it, for what request, with which draw. */
  datatype Entry = Entry(attempt: nat, req: Request, draw: Draw)

  function Apply(t: Tables, e: Entry): Tables {
    View(t, Effect(t, e.req, e.draw))
  }

  predicate FreshDraw(t: Tables, req: Request, draw: Draw) {
    && |draw.rowIds| == |req.transfers|
    && (forall b :: b in t.batches ==> b.id != draw.batchId)
    && (forall i, j :: 0 <= i < j < |draw.rowIds| ==> draw.rowIds[i] != draw.rowIds[j])
    && (forall r :: r in t.rows ==> r.id !in draw.rowIds)
  }

  /** A commit the database can make: the CHECK held and the sequence ids were unused. */
  predicate Legal(t: Tables, e: Entry) {
    && !Decide(t, e.req).Rejected?
    && (Decide(t, e.req).Create? ==> FreshDraw(t, e.req, e.draw))
  }

  /** The atomic specification of a whole run: the tables after the first `n` submissions of
      `log`, one after the other. */
  function Upto(t: Tables, log: seq<Entry>, n: nat): Tables
    requires n <= |log|
  {
    if n == 0 then t else Apply(Upto(t, log, n - 1), log[n - 1])
  }

  function Serial(t: Tables, log: seq<Entry>): Tables {
    Upto(t, log, |log|)
  }

  predicate LegalAt(t: Tables, log: seq<Entry>, i: int)
    requires 0 <= i < |log|
  {
    Legal(Upto(t, log, i), log[i])
  }

  predicate LegalLog(t: Tables, log: seq<Entry>) {
    forall i {:trigger LegalAt(t, log, i)} :: 0 <= i < |log| ==> LegalAt(t, log, i)
  }

  // ----- Aggregates -----

  /** The exact sum of the amounts stored for a batch. */
  function RowSum(rows: seq<Row>, batch: int): int {
    if rows == [] then 0
    else
      var last := rows[|rows| - 1];
      RowSum(rows[..|rows| - 1], batch) + if last.batch == Some(batch) then last.transfer.amount else 0
  }

  function TotalsOf(batches: seq<Batch>, account: int): int {
    if batches == [] then 0
    else
      var last := batches[|batches| - 1];
      TotalsOf(batches[..|batches| - 1], account) + if last.account == account then last.total else 0
  }

  function BatchesOf(batches: seq<Batch>, key: string): nat {
    if batches == [] then 0
    else
      var last := batches[|batches| - 1];
      BatchesOf(batches[..|batches| - 1], key) + if last.key == key then 1 else 0
  }
}
