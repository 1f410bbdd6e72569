# Bulk transfers: a model of the money path

A client submits a list of credit transfers in one request. The service debits one account by
their total and stores one row per transfer, in one Postgres transaction, at most once per
idempotency key, while other clients, other instances and crashed predecessors do the same. The
account's rows can be read back page by page. This project models that path and states what it
guarantees, for every schedule and every input.

## How the model is built

- **Specification** (`Bank.dfy`, `Sequential.dfy`). The tables, and what one submission does to
  them when it runs alone: `Decide` looks at ledger, account and funds, `Effect` is everything the
  transaction then writes. `Upto` and `Serial` run a log of submissions one after the other.
- **Step machine** (`Protocol.dfy`, `Invariant.dfy`). Any number of attempts on any number of
  instances, one step per statement of `SubmitBulkTransfer`. The database gives READ COMMITTED
  reads plus a transaction's own writes, advisory and row locks that end with the transaction,
  the CHECK and UNIQUE constraints, and sequences that never roll back. A statement may fail, a
  process may die at any point, and a commit may be applied although its answer is lost. The
  advisory-lock hash, the pool sizes and whether the balance CHECK is there at all are arbitrary.
  The invariant says that what an attempt has written so far is, at each statement, that part of
  `Effect` computed on the tables *as they are now*.
- **Consequences** (`Guarantees.dfy`, `Books.dfy`, `Progress.dfy`, `Capacity.dfy`). Every run
  refines the specification run in commit order; hence exactly-once, conservation, durable
  replies, all-or-nothing, no deadlock, termination, and exact capacity under a race.
- **The code of one submission** (`Submission.dfy`, `Statements.dfy`, `Isolation.dfy`). A class for
  the connection a transaction runs on, with the store's calls, `Atomic` and the callback as
  methods, statement by statement. What the other transactions make of the tables between two
  statements, what goes wrong by itself at a statement, and how a commit ends are parameters of
  the connection, arbitrary sequences, the first as far as it meets a rely condition. Every contract
  says that nothing but the others and an applied commit changes a committed table, and when a call
  must succeed. `Submission.AsPromised` spells the outcome out without the shared specification.
- **Machine and code** (`Correspondence.dfy`). `Statements.dfy` defines what each call does to a
  transaction. The methods ensure it, `Correspondence.StepsAreStatements` shows that each step of
  the machine is an instance of it, and `Guarantees.LocksIsolate` that the machine's other attempts
  only do what the rely condition allows.
- **Money** (`Int64.dfy`, `Money.dfy`, `Transfers.dfy`, `Handler.dfy`, `EndToEnd.dfy`). int64
  arithmetic with its wrap-around written out; parsing, printing and adding up of amounts, and
  their composition with the protocol.
- **History** (`Cursors.dfy`, `History.dfy`, `Walks.dfy`). The cursor codec down to base64url
  (sections 3.2 and 5 of RFC 4648), the keyset page query, one page, and a client that walks from
  page to page while rows are added.

## Where code and documentation differ

The model follows the code.

- `README.md:102-104`, `README.md:118` and `docs/sequence-submit-bulk-transfer.md:52` say that
  transfer rows are stored with a negative amount; `internal/transfer/store/transactions.go:25`
  stores them as they are, positive. So an account's balance *plus* its batch rows is its opening
  balance. `README.md:102-103` also puts the rows before the batch; the code inserts the batch first.
- `internal/transfer/store/idempotency.go:52-54` takes a unique violation as "someone else just
  recorded this key" and goes on. In Postgres the transaction is then in its failed state and the
  commit would roll back. The model keeps that behaviour, and the branch is shown to be unreachable.
- Exactness has limits, none of which a documented bound excludes. A whole part below 2^62 can
  still leave the int64 range in cents, and "184467440737095517" is read as 84 cents
  (`Money.ParserWraps`); three valid amounts can have the total 1 (`Books.WrappedTotalIsAccepted`).
  `Money.ParserExact`, `Money.FormatParsed`, `Guarantees.BatchMatchesRows` and
  `Books.BalancePlusRows` say exactly when the books agree. Balances stay within bounds regardless.

## Model

| member | source | states |
|---|---|---|
| Guarantees.Serializable | internal/transfer/service/transfer.go:71-132 | For every interleaving with crashes, failures and lost commit answers: the committed tables are those of the atomic specification run once per commit in commit order, no attempt commits twice, and every reply is the specification's reply at the attempt's own place in that order |
| Invariant.StepInv | internal/transfer/service/transfer.go:74-127 | Every enabled step of every attempt keeps the inductive invariant |
| Invariant.CommitIsLegal | internal/transfer/service/transfer.go:101-126 | The commit of an attempt that is on track is one the specification allows: its total passed the CHECK, and the batch and row ids it drew occur nowhere in the tables |
| Invariant.UndisturbedOk | internal/transfer/store/accounts.go:15-43 | An attempt whose locks, ids, key and locked balance are left alone stays on track, however much else has been committed |
| Invariant.NoViolation | internal/transfer/service/metrics.go:27-35 | No step increments the balance-violation counter, even without the balance CHECK |
| Guarantees.KeyAppliedOnce | internal/transfer/service/transfer.go:80-126 | A key has at most one committed batch, exactly one if and only if its recorded status is 204; otherwise no batch is its own and every batch row belongs to another key's; recorded statuses are 204, 404 or 422 |
| Guarantees.NoCentLost | internal/transfer/service/transfer.go:101-122 | In every reachable state, for every int64 amount: balance plus the account's batch totals is the opening balance, the balance is neither negative nor above it, and the tripwire has not fired |
| Guarantees.BatchMatchesRows | internal/transfer/store/transactions.go:20-41 | A batch total is positive and the wrapped sum of exactly its own rows; it is their exact sum if and only if that sum fits an int64; its rows belong to its account |
| Books.BalancePlusRows | internal/transfer/store/transactions.go:22-27 | Balance plus stored batch rows equals the opening balance modulo 2^64 always, exactly when no accepted request of the account overflowed, and for positive amounts only then |
| Books.LogBalances | internal/transfer/store/accounts.go:51-66 | The same gap between rows and debits on the specification: what wrapped totals hide, and when that is nothing |
| Books.WrappedTotalIsAccepted | internal/transfer/model/transfer.go:27-36 | The counterexample without the bound: three positive amounts of sum 2^64 + 1 have the total 1 and are accepted against a balance of one cent |
| Guarantees.RepliesAreDurable | internal/transfer/service/transfer.go:42-51 | An error-free reply is backed by a ledger entry of that status now and in every later state, its body is determined by the status, and every other reply to the key is the same, whatever that request says |
| Guarantees.EntryIsRecorded | internal/transfer/store/idempotency.go:55-70 | Every commit of a log leaves its key recorded for good with the status it decided |
| Guarantees.LocksIsolate | internal/transfer/store/accounts.go:20-43 | Whatever step another attempt takes, the key looked up stays unrecorded and the balance read stays put until this transaction ends; every such step satisfies the rely condition of the code |
| Correspondence.StepsAreStatements | internal/transfer/service/transfer.go:74-127 | In every reachable state each step of an attempt is an instance of the contract of the call behind it, on that attempt's tables, writes, locks and draws, and leads to the statement the callback sends next |
| Guarantees.RecordNeverCollides | internal/transfer/store/idempotency.go:63-66 | The unique-violation branch is dead: a recording attempt finds its key neither recorded nor pending, no transaction reaches the failed state, and no debit is refused |
| Guarantees.AllOrNothing | pkg/txn/txn.go:72-92 | A step either commits one attempt, and then the tables gain its whole atomic effect and the log its entry, or leaves every table as it was |
| Guarantees.NothingLeftBehind | pkg/txn/txn.go:73-82 | A finished attempt holds no lock and no pending write, and has no log entry unless it committed |
| Sequential.SerialKeeps | internal/transfer/service/transfer.go:80-126 | Any sequence of atomic submissions conserves money, applies keys once and keeps the books of every batch |
| Sequential.ApplyConserves | internal/transfer/store/accounts.go:51-66 | One submission takes from the balance what it adds to the account's batch totals, and tables only grow |
| Sequential.ApplyBalances | internal/transfer/store/batches.go:11-26 | One submission adds a batch whose total is the wrapped sum of its own new rows, and disturbs no other batch's books |
| Progress.NoDeadlock | pkg/database/metrics.go:14-19 | With pools of at least one connection and any hash collisions, as long as an attempt is unfinished some attempt can take its next regular step |
| Progress.SomeoneSteps | internal/transfer/store/idempotency.go:18-23 | Following who waits for whom from any unfinished attempt ends at one that can step |
| Progress.RunsEnd | internal/transfer/service/transfer.go:71-132 | A run with n attempts has at most 11 n steps, and all attempts are over when it has that many |
| Capacity.ExactCapacity | internal/transfer/service/transfer.go:101-126 | k answered submissions with different keys and equal totals a on one account of balance B: exactly min(k, B / a) are answered 204, all others 422, and B - a * min(k, B / a) is left |
| Capacity.RaceOutcome | README.md:112-114 | The same for unfinished and crashing runs, counted over the attempts that have committed so far |
| Capacity.ServedIsFitting | internal/transfer/service/transfer.go:102-106 | Serving until the rest is below the amount makes the number served the quotient of balance and amount, capped |
| Submission.Connection.Atomic | pkg/txn/txn.go:56-93 | A transaction that has begun gets exactly one commit or rollback, after a panic a rollback, and a failed or panicking statement's error or panic is passed on; nil if and only if no statement had a mishap, the total was not refused and the commit was answered. Where a commit was applied, the tables are the specification's effect on what the others had made of them; everywhere else they are only what the others made of them |
| Submission.Connection.Finish | pkg/txn/txn.go:72-89 | The deferred function: a nil return of the callback is committed, anything else is rolled back and passed on; a commit leaves the specification's effect on the tables of that moment |
| Submission.Connection.SubmitBulkTransfer | internal/transfer/service/transfer.go:71-132 | A healthy call succeeds: nil if and only if no statement had a mishap, the commit was answered and the batch CHECK did not refuse the total. A result is exposed exactly on nil, and it and the change of the tables are, spelled out: a replay; 404 or 422 with its text and a ledger entry; or 204 with the debit, one batch, and one row per transfer with all its fields |
| Submission.SubmittedAsPromised | internal/transfer/service/transfer.go:80-126 | The specification that machine and code share, against the spelled-out promise: statuses, texts, ledger, balance, batch, and every field of every row |
| Bank.RepliesAreWorded | internal/transfer/service/transfer.go:33-51 | A 404 and a 422 have their fixed JSON texts, every other reply has no body |
| Submission.Connection.Callback | internal/transfer/service/transfer.go:74-127 | Whatever the others commit between statements, the callback itself changes no committed table; without a mishap it fails only for a refused total; a nil return means the pending writes are exactly the effect on the tables as they are now, the key's lock is held, and for a new key with a known account the row's too |
| Submission.Connection.ResolveAccount | internal/transfer/service/transfer.go:90-126 | The same from the account lookup on, for a new key whose lock is held |
| Submission.Connection.PersistBatch | internal/transfer/service/transfer.go:108-126 | From a funded, locked account: batch, rows, debit, tripwire check and record amount to the specification's effect; it fails only on a mishap or a total that is not positive |
| Submission.Connection.DebitAndRecord | internal/transfer/service/transfer.go:116-126 | With batch and rows pending, the debit, the tripwire check and the record complete the effect, and fail only on a mishap |
| Submission.PersistedIsEffect | internal/transfer/service/transfer.go:109-126 | Pending batch and rows, the debit and the record compose to the specification's effect, both on the tables before the debit and on those after the record |
| Submission.Connection.RecordDenial | internal/transfer/service/transfer.go:95-106 | A denial writes its ledger entry and nothing else |
| Submission.Connection.AdvisoryLock | internal/transfer/store/idempotency.go:18-23 | Fails only on a mishap; otherwise the key's lock is held |
| Submission.Connection.FindIdempotencyRecordStatus | internal/transfer/store/idempotency.go:30-48 | Found if and only if the key is recorded or pending in this transaction, with that status; fails only on a mishap |
| Submission.Connection.FindAccountForUpdate | internal/transfer/store/accounts.go:20-43 | Found if and only if (iban, bic) is in the index; then its row is locked and the balance is the one at that moment; fails only on a mishap |
| Submission.Connection.InsertBatch | internal/transfer/store/batches.go:11-26 | Without a mishap it succeeds if and only if the total is positive, and then one batch with it is pending |
| Submission.Connection.InsertTransactions | internal/transfer/store/transactions.go:20-41 | One pending row per transfer, in order, with the drawn id, the start time, the account, the batch, and every field of the transfer as given; fails only on a mishap |
| Submission.Connection.DebitAccount | internal/transfer/store/accounts.go:51-66 | Without a mishap it succeeds if and only if what is left is a non-negative int64, zero included; that is the pending balance and what is returned |
| Submission.Connection.RecordIdempotency | internal/transfer/store/idempotency.go:55-70 | A fresh key becomes pending with its status; a taken one is swallowed but leaves the transaction failed; an error only on a mishap |
| Submission.Connection.CheckBalanceInvariant | internal/transfer/service/metrics.go:27-35 | An error and one count more exactly for a negative balance |
| Submission.IsUniqueViolation | internal/transfer/store/store.go:52-60 | True if and only if the first Postgres error of the chain has SQLSTATE 23505 |
| Submission.AsPgError | internal/transfer/store/store.go:62-78 | Finds the first Postgres error of a chain of wrapped errors, or none |
| Isolation.DecisionSettled | internal/transfer/service/transfer.go:84-102 | Under both locks, the decision about a request and everything it writes do not depend on what others commit |
| Money.ParseAmountCents | internal/transfer/model/money.go:15-45 | The loop over machine integers answers exactly what the exact value of the string, wrapped once, says; it is a format error if and only if the string is malformed or its whole part is 2^62 or more |
| Money.AcceptedShape | internal/transfer/model/money.go:16-22 | The accepted format is digits, or digits, a point and one or two digits, and nothing else |
| Money.CentsSpelled | internal/transfer/model/money.go:24-39 | What an accepted string is worth, digit by digit: a single decimal counts tens of cents |
| Money.ValueConcat | internal/transfer/model/money.go:24 | Digit strings are read in base ten, the most significant digit first |
| Money.ParserExact | internal/transfer/model/money.go:11-45 | Every value from one cent to MaxInt64 is read exactly; what is accepted is congruent modulo 2^64, and exact if and only if the value fits |
| Money.ParserWraps | internal/transfer/model/money.go:24-29 | The counterexample beyond the bound: a 63-bit whole part that is read as 84 cents |
| Money.ParseFormatted | internal/transfer/model/money.go:47-56 | Parsing what was printed gives the amount back if and only if it is positive |
| Money.FormatParsed | internal/transfer/model/money.go:47-56 | Printing what was parsed gives the input without leading zeros and with two decimals, if and only if its exact value fits an int64 |
| Money.DecimalOfValue | internal/transfer/model/money.go:24 | Reading a digit string and printing it drops its leading zeros and nothing else |
| Money.FormatAmountCents | internal/transfer/model/money.go:49-56 | A minus sign exactly for negative amounts, whole euros without leading zeros and two decimals that denote the amount; a negative text without its sign parses to the amount negated, a positive one to the amount; the text of the most negative int64 is spelled out |
| Money.FormattedDiffer | internal/transfer/model/money.go:49-56 | Different amounts never print alike, for all int64 |
| Money.IsDigits | internal/transfer/model/money.go:58-65 | True if and only if every character is a decimal digit |
| Transfers.TotalCents | internal/transfer/model/transfer.go:30-36 | Wrapping after every addition gives the exact sum wrapped once |
| Transfers.PositiveSum | internal/transfer/model/transfer.go:27-29 | Positive amounts have an exact sum of at least one cent each |
| Handler.ValidateAmount | internal/transfer/server/validate.go:18-21 | Accepts exactly the strings the conversion can parse |
| Handler.ToDomainRequest | internal/transfer/server/handler.go:106-134 | Succeeds if and only if every amount is valid; then bic, iban and every text are the client's, the amounts are the parsed ones, in order, and the key is the header's if it is not empty and the hash of the body otherwise; fails with the error of the first invalid amount |
| Handler.TotalIsExact | internal/transfer/model/transfer.go:27-36 | The total of a valid request is the exact decimal sum of its amount strings if and only if that sum fits int64 cents |
| Handler.ExactOnTheWayIn | internal/transfer/server/handler.go:106-121 | If the exact decimal sum of a valid request fits int64 cents, total and amounts are exact and print back as the client's canonical text |
| EndToEnd.NoCentLostEndToEnd | internal/transfer/service/transfer.go:101-126 | From amount strings to the balance, in any run: a committed request is a replay without effect, or denied with nothing but a ledger entry, or accepted because the funds cover the exact decimal sum, and then exactly that sum is debited and every row carries its string's exact cents and the texts sent with it |
| EndToEnd.PaysExactly | internal/transfer/service/transfer.go:108-126 | An accepted request moves one balance by the exact decimal sum and appends one batch and its rows |
| Cursors.CursorRoundTrip | internal/transfer/model/pagination.go:35-58 | 22 plain symbols that decode to the cursor, exactly when its instant fits int64 nanoseconds |
| Cursors.CursorLayout | internal/transfer/model/pagination.go:36-39 | The text decodes to sixteen bytes: the first eight are the instant, the last eight the id, as little-endian two's complement |
| Cursors.DecodedLayout | internal/transfer/model/pagination.go:48-57 | What an accepted text decodes to is read from its bytes in that layout |
| Cursors.BytesCount | internal/transfer/model/pagination.go:37-38 | Little-endian: each byte counts 256 times as much as the one before |
| Cursors.SymbolsAreTheAlphabet | internal/transfer/model/pagination.go:39 | The symbols are those of Table 2 of RFC 4648 |
| Cursors.QuantumIsBigEndian | internal/transfer/model/pagination.go:39 | Up to three bytes are spelled as one number, most significant bits first, filled up with zero bits |
| Cursors.OnlyBreaksAreSkipped | internal/transfer/model/pagination.go:48 | The decoder skips line breaks and nothing else, wherever they stand |
| Cursors.AcceptedCursor | internal/transfer/model/pagination.go:44-58 | A non-empty text is accepted if and only if it is 22 symbols apart from line breaks; it is never the start marker, re-encodes to itself with unused bits cleared, and decoding is stable under re-encoding |
| Cursors.SymbolsRoundTrip | internal/transfer/model/pagination.go:39 | base64url without padding: decoding an encoding of any bytes gives them back, and its length |
| Cursors.Base64RoundTrip | internal/transfer/model/pagination.go:39-48 | What the lenient decoder, line breaks and all, makes of an encoding is the bytes encoded |
| Cursors.ReencodeSymbols | internal/transfer/model/pagination.go:48 | Encoding what was decoded gives the text back with the unused bits of its last symbol cleared |
| Cursors.PutUint64 | internal/transfer/model/pagination.go:37-38 | Writes eight little-endian bytes in place and leaves the rest of the buffer |
| Cursors.EncodeCursor | internal/transfer/model/pagination.go:35-40 | Filling the buffer in place and encoding it gives the cursor's text |
| History.TransactionHistoryPage | internal/transfer/store/transactions.go:47-87 | The rows returned are the account's and before the cursor, in descending (created_at, id), at most the limit, and none is left out that is newer than one shown or would still fit |
| History.TakenIsFirst | internal/transfer/store/transactions.go:52-59 | Sorting everything that matches and cutting it off at the limit gives such a page |
| History.ListTransactionHistory | internal/transfer/service/history.go:22-48 | An error if and only if the cursor is neither empty nor 22 symbols apart from line breaks. Otherwise the first rows from there on, more if and only if a wanted row is missing, and then a cursor that decodes to the last row shown |
| History.MicrosIsFloor | internal/transfer/store/transactions.go:57-59 | The bound instant is the cursor's, cut to whole microseconds |
| History.SelectionDescends | migrations/20260807220004_create_transactions.up.sql:15 | With a unique primary key the query's order is strict: newest first, ids breaking ties |
| History.MatchingMembers | internal/transfer/store/transactions.go:53-59 | The query matches exactly the account's rows before the cursor |
| History.DescendingUnique | internal/transfer/store/transactions.go:54 | A strictly sorted list is determined by its rows |
| Walks.PagingUnderWrites | internal/transfer/service/history.go:30-45 | While rows are only added, a walk shows no row twice, in strictly descending order, only the account's rows, and a completed walk has shown every row that was there when it began |
| Walks.PagingDuringSubmissions | internal/transfer/service/history.go:22-48 | The same, all four parts, for a walk whose pages are read at any points of any run of the protocol |
| Walks.PagingIsSorting | internal/transfer/service/history.go:36-47 | On a fixed table every choice of page sizes completes within one page per row, and shows exactly the account's rows, sorted |
| Walks.FixedWalk | internal/transfer/service/history.go:36-47 | From any cursor, the pages concatenate to as much of the sorted history as their limits add up to |
| Walks.HasMoreIsExact | internal/transfer/service/history.go:36 | HasMore if and only if some row of the account is older than everything shown |

## Left out

- Tracing, metrics other than the balance-violation counter, logging, configuration and shutdown: no effect on the tables.
- SQL text, query builders and the COPY wire format: each store call is one statement on the tables.
- HTTP routing, JSON, and validator tags other than `amount`. Requests are non-empty lists of transfers, as the validator demands, only where a statement says so.
- SHA-256: the body hash is an arbitrary function, so two bodies may share a key.
- Foreign-key share locks on the account row, and Postgres's own deadlock detector: accounts are never deleted, and a transaction holds at most one advisory and one row lock.
- Partitioning, migrations and index speed: only the CHECK and UNIQUE constraints and the primary keys matter.
- Account creation, seeding and load-test top-ups: the accounts are fixed during a run, start with any non-negative balances, and the ledger and the batches start empty.
- Exhausted sequences: `Progress.NoDeadlock` assumes that unused ids can still be drawn.
- Fairness and time-outs: that an attempt can step is stated, not that a scheduler picks it.
- Submission.Connection.Atomic: models the transaction with the one callback it is used with here, and a rollback as always effective; Go's deferred closure is a method, and a mishap is one of an error or a panic per statement.
- Submission.Connection.InsertBatch: the id is an arbitrary number here; that ids are unused is stated for the step machine, which keeps the sequences (`Invariant.CommitIsLegal`).
- Submission.Connection.InsertTransactions: row ids are arbitrary here as well, for the same reason.
- History.ListTransactionHistory: database errors of the read, and limits that the handler refuses before the call (it accepts 1 to 100), are not modelled; items keep the account and batch columns that the query does not select.
- Row timestamps outside int64 nanoseconds. Rows carry whole microseconds, as the column does; a cursor may carry any nanoseconds, of which the driver passes on the microseconds.
- Mocks, the load-test generator and dashboards.
