# BankMonitoring: the transfer protocol, modelled and proved

BankMonitoring moves money between accounts. One call of `transfer.Service.Create` runs in one
PostgreSQL transaction: it locks both account rows in id order, checks ownership, currency and
balance on the locked copies, inserts the transfer under the unique (user, idempotency key), and for
a new completed transfer saves both balances and appends two ledger rows, then commits. The service
promises no double spend, exactly-once execution under retries, no deadlock and a ledger that
reconciles. This project states those promises for every run and proves them.

## How the model is built

* `Domain.dfy`, `Validation.dfy`: the records, `CreateTransfer.Validate`, and the schema's CHECKs.
  Amounts are a 64-bit subset type, so every stored value carries a proof that nothing wrapped.
  `Utf8.dfy` is the encoding behind Go's `len` and string order. What the tests of the code mean is
  stated apart from them, on characters, bytes, rows and UUIDs.
* `Transfers.dfy`: `CreateAlone`, one call of Create as one indivisible step on the whole database,
  and the invariant of the database. It is the reference for both layers below.
* Sequential layer, imperative: `AccountEntity.dfy` (class `Account`), `LockPlan.dfy` (sort and
  compact), `Repository.dfy` (class `Tx`: the repositories on a working copy), `Service.dfy` (class
  `Store`: Create with a fault injected at any statement, at the commit, or after it). `Store.Create`
  is proved to refine `CreateAlone`.
* Concurrent layer, a transition system: `Protocol.dfy` has the committed tables, the connection
  pool, the identity counter and any number of transactions, each with a phase, the rows it read
  under lock and its pending writes. Events are single statements: take a connection, lock the next
  row, check, insert, look up, save, append one ledger row, commit (with or without the
  acknowledgement arriving), and abort at any point. `Invariant.dfy` is the inductive invariant,
  `Refinement.dfy` and `Safety.dfy` the proof that every run is a serial history of `CreateAlone`,
  `Runs.dfy` what lasts over a run, `Progress.dfy` deadlock freedom and termination.
* `Ledger.dfy`, `Sums.dfy`, `History.dfy`: properties of serial histories. `Guarantees.dfy` carries
  them to every run of the concurrent layer. `Http.dfy` is the status mapping, `Responses.dfy` says
  which call gets which code in every run.

The database is taken at its documented rules: a row read FOR UPDATE is its latest committed version
and stays locked to the end of the transaction (sections 13.2.1 and 13.3.2 of the PostgreSQL 17
documentation), writes become visible at commit, an INSERT of a key waits for an open transaction
that inserted it, identity ids are drawn one per row and never reused, and `gen_random_uuid()` does
not repeat. Rows are locked in the order ORDER BY id gives; the proofs hold for any total order of
the existing ids, so for any collation. Foreign-key checks lock rows the transaction already holds,
so they add no waiting. A text or JSON value with the character U+0000 is refused as the statement's
parameters are received, before any row is locked and before a conflict is decided (sections 8.3 and
8.14 of that documentation). Accounts, owners, currencies and opening balances are fixed when a run
starts, and the ids and owners stored then are free of U+0000, being text columns.

What the code does and its documentation does not say:

* A retry is not always answered with the stored transfer. `Credit` runs before the key is looked up,
  so a retry answers with the overflow error exactly when the source could pay again and the
  destination would pass the 64-bit maximum (`RetryCanOverflow` is such a pair of calls,
  `RetryIsStable` the exact condition).
* Not every 500 is an infrastructure failure. `Validate` accepts U+0000 and PostgreSQL does not, so a
  valid call that names an account with U+0000, or that the rows accept under a key that parses with
  U+0000 in the description, is answered 500 on a healthy database, retries included.
  `DescriptionCanFail` and `AccountIdCanFail` are such calls, `TextFailsExactly` and `ServerErrors` the
  exact condition. Nothing is changed by such a call.
* A missing source and a foreign one look alike, but the destination can be probed: the owner of any
  account learns whether another id exists, whether it has a currency, and whether an amount they
  hold would overflow it. `AnswersRevealOnly` shows that nothing more leaks: no foreign account other
  than the destination, and no more of that than those three bits.
* The description limit says characters; the code counts bytes.
* The repository README credits the sorting of the ids for the lock order; what fixes it is ORDER BY.

## Model

| member | source | states |
|---|---|---|
| `Text.TrimEmpty` | internal/domain/entities/transfer.go:27-33 | trimming leaves nothing exactly when every character is in the cut set |
| `Text.TrimSpaceImpliesBtrim` | internal/repository/migrations/000001_create_transfers.up.sql:5-8 | text that survives Go's TrimSpace survives SQL's btrim, so the non-blank CHECKs hold |
| `Utf8.CharIsShortest` | internal/domain/entities/transfer.go:35 | the encoding of a character is the shortest byte sequence of UTF-8 form that spells its number, and the only one that short |
| `Utf8.LengthIsEncoded` | internal/domain/entities/transfer.go:35 | the byte count Validate uses is the length of the UTF-8 encoding |
| `Utf8.ByteLengthAscii` | internal/domain/entities/transfer.go:33-35 | bytes and characters agree in number exactly for text below U+0080; at most four bytes a character |
| `Utf8.ByteLengthAppend` | internal/domain/entities/transfer.go:35 | byte counts add up over concatenation |
| `Utf8.EncodeInjective` | internal/domain/entities/transfer.go:29 | different strings have different bytes |
| `Validation.ValidateMeaning` | internal/domain/entities/transfer.go:25-39 | Validate accepts exactly the requests with two different accounts that hold a character outside the White_Space list, a positive amount, three letters A to Z and at most 255 bytes of UTF-8 description; otherwise it names the first of these that fails |
| `Validation.TrimSpaceMeaning` | internal/domain/entities/transfer.go:27 | TrimSpace leaves nothing exactly when every character is one of the 25 with property White_Space |
| `Validation.CurrencyTestsAgree` | internal/domain/entities/transfer.go:33 | the byte-length and trim test agrees with the SQL pattern of three capital letters |
| `Validation.ChecksMeaning` | internal/repository/migrations/000001_create_transfers.up.sql:5-17 | the row CHECKs in terms of characters: user and accounts not all blanks, positive amount, three letters A to Z, two accounts |
| `Validation.ValidCallPassesChecks` | internal/repository/migrations/000001_create_transfers.up.sql:5-17 | a call that passes the Go checks yields a row that passes every CHECK of the transfers table |
| `AccountEntity.Account.Debit` | internal/domain/entities/account.go:28-37 | the amount leaves the balance, or the balance stays and the error says why; never below zero, never wrapped |
| `AccountEntity.Account.Credit` | internal/domain/entities/account.go:39-48 | the amount enters the balance, or overflow is reported exactly when the true sum exceeds the 64-bit maximum |
| `LockPlan.Sort` | internal/repository/account.go:29-30 | sorted, same elements with the same multiplicity |
| `LockPlan.Compact` | internal/repository/account.go:31 | strictly ascending, same elements |
| `LockPlan.AscendingUnique` | internal/repository/account.go:29-36 | the lock plan depends only on which accounts are named, not on their order |
| `LockPlan.LessMeaning` | internal/repository/account.go:30 | the order is: proper prefix, or smaller character at the first difference |
| `LockPlan.LessIsByteOrder` | internal/repository/account.go:30 | that order of characters is the order of the UTF-8 bytes, which Go compares |
| `Repository.Tx.LockForTransfer` | internal/repository/account.go:28-49 | exactly the existing requested rows, as pairwise distinct objects holding the row values, locked in ascending order; an id with U+0000 fails the statement with no row locked |
| `Repository.Tx.UpdateBalances` | internal/repository/account.go:57-60 | the bulk UPDATE touches exactly the named rows; it affects as many rows as ids exactly when they are distinct and present |
| `Repository.Tx.SaveBalances` | internal/repository/account.go:51-68 | succeeds exactly for distinct, stored, non-negative accounts, each row then holding its own account's balance; a missing or repeated id is an error |
| `Repository.Tx.CreateIdempotent` | internal/repository/transfer.go:35-68 | new key inserts a record with exactly the request's fields, the drawn id and the parsed UUID, stored key replays or conflicts, bad key, text with U+0000 or bad row is refused, a failed INSERT or a failed SELECT after a conflict is an infrastructure error; the table changes only in the first case |
| `Repository.Tx.Append` | internal/repository/ledger.go:17-33 | all entries in order when every CHECK and foreign key holds, otherwise none |
| `Service.Store.Commit` | internal/repository/db.go:35-39 | the working copy becomes the store, or the store stays as it was; an error is reported in the second case, and in the first when the acknowledgement is lost |
| `Service.Store.DraftOn` | internal/service/transfer/service.go:61-86 | the checks, Debit and Credit on the locked objects give the decision the reference gives on their rows, and leave the balances to save in them |
| `Service.Store.WriteBooks` | internal/service/transfer/service.go:97-103 | both balances and both entries are written; no constraint or row count stops it |
| `Service.Store.Create` | internal/service/transfer/service.go:44-109 | for a fault at any statement or commit: result and store are those of the indivisible step, or an infrastructure error is returned and nothing changed, or, when the lost thing is the acknowledgement, the store is that of the step; without a fault text fails it exactly under the stated condition; the database invariant is kept |
| `Service.GetIsStable` | internal/repository/transfer.go:70-84 | what Get has shown a user it keeps showing after any later call |
| `Transfers.OnlyCreatesChange` | internal/service/transfer/service.go:88-96 | a call changes tables exactly when it is valid, accepted and its key unused, and only then says created |
| `Transfers.RefusalReasons` | internal/service/transfer/service.go:45-86 | for every call, well-formed or not, each refusal on the rows exactly when it applies: forbidden if and only if the user is blank or the call is valid and the caller does not own an existing source, so a missing source and a foreign one look alike; then unknown destination, currency mismatch, overflow |
| `Transfers.AnswerReasons` | internal/repository/transfer.go:35-68 | for every call the remaining answers exactly when they apply: invalid if and only if the request breaks a rule or an accepted call has no UUID or the nil one; text with U+0000, before the stored key is looked at; another request under the same user and UUID; the transfer stored there; a new one otherwise |
| `Transfers.CreatedIsTheRequest` | internal/repository/transfer.go:45-54 | a created transfer has the request's accounts, amount, currency and description, the drawn id and the call's UUID, completes if and only if the source can pay, and is stored under the call's user and UUID and nowhere else |
| `Transfers.TextFailsExactly` | internal/repository/transfer.go:45-58 | on a healthy database a call fails over its text if and only if it is valid and an account id holds U+0000, or the rows accept it, its key parses and its description holds U+0000 |
| `Transfers.AnswersRevealOnly` | internal/service/transfer/service.go:59-76 | two databases that agree on the caller's own accounts, on the transfer under the caller's user and UUID and, for an owned source, on the destination's existence, currency match and overflow give the same answer |
| `Transfers.AcceptedIsSound` | internal/service/transfer/service.go:77-86 | an accepted draft completes exactly when the source can pay, with the right two balances, and otherwise fails for insufficient funds |
| `Transfers.CreateKeepsDatabaseOk` | internal/service/transfer/service.go:54-104 | Create keeps ownership and range of accounts, soundness and unique ids of transfers, running balances, and the pairing of transfers with entries |
| `Transfers.HistoryIsImmutable` | internal/repository/transfer.go:45-50 | stored transfers are never altered or removed; the ledger only grows |
| `Transfers.RetryIsStable` | internal/repository/transfer.go:113-118 | a stored key changes nothing; the same request gets the stored transfer if and only if the credit would not overflow, and the overflow error otherwise; another request is refused |
| `History.ReplayedOk` | internal/service/transfer/service.go:32-43 | the database invariant after every serial history |
| `History.CreatedOnce` | internal/repository/transfer.go:31-34 | at most one call per user and UUID creates, in every history |
| `History.RepliesNameTheStoredTransfer` | internal/repository/transfer.go:60-67 | every reply carries the transfer stored under its key, with the request it was stored for |
| `History.LaterCallsAreRetries` | internal/service/transfer/service.go:83-96 | what every later call with an answered key gets, with the exact overflow exception |
| `History.RetriesHaveAnOrigin` | internal/repository/transfer.go:86-92 | a conflict or a replay is answered only after an earlier call of the same user with the same UUID created the transfer, with another request for a conflict, the same for a replay |
| `History.HistoryConserves` | internal/domain/entities/account.go:28-48 | the sum of balances per currency is the same after every history |
| `History.DrainBound` | test/integration/transfers_test.go:109-132 | of n stored transfers of one amount out of an account, exactly min(n, opening div amount) complete |
| `Invariant.LockInv` | internal/repository/account.go:35-36 | locking and reading the next row keeps the invariant: copies equal committed rows, no row held twice |
| `Invariant.CheckInv` | internal/service/transfer/service.go:61-86 | deciding on the copies keeps the invariant |
| `Invariant.InsertInv` | internal/repository/transfer.go:45-58 | the INSERT keeps the invariant, in particular one holder per key and no CHECK or foreign key violated |
| `Invariant.InsertPasses` | internal/repository/migrations/000003_add_account_balances.up.sql:15-18 | under full locks the inserted row passes every CHECK and its foreign keys |
| `Invariant.LookupInv` | internal/repository/transfer.go:60-67 | the row that caused a conflict is found by the following SELECT |
| `Invariant.SaveInv` | internal/repository/account.go:51-68 | under full locks saving both balances succeeds and keeps the invariant |
| `Invariant.AppendInv` | internal/repository/migrations/000004_create_ledger_entries.up.sql:6-13 | each ledger row passes its CHECKs and both foreign keys, to accounts and to the transaction's own pending transfer, and gets an id above every committed entry of its account |
| `Invariant.CommitInv` | internal/repository/db.go:35-39 | one transaction's commit leaves every other open transaction's copies, key, ids and entries sound |
| `Refinement.ScanPair` | internal/repository/ledger.go:26-28 | two ledger rows drawn above their accounts' entries are read last in id order, on their two accounts only |
| `Refinement.CommitRefines` | internal/service/transfer/service.go:88-104 | committing publishes exactly the indivisible step, with its answer |
| `Safety.SafeStep` | internal/service/transfer/service.go:54-104 | every event keeps the invariant and extends the serial history by the calls it serves |
| `Safety.EveryRunIsSafe` | internal/service/transfer/service.go:32-43 | invariant and refinement for every run from an opening state |
| `Guarantees.Serializable` | internal/service/transfer/service.go:44-109 | tables, per-account ledgers in id order and every answer of a run are those of serving calls of that run alone in the order they ended, each at most once |
| `Guarantees.RealTimeOrder` | internal/repository/db.go:32-39 | a call answered before another was submitted precedes it in the serial order |
| `Guarantees.NoLostUpdate` | internal/repository/account.go:33-48 | rows read under lock stay equal to the committed rows until the transaction ends, and no two transactions hold one row |
| `Guarantees.ExactlyOnce` | internal/repository/transfer.go:31-34 | in every run, lost acknowledgements included, at most one call per (user, key) creates |
| `Guarantees.AnswersAreCommitted` | internal/service/transfer/service.go:105-108 | an answered transfer is committed under the caller's key with the caller's request |
| `Guarantees.RunningBalance` | internal/service/transfer/service.go:100-103 | each account's entries in id order are a running balance from opening to present, so balance = opening + sum of entries |
| `Guarantees.BalancesInRange` | internal/repository/migrations/000003_add_account_balances.up.sql:6-11 | balances stay between 0 and the 64-bit maximum; owners and currencies never change |
| `Guarantees.Conserved` | test/integration/transfers_test.go:134-171 | money per currency is conserved in every run |
| `Guarantees.LedgerMatchesTransfers` | internal/repository/migrations/000004_create_ledger_entries.up.sql:3-13 | a completed transfer has one debit on its source and one credit on its destination, any other transfer no entry |
| `Guarantees.NoOrphanEntries` | test/integration/transfers_test.go:295-322 | every ledger row is a side of a stored completed transfer; debits are on the requesting user's account |
| `Guarantees.PlanIsTheLockOrder` | internal/repository/account.go:33-36 | when rows are ordered by the bytes of their ids, the protocol's lock order is the list LockForTransfer builds |
| `Guarantees.PlanIgnoresDirection` | internal/repository/account.go:33-36 | under any order of the rows, A to B and B to A lock the same rows in the same ascending order |
| `Guarantees.ResponseHistory` | internal/httpapi/transfer.go:60-80 | answers for one key carry one transfer and are all 422, or 200 with at most one 201 |
| `Guarantees.ConstraintsNeverFire` | internal/httpapi/transfer.go:43-59 | no CHECK, foreign key, row count or amount error ever reaches a caller; a 500 is an infrastructure failure or text with U+0000 |
| `Guarantees.ServerErrors` | internal/httpapi/transfer.go:56-59 | in every run a call that was aborted or not acknowledged is answered 500, and any other if and only if its text fails on the accounts at its place in the serial order |
| `Guarantees.DescriptionCanFail` | internal/repository/transfer.go:45-58 | any call answered with a transfer is, with the description replaced by one of valid length that holds U+0000, still valid and answered 500, changing nothing |
| `Guarantees.AccountIdCanFail` | internal/repository/account.go:35-38 | a concrete valid call whose source id holds U+0000 and which fails on every database |
| `Guarantees.StoredTransfersAreFinal` | internal/service/transfer/service.go:73-82 | stored transfers never change, are completed or failed, failed exactly for insufficient funds, and Get shows them to their user |
| `Guarantees.RetryInReachableState` | internal/service/transfer/service.go:83-96 | retry stability with its exact exception in every reachable state |
| `Guarantees.RetriesInRun` | test/integration/transfers_test.go:219-243 | the answers of all later calls with an answered key, in every run |
| `Guarantees.OnlyRetriesAreReplayed` | internal/repository/transfer.go:60-67 | the same in every run: no conflict or replay without an earlier creating call of that user and UUID |
| `Guarantees.StoredMatchesRequest` | internal/repository/transfer.go:45-54 | in every run each stored transfer carries its request's fields and the UUID it is stored under |
| `Guarantees.RetryCanOverflow` | internal/service/transfer/service.go:83-88 | a concrete retry that is refused with the overflow error |
| `Guarantees.DrainIsExact` | test/integration/transfers_test.go:112-132 | the drain count and the final balance, in every run |
| `Guarantees.OnlyCommitsPublish` | internal/domain/repository/tx.go:12-16 | no event but a commit changes a table |
| `Guarantees.CommitPublishesAll` | internal/service/transfer/service.go:88-104 | a commit publishes record, balances and entries together, as the indivisible step does |
| `Guarantees.AbortedIsNeverServed` | internal/repository/db.go:35-39 | an aborted transaction answers nothing and moves nothing, then or later |
| `Runs.UnavailableExactlyOnFaults` | internal/repository/db.go:35-39 | in every run a call ends with an infrastructure error if and only if it was aborted or its commit was not acknowledged |
| `Responses.ResponseAlone` | internal/httpapi/transfer.go:43-80 | served alone, the status code is 201, 200, 422, 403, 400, 409 or 500 exactly for the outcomes the handler gives it to, and exactly when the request, the rows and the transfer stored under the user and UUID call for it |
| `Responses.EveryResponse` | internal/httpapi/transfer.go:43-80 | the same in every run, on the rows at the call's place in the serial order; a faulted call is answered 500 |
| `Responses.EveryAnswer` | internal/service/transfer/service.go:45-96 | in every run each unfaulted call is refused, replayed or created exactly for the reasons its place in the serial order gives, invalid and forbidden calls included |
| `Progress.WaitsRise` | internal/repository/account.go:33-36 | whoever blocks a transaction waits for nothing or for something of higher rank: connection, rows by id, key |
| `Progress.NoDeadlock` | internal/domain/repository/account.go:10-13 | the wait-for graph over rows, keys and connections has no cycle |
| `Progress.SomeoneCanStep` | internal/service/transfer/service.go:88-103 | with any pool of at least one connection, some unfinished call can always take a step towards its answer |
| `Progress.RunsAreBounded` | internal/service/transfer/service.go:54-104 | without new calls every run ends within a bound fixed by its start |
| `Progress.EveryoneCanFinish` | internal/repository/db.go:35-39 | from every reachable state the run can go on, without abort or lost commit, until every call has ended, and every call still open then gets an answer that is not an infrastructure error |
| `Progress.MaximalRunsAreDone` | internal/service/transfer/service.go:54-104 | a run that no useful step can extend has ended every call, with an infrastructure error exactly for those aborted or not acknowledged |

## Left out

- Authentication, permissions and login: thin use of libraries; the user id is an input.
- HTTP plumbing, JSON decoding, the replay header, logging, timeouts, panic recovery: I/O; a timeout is an abort event.
- Parsing UUID text: library code; a call carries what the scan of its key text gave, or that it failed.
- Get for a user id that holds U+0000: its SELECT fails; the model has it find nothing, as no such user owns a row.
- JSON storage of the original request: taken to decode to the request that was stored.
- SQL text, pgx and PostgreSQL internals: represented by the rules listed above.
- Timestamps, health checks, demo seed, configuration, load test, out-of-band balance edits, account listing: no hard property.
- Nesting a body in WithinTx as a function value: the class layer begins a working copy and commits it in line.
