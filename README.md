# A verified model of the go-api transfer engine

This project is a Dafny model of three parts of a small Go banking API. It
proves properties about each of them.

- **The money-transfer transaction** (`db/models/store.go`). `TransferTx` runs
  four steps inside one database transaction, through `execTx`:
  1. write a transfer row;
  2. write a debit entry on the source account;
  3. write a credit entry on the destination account;
  4. add the amounts to both balances through `updateBalance`, always on the
     account with the smaller id first.

  The database is the class `Db.Store`. Its tables are fields: `accounts` is a
  map from id to row, and `entries` and `transfers` are append-only sequences.
  An open transaction is a snapshot of the tables. A rollback restores the
  snapshot and a commit discards it. `updateLog` records every balance-update
  call in the order it was issued, and so the order row locks are requested
  in. Each query and driver call may fail for reasons the model cannot see,
  such as a lost connection or a cancelled context. The model expresses this
  as a nondeterministic choice. The failures it can see (a missing account, a
  dangling reference, a balance leaving the `bigint` range) are deterministic.
  The effect of a committed transfer is stated once, as pure functions in
  module `Ledger` (`ApplyTransfer`, `TransferResult`). The methods are proved
  to have exactly that effect, and the properties the code promises are
  proved as lemmas about those functions:
  - exact post-balances;
  - conservation of money;
  - the ledger invariant (balance = opening balance + entries), which a
    transfer keeps whenever it held; the transfer does not require it;
  - the lock order;
  - the outcome of the repository's two concurrency tests. `Store.TransferEach`
    runs the tests' transfers one `TransferTx` call after another. It is
    proved to leave the accounts exactly where `RunTransfers` of the committed
    transfers leaves them, and the lemmas about `RunTransfers` give the
    balances the tests check.
- **The bearer-token guard** (`api/middleware.go`). `Authorize` is the pure
  decision taken on the `authorization` header: abort with 401 and a message,
  or pass on the verifier's payload. `AuthMiddleware` carries out that
  decision's effects on a request context. It is proved to produce exactly the
  effects `Authorize` decides. `strings.Fields` is modelled in full, with Go's
  set of space runes.
- **Currency membership** (`util/currency.go`). The five supported codes, and
  the scan that tests membership.

Two Go facts are modelled explicitly, because both show through the
transfer's contract:
- Go's `int64` negation is two's complement, so `-x` of the minimum is the
  minimum itself (`Ledger.Neg64`).
- A failed unit of work is always reported together with the rollback's
  outcome. The test after `tx.Rollback()` checks the work's error rather than
  the rollback's, so it always holds, and the plain `"tx error: %v"` form is
  never returned. `Error.TxErrorOnly` is that form, and the contracts of
  `FinishTx` and `TransferTx` show that the model never produces it.

Files:
- `wrappers.dfy`: `Option`.
- `currency.dfy`: module `Currency`.
- `middleware.dfy`: module `Middleware`.
- `ledger.dfy`: module `Ledger`. It holds the rows, the errors, the pure
  effect of a transfer, and the lemmas about them.
- `store.dfy`: module `Db`, the `Store` class.

## Model

| member | source | states |
|---|---|---|
| Currency.ScanFor | util/currency.go:15-22 | the early-return scan answers true exactly when the currency occurs in the list |
| Currency.IsSupportedCurrency | util/currency.go:12-22 | a currency is supported exactly when it is in `supportedCurrencies` |
| Currency.SupportedAreTheFiveCodes | util/currency.go:4-22 | supported if and only if the code is one of USD, CAD, GBP, EUR, AUD |
| Currency.MatchingIsExact | util/currency.go:16-17 | matching is exact and case-sensitive: "usd", "Usd", "", "USD " and "US" are all rejected |
| Currency.FiveDistinctCodes | util/currency.go:4-12 | the list has five pairwise distinct entries, each three upper-case letters |
| Currency.EveryIndexIsSupported | util/random.go:35-38 | every index below the list's length gives a supported code, so `RandomCurrency` always returns a valid one |
| Middleware.Fields | api/middleware.go:27 | `strings.Fields`: every field is a non-empty run of non-space runes, and the fields together hold exactly the header's non-space runes, in order |
| Middleware.IsSpace | api/middleware.go:27 | the runes `strings.Fields` splits on, as Go's `unicode.IsSpace` defines them: tab, newline, vertical tab, form feed, carriage return, space, U+0085, U+00A0, U+1680, U+2000 to U+200A, U+2028, U+2029, U+202F, U+205F and U+3000 |
| Middleware.LowerChar | api/middleware.go:33 | one rune of `strings.ToLower`: an ASCII upper-case letter becomes its lower-case letter, any other rune is kept |
| Middleware.ToLower | api/middleware.go:33 | `strings.ToLower` rune by rune: same length, each rune lowered by `LowerChar` |
| Middleware.FieldsOfJoin | api/middleware.go:27 | a space rune separates fields: the fields of `a c b` are those of `a` followed by those of `b` |
| Middleware.ExtractToken | api/middleware.go:21-39 | a token is always the second of at least two fields; a rejection carries one of the three header messages; the "not provided" message is given exactly when the header is empty |
| Middleware.Authorize | api/middleware.go:21-46 | the whole decision: the header checks of `ExtractToken`, then the verifier on the token; a rejection at either stage is `Abort401` with that stage's message, and success is `Next` with the verifier's payload |
| Middleware.EmptyHeaderRejected | api/middleware.go:22-26 | an empty header aborts with "authorization header is not provided", whatever the verifier would say |
| Middleware.TooFewFieldsRejected | api/middleware.go:27-31 | a non-empty header with fewer than two fields aborts as malformed, whatever the verifier would say |
| Middleware.MissingSchemeRejected | api/middleware_test.go:48-55 | a header of a space then a token (the empty scheme the test sends) aborts as malformed |
| Middleware.BearerIsCaseInsensitive | api/middleware.go:33-38 | the lower-cased scheme equals "bearer" exactly when it has six runes, each that letter of "bearer" in either case |
| Middleware.OnlySecondFieldIsVerified | api/middleware.go:39-40 | two verifiers that agree on the second field give the same decision |
| Middleware.SchemeAndTokenDecide | api/middleware.go:27-46 | for `scheme <space> token [tail]`, the decision depends only on the scheme, compared case-insensitively, and on the verifier's answer for `token`; the tail is ignored |
| Middleware.NextOnlyIfAllChecksPass | api/middleware.go:22-46 | the request goes on if and only if the header is non-empty, has two fields, the scheme is bearer and the verifier accepts the second field; the payload passed on is the verifier's |
| Middleware.Context.GetHeader | api/middleware.go:21 | `ctx.GetHeader`: the header's value, or the empty string when the request has no such header |
| Middleware.Context.AbortWithStatusJSON | api/middleware.go:24 | `ctx.AbortWithStatusJSON(code, {"error": message})`: sets the status and the body and marks the request aborted; headers, keys and the next-handler flag are unchanged |
| Middleware.Context.Set | api/middleware.go:45 | `ctx.Set(key, value)`: stores the value under the key; nothing else changes |
| Middleware.Context.Next | api/middleware.go:46 | `ctx.Next()`: records that the next handler ran; nothing else changes |
| Middleware.AuthMiddleware | api/middleware.go:19-48 | the context's effects are exactly those `Authorize` decides: abort with 401 and `{"error": message}`, without calling the next handler; or store the payload under `authorization_payload` and call the next handler, leaving the status and body as they were |
| Ledger.Neg64 | db/models/store.go:72 | Go's `-amount` on `int64`: the true negation except at the minimum, with `x + -x` always a multiple of 2^64 |
| Ledger.Updated | db/models/store.go:105-108 | a balance update adds the amount to that one row's balance; no other column, row or key changes |
| Ledger.CanUpdate | db/models/store.go:105-108 | when `UpdateAccountBalance` succeeds: the row exists and its new balance stays in the `bigint` range |
| Ledger.FirstUpdate | db/models/store.go:87-93 | the update issued first: on the source with `-amount` when its id is the smaller, otherwise on the destination with `amount` |
| Ledger.SecondUpdate | db/models/store.go:87-93 | the update issued second: the other account with its own amount |
| Ledger.TransferEntries | db/models/store.go:70-82 | the two entries of a transfer: the debit of `-amount` on the source, then the credit of `amount` on the destination, with consecutive ids |
| Ledger.ApplyTransfer | db/models/store.go:61-98 | the database after a committed transfer: both balance updates applied, the two entries and the transfer row appended with the given ids |
| Ledger.TransferResult | db/models/store.go:61-98 | the `TransferTxResult` a committed transfer fills: the transfer row, the two entries, and on each side the row returned by the update issued on that account |
| Ledger.LowerIdFirst | db/models/store.go:87-93 | the first update targets the smaller account id and the second the larger, and the reversed transfer updates in the same order |
| Ledger.UpdatesCarryTheTransfer | db/models/store.go:87-93 | the two updates target exactly the source and the destination; the source gets the negated amount and the destination the amount, in either order |
| Ledger.TransferBalances | db/models/store.go:87-118 | after a transfer between distinct accounts, the source is debited and the destination credited by the amount; every other account is unchanged; no row's other columns change; a self-transfer leaves the accounts as they were |
| Ledger.TransferRows | db/models/store.go:64-83 | the transfer row records the input's accounts and amount; exactly two entries are appended, the debit of `-amount` (Go's negation) on the source and then the credit of the amount on the destination |
| Ledger.ResultMatchesStoredRows | db/models/store.go:61-96 | the result's transfer and entries are the rows stored; `FromAccount` is the source's row and `ToAccount` the destination's, whichever was updated first; between distinct accounts both are the final rows |
| Ledger.SelfTransferReturnsIntermediateRow | db/models/store.go:90-93 | in a self-transfer the credit is applied first, so `ToAccount` holds the intermediate row, which is off by the amount |
| Ledger.SumAfterUpdate | db/models/store.go:105-108 | one balance update changes the total balance by exactly its amount |
| Ledger.TransferConservesMoney | db/models/store.go:87-93 | a transfer leaves the total balance unchanged unless the amount is the minimum `int64`; in general the total moves by `amount + -amount` |
| Ledger.MinInt64TransferDebitsBoth | db/models/store.go:72-92 | a transfer of the minimum `int64` between two empty accounts goes through, debits both accounts, and removes 2^64 units (a concrete case) |
| Ledger.TransferKeepsLedgerBalanced | db/models/store.go:64-96 | a committed transfer keeps every balance equal to its opening balance plus the sum of its entries |
| Ledger.TransferKeepsWellFormed | db/models/store.go:64-96 | a committed transfer keeps the row invariants: rows keyed by id, supported currencies, entries and transfers referring to existing accounts, ids increasing and below the next id |
| Ledger.TransferKeepsAccountRows | db/models/store.go:87-96 | the balance updates keep every account under its id and in its currency, and no account appears or disappears |
| Ledger.RunAppend | db/models/store_test.go:20-34 | one more transfer that can go through, after a run that all went through, extends the run: the longer run all goes through and ends with that transfer's balances |
| Ledger.RunTransfers | db/models/store_test.go:20-34 | the accounts after a run of transfers taken in order, each applied in full when it can go through and skipped otherwise; the set of accounts is unchanged |
| Ledger.RunNetChange | db/models/store_test.go:20-82 | when every transfer of a run commits, each balance moves by exactly the net of the transfers touching it |
| Ledger.NetChangeBetween | db/models/store_test.go:94-102 | transfers of one amount between two accounts move each account by the amount times the difference of the two directions' counts |
| Ledger.OpposingTransfersCancel | db/models/store_test.go:94-126 | any interleaving of equally many transfers of one amount in each direction between two accounts, all committed, leaves both balances where they started |
| Ledger.RepeatedTransfers | db/models/store_test.go:74-82 | `n` transfers of a positive amount from A to B all go through while the final balances stay in range, leaving A at its start minus `n` times the amount and B at its start plus that |
| Db.Store.constructor | db/models/store.go:14-19 | a store over an existing database whose rows satisfy the row invariants (it may already hold entries and transfers), with no open transaction; each opening balance is the balance less the account's entries, so the ledger invariant holds |
| Db.Store.BeginTx | db/models/store.go:23-26 | either fails with a driver error, leaving no transaction open, or opens one whose snapshot is the current tables |
| Db.Store.Rollback | db/models/store.go:33 | the tables return to the snapshot and the transaction closes, whether or not the rollback reports an error |
| Db.Store.Commit | db/models/store.go:38 | keeps the tables or, on a driver error, leaves them as at the snapshot; either way the transaction closes |
| Db.Store.CreateTransfer | db/models/store.go:65 | appends a transfer row with the next id and the given accounts and amount; a missing account is a foreign-key violation; on any error, nothing changes and the zero row is returned |
| Db.Store.CreateEntry | db/models/store.go:70-82 | appends an entry row with the next id; a missing account is a foreign-key violation; on any error, nothing changes |
| Db.Store.UpdateAccountBalance | db/models/store.go:105-108 | on success adds the amount to the row's balance and returns the new row; a missing row is `ErrNoRows`; a balance out of `bigint` range is `OutOfRange`; every call is logged with its outcome |
| Db.Store.UpdateBalance | db/models/store.go:103-118 | the first update, then the second only if the first succeeded; the rows and balances returned are those of each call |
| Db.Store.FinishTx | db/models/store.go:32-38 | after a failed unit of work, the tables are restored and the error is always the combined form carrying the cause; otherwise the commit's outcome is returned |
| Db.Store.UpdateInLockOrder | db/models/store.go:85-96 | the updates are issued smaller id first; both succeed exactly when both calls are logged as succeeded; each result row goes to the side it belongs to |
| Db.Store.CreateTransferRows | db/models/store.go:64-83 | on success, appends the transfer row and then the debit and credit entries, with the next ids; a missing account is a foreign-key violation |
| Db.Store.TransferWork | db/models/store.go:61-98 | on success, the tables are exactly `ApplyTransfer` of the old ones and the result is `TransferResult`; a transfer that cannot go through always reports an error |
| Db.Store.TransferInTx | db/models/store.go:28-99 | from an open transaction: either commits exactly one transfer, or leaves the tables as they were; the row invariants hold after, and the ledger invariant does if it held before |
| Db.Store.TransferTx | db/models/store.go:58-100 | atomic: on success the tables are exactly one transfer further on and the result holds the rows written; on any error the tables are as before the call; the balance updates were issued smaller id first, the second only after the first succeeded; a failed update is always reported as a transaction error; the row invariants are kept, and the ledger invariant is kept whenever it held; no precondition on the balances |
| Db.Store.TransferEach | db/models/store_test.go:20-34 | `TransferTx` on each transfer in turn, as the tests issue them: whichever calls fail, the accounts end where running the committed transfers in order leaves them, and every committed transfer went through; when no call fails, that is the whole run |

## Left out

- Concurrency and row locks: the goroutines of the tests, and Postgres's exclusive row locks. The model states the sequential effect of each transaction and the order in which it requests the locks (`updateLog`). That order is what prevents a deadlock; the deadlock itself is not modelled. The concurrency tests are modelled as a sequence of `TransferTx` calls (`Store.TransferEach`), that is, one interleaving of their transactions.
- SQL, `database/sql` and the generated `Queries`: not shown in the repository. They are modelled as methods with the insert, increment and not-found semantics of their SQL. Failures the model cannot see are a nondeterministic choice.
- Timestamps (`CreatedAt`) are not modelled. Ids come from counters and are unbounded integers. As with database sequences, a rollback does not rewind the counters.
- Db.Store.CreateTransfer, Db.Store.CreateEntry: a failed insert does not use up an id in the model; a Postgres sequence may. Only the values of later ids differ, not their order or positivity.
- Db.Store.Commit: a failed commit is modelled as leaving the tables as at the snapshot. A commit whose outcome the client never learns (a connection lost mid-commit) is not modelled.
- The model has no account deletion (`DeleteAccount` is single-row CRUD outside the transfer engine); foreign keys are checked only when rows are inserted.
- Error causes: `TxError` keeps the cause as a value. Go formats it into the message with `%v` (db/models/store.go:34), so a caller can identify the cause of a `TransferTx` error only from the text; `errors.Is(err, sql.ErrNoRows)` is false for every such error.
- `execTx` takes the unit of work as a closure. Dafny methods are not first-class, so `execTx` appears as `BeginTx` and `FinishTx`, with `TransferWork` between them; `TransferInTx` and `TransferTx` compose them.
- The `context.Context` parameter: cancellation is one of the nondeterministic driver failures.
- Ledger.TransferConservesMoney: equality of the total is stated only for amounts other than the minimum `int64`, because Go's negation wraps there; for that amount the lemma gives the exact offset, and `MinInt64TransferDebitsBoth` shows a case.
- Ledger.TransferBalances: the debit is stated as `balance - amount` only for amounts other than the minimum `int64`; for that amount it is `balance + -amount` as Go computes it.
- Header bytes: the header is a sequence of Unicode scalar values, while Go's header is a byte string, and `len` counts bytes. A header with invalid UTF-8 cannot be expressed. Its invalid bytes are non-space runes that `strings.Fields` keeps in their field, so no decision would differ.
- `strings.ToLower` is modelled on ASCII letters only. No non-ASCII rune lower-cases to a letter of "bearer", so the comparison has the same outcome as with full Unicode case mapping.
- Header names: gin's `GetHeader` canonicalises the key; the model looks the exact key `authorization` up.
- The gin request context is modelled only by the parts the guard touches: headers, keys, status, body, the abort flag and whether the next handler ran. The JSON encoding of the error body is a map.
- `tokenmaker.VerifyToken` (PASETO) is a parameter of the guard, a function from the token to a payload or an error message. Token creation, passwords, configuration, random data generation and the HTTP handlers are not part of this model.
