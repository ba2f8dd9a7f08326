/**
 * The money-transfer transaction engine (db/models/store.go), part one: the
 * rows, the errors, and the effect of one transfer on the database as pure
 * functions, with the properties the engine promises proved about them.
 * Part two (store.dfy) is the Store object whose methods are proved to
 * have exactly these effects.
 */
module Ledger {
  import opened Wrappers
  import Currency

  // ---------------------------------------------------------------------
  // 64-bit integers
  // ---------------------------------------------------------------------

  const MinInt64: int := -0x8000_0000_0000_0000
  const MaxInt64: int := 0x7FFF_FFFF_FFFF_FFFF

  /** Go's `int64`, and the database's `bigint`. */
  type int64 = x: int | -0x8000_0000_0000_0000 <= x <= 0x7FFF_FFFF_FFFF_FFFF

  predicate InInt64(x: int)
  {
    MinInt64 <= x <= MaxInt64
  }

  /**
   * Go's unary minus on `int64`: two's-complement negation, which is the
   * true negation except at the minimum, where it wraps to itself.
   */
  function Neg64(x: int64): (r: int64)
    ensures (x + r) % 0x1_0000_0000_0000_0000 == 0
    ensures x != MinInt64 ==> x + r == 0
    ensures x == MinInt64 ==> x + r != 0
  {
    if x == MinInt64 then x else -x
  }

  // ---------------------------------------------------------------------
  // Rows and parameters
  // ---------------------------------------------------------------------

  /** An account row; `balance` in minor currency units. */
  datatype Account = Account(id: int, owner: string, balance: int64, currency: string)

  /** An entry row: one signed change to one account (negative is a debit). */
  datatype Entry = Entry(id: int, accountId: int, amount: int64)

  /** A transfer row: one movement of funds between two accounts. */
  datatype Transfer = Transfer(id: int, fromAccountId: int, toAccountId: int, amount: int64)

  /** Go's zero values, which a query returns beside an error. */
  const ZeroAccount: Account := Account(0, "", 0, "")
  const ZeroEntry: Entry := Entry(0, 0, 0)
  const ZeroTransfer: Transfer := Transfer(0, 0, 0, 0)

  datatype CreateTransferParams = CreateTransferParams(fromAccountId: int, toAccountId: int, amount: int64)
  datatype CreateEntryParams = CreateEntryParams(accountId: int, amount: int64)
  datatype UpdateAccountBalanceParams = UpdateAccountBalanceParams(amount: int64, id: int)

  /** `TransferTxParams`. */
  datatype TransferTxParams = TransferTxParams(fromAccountId: int, toAccountId: int, amount: int64)

  /** `TransferTxResult`: every row the transfer wrote, as the queries returned them. */
  datatype TransferTxResult = TransferTxResult(
    fromAccount: Account,
    toAccount: Account,
    transfer: Transfer,
    fromEntry: Entry,
    toEntry: Entry)

  const ZeroResult: TransferTxResult := TransferTxResult(ZeroAccount, ZeroAccount, ZeroTransfer, ZeroEntry, ZeroEntry)

  /** One issued `UpdateAccountBalance` call, and whether it succeeded. */
  datatype UpdateCall = UpdateCall(id: int, amount: int64, succeeded: bool)

  // ---------------------------------------------------------------------
  // Errors
  // ---------------------------------------------------------------------

  /** The errors the engine can return. */
  datatype Error =
    /** `sql.ErrNoRows`: an `UPDATE ... RETURNING` matched no account. */
    | ErrNoRows
    /** An inserted row refers to an account that does not exist. */
    | ForeignKeyViolation
    /** A balance left the `bigint` range. */
    | OutOfRange
    /** Any other failure of the driver or the database: connection, cancellation, serialization. */
    | DriverError(message: string)
    /** "tx error: <cause>, rollback error: <rollback>", `<nil>` when `rollback` is `None`. */
    | TxError(cause: Error, rollback: Option<Error>)
    /** "tx error: <cause>" alone: the form the coordinator never returns. */
    | TxErrorOnly(cause: Error)

  // ---------------------------------------------------------------------
  // The database as a value
  // ---------------------------------------------------------------------

  /** The tables the transfer touches. */
  datatype DbState = DbState(accounts: map<int, Account>, entries: seq<Entry>, transfers: seq<Transfer>)

  /** Every account row sits under its own id. */
  predicate KeyedById(accounts: map<int, Account>)
  {
    forall id :: id in accounts ==> accounts[id].id == id
  }

  /**
   * Row invariants: accounts are keyed by their id and held in a supported
   * currency; entries and transfers refer to existing accounts, their ids
   * are positive, strictly increasing and below the next id to be issued.
   */
  ghost predicate WellFormed(s: DbState, nextTransferId: int, nextEntryId: int)
  {
    && KeyedById(s.accounts)
    && (forall id :: id in s.accounts ==> Currency.IsSupportedCurrency(s.accounts[id].currency))
    && (forall i :: 0 <= i < |s.entries| ==>
          0 < s.entries[i].id < nextEntryId && s.entries[i].accountId in s.accounts)
    && (forall i, j :: 0 <= i < j < |s.entries| ==> s.entries[i].id < s.entries[j].id)
    && (forall i :: 0 <= i < |s.transfers| ==>
          && 0 < s.transfers[i].id < nextTransferId
          && s.transfers[i].fromAccountId in s.accounts
          && s.transfers[i].toAccountId in s.accounts)
    && (forall i, j :: 0 <= i < j < |s.transfers| ==> s.transfers[i].id < s.transfers[j].id)
  }

  /** The sum of the amounts of the entries on account `id`. */
  function EntryTotal(entries: seq<Entry>, id: int): (r: int)
  {
    if entries == [] then 0
    else
      var last := entries[|entries| - 1];
      EntryTotal(entries[..|entries| - 1], id) + (if last.accountId == id then last.amount else 0)
  }

  /**
   * The ledger invariant: each account's balance is its opening balance plus
   * the sum of its entries.
   */
  ghost predicate Balanced(s: DbState, opening: map<int, int>)
  {
    && opening.Keys == s.accounts.Keys
    && forall id :: id in s.accounts ==> s.accounts[id].balance == opening[id] + EntryTotal(s.entries, id)
  }

  /** The total money held by the accounts. */
  ghost function SumBalances(accounts: map<int, Account>): (r: int)
    decreases |accounts|
  {
    if accounts == map[] then 0
    else
      SomeKey(accounts);
      var id :| id in accounts;
      accounts[id].balance + SumBalances(accounts - {id})
  }

  lemma SomeKey(accounts: map<int, Account>)
    requires accounts != map[]
    ensures exists id :: id in accounts
  {
    assert (forall id :: id !in accounts) ==> accounts == map[];
  }

  // ---------------------------------------------------------------------
  // The balance update primitive and the transfer
  // ---------------------------------------------------------------------

  /** A successful `UpdateAccountBalance` needs the account and a result in range. */
  predicate CanUpdate(accounts: map<int, Account>, u: UpdateAccountBalanceParams)
  {
    u.id in accounts && InInt64(accounts[u.id].balance + u.amount)
  }

  /** `balance = balance + amount` on one row: an increment, not an overwrite. */
  function Updated(accounts: map<int, Account>, u: UpdateAccountBalanceParams): (r: map<int, Account>)
    requires CanUpdate(accounts, u)
    ensures r.Keys == accounts.Keys
    ensures r[u.id].balance == accounts[u.id].balance + u.amount
    ensures r[u.id].(balance := accounts[u.id].balance) == accounts[u.id]
    ensures forall id :: id in accounts && id != u.id ==> r[id] == accounts[id]
  {
    accounts[u.id := accounts[u.id].(balance := accounts[u.id].balance + u.amount)]
  }

  /** The update `TransferTx` issues first: on the account with the smaller id. */
  function FirstUpdate(arg: TransferTxParams): (r: UpdateAccountBalanceParams)
  {
    if arg.fromAccountId < arg.toAccountId
    then UpdateAccountBalanceParams(Neg64(arg.amount), arg.fromAccountId)
    else UpdateAccountBalanceParams(arg.amount, arg.toAccountId)
  }

  /** The update `TransferTx` issues second: on the other account. */
  function SecondUpdate(arg: TransferTxParams): (r: UpdateAccountBalanceParams)
  {
    if arg.fromAccountId < arg.toAccountId
    then UpdateAccountBalanceParams(arg.amount, arg.toAccountId)
    else UpdateAccountBalanceParams(Neg64(arg.amount), arg.fromAccountId)
  }

  /** Both updates succeed, the second on the balances the first left. */
  predicate CanTransfer(accounts: map<int, Account>, arg: TransferTxParams)
  {
    CanUpdate(accounts, FirstUpdate(arg)) && CanUpdate(Updated(accounts, FirstUpdate(arg)), SecondUpdate(arg))
  }

  /** The accounts after both updates. */
  function TransferredAccounts(accounts: map<int, Account>, arg: TransferTxParams): (r: map<int, Account>)
    requires CanTransfer(accounts, arg)
  {
    Updated(Updated(accounts, FirstUpdate(arg)), SecondUpdate(arg))
  }

  /** The debit entry then the credit entry, with consecutive ids from `entryId`. */
  function TransferEntries(arg: TransferTxParams, entryId: int): (r: seq<Entry>)
  {
    [Entry(entryId, arg.fromAccountId, Neg64(arg.amount)), Entry(entryId + 1, arg.toAccountId, arg.amount)]
  }

  /** The database after a committed transfer whose rows got the given ids. */
  function ApplyTransfer(s: DbState, arg: TransferTxParams, transferId: int, entryId: int): (r: DbState)
    requires CanTransfer(s.accounts, arg)
  {
    DbState(
      TransferredAccounts(s.accounts, arg),
      s.entries + TransferEntries(arg, entryId),
      s.transfers + [Transfer(transferId, arg.fromAccountId, arg.toAccountId, arg.amount)])
  }

  /**
   * The result `TransferTx` fills: each account field gets the row returned
   * by the update call issued on that account.
   */
  function TransferResult(accounts: map<int, Account>, arg: TransferTxParams, transferId: int, entryId: int): (r: TransferTxResult)
    requires CanTransfer(accounts, arg)
  {
    var middle := Updated(accounts, FirstUpdate(arg));
    var firstRow := middle[FirstUpdate(arg).id];
    var secondRow := Updated(middle, SecondUpdate(arg))[SecondUpdate(arg).id];
    var entries := TransferEntries(arg, entryId);
    TransferTxResult(
      if arg.fromAccountId < arg.toAccountId then firstRow else secondRow,
      if arg.fromAccountId < arg.toAccountId then secondRow else firstRow,
      Transfer(transferId, arg.fromAccountId, arg.toAccountId, arg.amount),
      entries[0],
      entries[1])
  }

  /** The calls a successful transfer issues, in order. */
  function BothIssued(arg: TransferTxParams): (r: seq<UpdateCall>)
  {
    [UpdateCall(FirstUpdate(arg).id, FirstUpdate(arg).amount, true),
     UpdateCall(SecondUpdate(arg).id, SecondUpdate(arg).amount, true)]
  }

  /**
   * The update calls one transfer may have issued: none, the first one
   * failing, or the first one succeeding and then the second one. A failed
   * first call is never followed by the second.
   */
  predicate IssuedInOrder(arg: TransferTxParams, calls: seq<UpdateCall>)
  {
    var first := FirstUpdate(arg);
    var second := SecondUpdate(arg);
    || calls == []
    || calls == [UpdateCall(first.id, first.amount, false)]
    || calls == [UpdateCall(first.id, first.amount, true), UpdateCall(second.id, second.amount, false)]
    || calls == BothIssued(arg)
  }

  // ---------------------------------------------------------------------
  // Lock order
  // ---------------------------------------------------------------------

  /**
   * The first update always targets the smaller id and the second the other
   * one, so the call order on a pair of accounts is the same whichever way
   * the money moves.
   */
  lemma LowerIdFirst(arg: TransferTxParams, reverse: TransferTxParams)
    requires reverse.fromAccountId == arg.toAccountId && reverse.toAccountId == arg.fromAccountId
    ensures FirstUpdate(arg).id == if arg.fromAccountId <= arg.toAccountId then arg.fromAccountId else arg.toAccountId
    ensures arg.fromAccountId != arg.toAccountId ==>
      SecondUpdate(arg).id == if arg.fromAccountId < arg.toAccountId then arg.toAccountId else arg.fromAccountId
    ensures FirstUpdate(arg).id <= SecondUpdate(arg).id
    ensures FirstUpdate(arg).id == FirstUpdate(reverse).id && SecondUpdate(arg).id == SecondUpdate(reverse).id
  {
  }

  /** The debit goes to the source account and the credit to the destination, in either order. */
  lemma UpdatesCarryTheTransfer(arg: TransferTxParams)
    ensures {FirstUpdate(arg).id, SecondUpdate(arg).id} == {arg.fromAccountId, arg.toAccountId}
    ensures FirstUpdate(arg).id == arg.fromAccountId && arg.fromAccountId != arg.toAccountId ==>
      FirstUpdate(arg).amount == Neg64(arg.amount) && SecondUpdate(arg).amount == arg.amount
    ensures FirstUpdate(arg).id == arg.toAccountId && arg.fromAccountId != arg.toAccountId ==>
      FirstUpdate(arg).amount == arg.amount && SecondUpdate(arg).amount == Neg64(arg.amount)
  {
  }

  // ---------------------------------------------------------------------
  // The effect of one transfer
  // ---------------------------------------------------------------------

  /**
   * Exact post-balances: the source is debited and the destination credited
   * by the amount; no other account, and no other column, changes. A
   * transfer from an account to itself leaves its balance as it was.
   */
  lemma TransferBalances(accounts: map<int, Account>, arg: TransferTxParams)
    requires CanTransfer(accounts, arg)
    ensures var r := TransferredAccounts(accounts, arg);
      && r.Keys == accounts.Keys
      && (forall id :: id in accounts && id != arg.fromAccountId && id != arg.toAccountId ==> r[id] == accounts[id])
      && r[arg.fromAccountId].(balance := accounts[arg.fromAccountId].balance) == accounts[arg.fromAccountId]
      && r[arg.toAccountId].(balance := accounts[arg.toAccountId].balance) == accounts[arg.toAccountId]
      && (arg.fromAccountId != arg.toAccountId ==>
            && r[arg.fromAccountId].balance == accounts[arg.fromAccountId].balance + Neg64(arg.amount)
            && r[arg.toAccountId].balance == accounts[arg.toAccountId].balance + arg.amount)
      && (arg.fromAccountId != arg.toAccountId && arg.amount != MinInt64 ==>
            r[arg.fromAccountId].balance == accounts[arg.fromAccountId].balance - arg.amount)
      && (arg.fromAccountId == arg.toAccountId ==> r == accounts)
  {
    var r := TransferredAccounts(accounts, arg);
    if arg.fromAccountId == arg.toAccountId {
      var id := arg.fromAccountId;
      assert r[id] == accounts[id];
    }
  }

  /** The rows of a committed transfer: its record equals the input, and the two entries are appended after the old ones. */
  lemma TransferRows(s: DbState, arg: TransferTxParams, transferId: int, entryId: int)
    requires CanTransfer(s.accounts, arg)
    ensures var t := ApplyTransfer(s, arg, transferId, entryId);
      && |t.transfers| == |s.transfers| + 1 && t.transfers[..|s.transfers|] == s.transfers
      && t.transfers[|s.transfers|].fromAccountId == arg.fromAccountId
      && t.transfers[|s.transfers|].toAccountId == arg.toAccountId
      && t.transfers[|s.transfers|].amount == arg.amount
      && |t.entries| == |s.entries| + 2 && t.entries[..|s.entries|] == s.entries
      && t.entries[|s.entries|].accountId == arg.fromAccountId && t.entries[|s.entries| + 1].accountId == arg.toAccountId
      && t.entries[|s.entries|].amount + t.entries[|s.entries| + 1].amount == (if arg.amount == MinInt64 then 2 * MinInt64 else 0)
      && t.entries[|s.entries|].amount == Neg64(arg.amount)
      && t.entries[|s.entries| + 1].amount == arg.amount
  {
  }

  /**
   * The result agrees with what was stored: the transfer and entries are the
   * new rows; `FromAccount` is the row of the source account and `ToAccount`
   * that of the destination, whichever was updated first, and both are the
   * final rows unless the transfer is from an account to itself.
   */
  lemma ResultMatchesStoredRows(s: DbState, arg: TransferTxParams, transferId: int, entryId: int)
    requires CanTransfer(s.accounts, arg) && KeyedById(s.accounts)
    ensures var t := ApplyTransfer(s, arg, transferId, entryId);
      var result := TransferResult(s.accounts, arg, transferId, entryId);
      result.transfer == t.transfers[|s.transfers|]
    ensures var t := ApplyTransfer(s, arg, transferId, entryId);
      var result := TransferResult(s.accounts, arg, transferId, entryId);
      result.fromEntry == t.entries[|s.entries|] && result.toEntry == t.entries[|s.entries| + 1]
    ensures var result := TransferResult(s.accounts, arg, transferId, entryId);
      result.fromAccount.id == arg.fromAccountId && result.toAccount.id == arg.toAccountId
    ensures var t := ApplyTransfer(s, arg, transferId, entryId);
      var result := TransferResult(s.accounts, arg, transferId, entryId);
      arg.fromAccountId != arg.toAccountId ==>
        result.fromAccount == t.accounts[arg.fromAccountId] && result.toAccount == t.accounts[arg.toAccountId]
  {
    TransferBalances(s.accounts, arg);
  }

  /**
   * A transfer from an account to itself takes the `else` branch: the
   * credit is applied first, so `ToAccount` holds the intermediate row and
   * differs from the final one by the amount.
   */
  lemma SelfTransferReturnsIntermediateRow(s: DbState, arg: TransferTxParams, transferId: int, entryId: int)
    requires CanTransfer(s.accounts, arg) && arg.fromAccountId == arg.toAccountId
    ensures var t := ApplyTransfer(s, arg, transferId, entryId);
      var result := TransferResult(s.accounts, arg, transferId, entryId);
      && result.fromAccount == t.accounts[arg.fromAccountId]
      && result.toAccount.balance == t.accounts[arg.toAccountId].balance + arg.amount
  {
    TransferBalances(s.accounts, arg);
  }

  // ---------------------------------------------------------------------
  // Conservation
  // ---------------------------------------------------------------------

  lemma {:induction false} SumRemove(accounts: map<int, Account>, id: int)
    requires id in accounts
    ensures SumBalances(accounts) == accounts[id].balance + SumBalances(accounts - {id})
    decreases |accounts|
  {
    var k :| k in accounts && SumBalances(accounts) == accounts[k].balance + SumBalances(accounts - {k});
    if k != id {
      assert (accounts - {k}).Keys == accounts.Keys - {k};
      assert (accounts - {id}).Keys == accounts.Keys - {id};
      SumRemove(accounts - {k}, id);
      SumRemove(accounts - {id}, k);
      assert accounts - {k} - {id} == accounts - {id} - {k};
    }
  }

  /** Setting one balance changes the total by the difference. */
  lemma SumAfterUpdate(accounts: map<int, Account>, u: UpdateAccountBalanceParams)
    requires CanUpdate(accounts, u)
    ensures SumBalances(Updated(accounts, u)) == SumBalances(accounts) + u.amount
  {
    var r := Updated(accounts, u);
    SumRemove(accounts, u.id);
    SumRemove(r, u.id);
    assert r - {u.id} == accounts - {u.id};
  }

  /**
   * Conservation: a transfer moves money and creates none, unless its amount
   * is the minimum `int64`, whose negation wraps to itself.
   */
  lemma TransferConservesMoney(accounts: map<int, Account>, arg: TransferTxParams)
    requires CanTransfer(accounts, arg)
    ensures arg.amount != MinInt64 ==> SumBalances(TransferredAccounts(accounts, arg)) == SumBalances(accounts)
    ensures SumBalances(TransferredAccounts(accounts, arg)) == SumBalances(accounts) + arg.amount + Neg64(arg.amount)
  {
    var first := FirstUpdate(arg);
    SumAfterUpdate(accounts, first);
    SumAfterUpdate(Updated(accounts, first), SecondUpdate(arg));
  }

  /**
   * Two empty accounts: a transfer of the minimum `int64` goes through and
   * both accounts end at the minimum, so 2^64 units disappear.
   */
  lemma MinInt64TransferDebitsBoth()
    ensures var accounts := map[1 := Account(1, "a", 0, "USD"), 2 := Account(2, "b", 0, "USD")];
      var arg := TransferTxParams(1, 2, MinInt64);
      && CanTransfer(accounts, arg)
      && TransferredAccounts(accounts, arg)[1].balance == MinInt64
      && TransferredAccounts(accounts, arg)[2].balance == MinInt64
      && SumBalances(TransferredAccounts(accounts, arg)) == SumBalances(accounts) + 2 * MinInt64
  {
    var accounts := map[1 := Account(1, "a", 0, "USD"), 2 := Account(2, "b", 0, "USD")];
    var arg := TransferTxParams(1, 2, MinInt64);
    TransferConservesMoney(accounts, arg);
  }

  // ---------------------------------------------------------------------
  // The ledger invariant
  // ---------------------------------------------------------------------

  lemma EntryTotalAppend(entries: seq<Entry>, e: Entry, id: int)
    ensures EntryTotal(entries + [e], id) == EntryTotal(entries, id) + (if e.accountId == id then e.amount else 0)
  {
    assert (entries + [e])[..|entries|] == entries;
  }

  /** A committed transfer keeps every balance equal to its opening balance plus its entries. */
  lemma TransferKeepsLedgerBalanced(s: DbState, opening: map<int, int>, arg: TransferTxParams, transferId: int, entryId: int)
    requires CanTransfer(s.accounts, arg) && Balanced(s, opening)
    ensures Balanced(ApplyTransfer(s, arg, transferId, entryId), opening)
  {
    var t := ApplyTransfer(s, arg, transferId, entryId);
    var es := TransferEntries(arg, entryId);
    TransferBalances(s.accounts, arg);
    assert t.entries == s.entries + [es[0]] + [es[1]];
    forall id | id in t.accounts
      ensures t.accounts[id].balance == opening[id] + EntryTotal(t.entries, id)
    {
      EntryTotalAppend(s.entries, es[0], id);
      EntryTotalAppend(s.entries + [es[0]], es[1], id);
    }
  }

  /** A committed transfer keeps the row invariants, given ids not yet issued. */
  lemma TransferKeepsWellFormed(s: DbState, arg: TransferTxParams, nextTransferId: int, nextEntryId: int)
    requires CanTransfer(s.accounts, arg) && WellFormed(s, nextTransferId, nextEntryId)
    requires nextTransferId > 0 && nextEntryId > 0
    ensures WellFormed(ApplyTransfer(s, arg, nextTransferId, nextEntryId), nextTransferId + 1, nextEntryId + 2)
  {
    var t := ApplyTransfer(s, arg, nextTransferId, nextEntryId);
    TransferKeepsAccountRows(s.accounts, arg);
    AppendKeepsEntryRows(s.entries, TransferEntries(arg, nextEntryId), s.accounts.Keys, nextEntryId);
    AppendKeepsTransferRows(s.transfers, Transfer(nextTransferId, arg.fromAccountId, arg.toAccountId, arg.amount), s.accounts.Keys, nextTransferId);
  }

  /** Both updates keep every row under its id, in its currency, and no row appears or disappears. */
  lemma TransferKeepsAccountRows(accounts: map<int, Account>, arg: TransferTxParams)
    requires CanTransfer(accounts, arg) && KeyedById(accounts)
    requires forall id :: id in accounts ==> Currency.IsSupportedCurrency(accounts[id].currency)
    ensures var r := TransferredAccounts(accounts, arg);
      && r.Keys == accounts.Keys && KeyedById(r)
      && forall id :: id in r ==> Currency.IsSupportedCurrency(r[id].currency)
  {
    TransferBalances(accounts, arg);
  }

  /** Appending the two entries of a transfer keeps the entry rows' invariant, with the next id two further on. */
  lemma AppendKeepsEntryRows(entries: seq<Entry>, added: seq<Entry>, ids: set<int>, nextEntryId: int)
    requires nextEntryId > 0 && |added| == 2 && added[0].id == nextEntryId && added[1].id == nextEntryId + 1
    requires added[0].accountId in ids && added[1].accountId in ids
    requires forall i :: 0 <= i < |entries| ==> 0 < entries[i].id < nextEntryId && entries[i].accountId in ids
    requires forall i, j :: 0 <= i < j < |entries| ==> entries[i].id < entries[j].id
    ensures var t := entries + added;
      && (forall i :: 0 <= i < |t| ==> 0 < t[i].id < nextEntryId + 2 && t[i].accountId in ids)
      && (forall i, j :: 0 <= i < j < |t| ==> t[i].id < t[j].id)
  {
  }

  /** Appending the transfer row keeps the transfer rows' invariant, with the next id one further on. */
  lemma AppendKeepsTransferRows(transfers: seq<Transfer>, added: Transfer, ids: set<int>, nextTransferId: int)
    requires nextTransferId > 0 && added.id == nextTransferId
    requires added.fromAccountId in ids && added.toAccountId in ids
    requires forall i :: 0 <= i < |transfers| ==>
      0 < transfers[i].id < nextTransferId && transfers[i].fromAccountId in ids && transfers[i].toAccountId in ids
    requires forall i, j :: 0 <= i < j < |transfers| ==> transfers[i].id < transfers[j].id
    ensures var t := transfers + [added];
      && (forall i :: 0 <= i < |t| ==> 0 < t[i].id < nextTransferId + 1 && t[i].fromAccountId in ids && t[i].toAccountId in ids)
      && (forall i, j :: 0 <= i < j < |t| ==> t[i].id < t[j].id)
  {
  }

  // ---------------------------------------------------------------------
  // Sequences of transfers
  // ---------------------------------------------------------------------

  /** The accounts after one transfer of a run; unchanged when it cannot go through. */
  function TryTransfer(accounts: map<int, Account>, arg: TransferTxParams): (r: map<int, Account>)
    ensures r.Keys == accounts.Keys
  {
    if CanTransfer(accounts, arg) then TransferredAccounts(accounts, arg) else accounts
  }

  /** The balances after running the transfers one after another. */
  function RunTransfers(accounts: map<int, Account>, transfers: seq<TransferTxParams>): (r: map<int, Account>)
    ensures r.Keys == accounts.Keys
    decreases |transfers|
  {
    if transfers == [] then accounts
    else RunTransfers(TryTransfer(accounts, transfers[0]), transfers[1..])
  }

  /** Every transfer of the run succeeds. */
  predicate AllSucceed(accounts: map<int, Account>, transfers: seq<TransferTxParams>)
    decreases |transfers|
  {
    transfers == [] ||
    (CanTransfer(accounts, transfers[0]) && AllSucceed(TransferredAccounts(accounts, transfers[0]), transfers[1..]))
  }

  /**
   * Running one more transfer after a run that all succeeded, when it can go
   * through: the longer run all succeeds and ends one transfer further on.
   */
  lemma {:induction false} RunAppend(accounts: map<int, Account>, transfers: seq<TransferTxParams>, arg: TransferTxParams)
    requires AllSucceed(accounts, transfers) && CanTransfer(RunTransfers(accounts, transfers), arg)
    ensures AllSucceed(accounts, transfers + [arg])
    ensures RunTransfers(accounts, transfers + [arg]) == TransferredAccounts(RunTransfers(accounts, transfers), arg)
    decreases |transfers|
  {
    if transfers == [] {
      assert transfers + [arg] == [arg];
      assert [arg][1..] == [];
    } else {
      var longer := transfers + [arg];
      assert longer[0] == transfers[0];
      assert longer[1..] == transfers[1..] + [arg];
      RunAppend(TransferredAccounts(accounts, transfers[0]), transfers[1..], arg);
    }
  }

  /** The transfers of `transfers` whose outcome in `errs` is no error, in order. */
  function Committed(transfers: seq<TransferTxParams>, errs: seq<Option<Error>>): (r: seq<TransferTxParams>)
    requires |errs| == |transfers|
    ensures |r| <= |transfers|
    ensures (forall i :: 0 <= i < |errs| ==> errs[i].None?) ==> r == transfers
    ensures (forall i :: 0 <= i < |errs| ==> errs[i].Some?) ==> r == []
    decreases |transfers|
  {
    if transfers == [] then []
    else
      var n := |transfers| - 1;
      assert transfers == transfers[..n] + [transfers[n]];
      Committed(transfers[..n], errs[..n]) + (if errs[n].None? then [transfers[n]] else [])
  }

  /** One more outcome adds its transfer to the committed ones exactly when it is no error. */
  lemma CommittedAppend(transfers: seq<TransferTxParams>, errs: seq<Option<Error>>, arg: TransferTxParams, err: Option<Error>)
    requires |errs| == |transfers|
    ensures Committed(transfers + [arg], errs + [err]) == Committed(transfers, errs) + (if err.None? then [arg] else [])
  {
    assert (transfers + [arg])[..|transfers|] == transfers;
    assert (errs + [err])[..|errs|] == errs;
  }

  /** What one transfer adds to the balance of account `id`. */
  function Effect(arg: TransferTxParams, id: int): (r: int)
  {
    (if arg.fromAccountId == id then Neg64(arg.amount) as int else 0) + (if arg.toAccountId == id then arg.amount as int else 0)
  }

  /** What a run of transfers adds to the balance of account `id`. */
  function NetChange(transfers: seq<TransferTxParams>, id: int): (r: int)
    decreases |transfers|
  {
    if transfers == [] then 0 else Effect(transfers[0], id) + NetChange(transfers[1..], id)
  }

  /** When every transfer succeeds, each balance moves by exactly the net of the transfers touching it. */
  lemma {:induction false} RunNetChange(accounts: map<int, Account>, transfers: seq<TransferTxParams>, id: int)
    requires AllSucceed(accounts, transfers) && id in accounts
    ensures RunTransfers(accounts, transfers).Keys == accounts.Keys
    ensures RunTransfers(accounts, transfers)[id].balance == accounts[id].balance + NetChange(transfers, id)
    decreases |transfers|
  {
    if transfers != [] {
      var arg := transfers[0];
      var next := TransferredAccounts(accounts, arg);
      TransferBalances(accounts, arg);
      assert next[id].balance == accounts[id].balance + Effect(arg, id);
      RunNetChange(next, transfers[1..], id);
    }
  }

  /** `n` copies of the same transfer. */
  function Repeat(arg: TransferTxParams, n: nat): (r: seq<TransferTxParams>)
    ensures |r| == n && forall i :: 0 <= i < n ==> r[i] == arg
  {
    if n == 0 then [] else [arg] + Repeat(arg, n - 1)
  }

  /** The transfers of the run from `a` to `b`. */
  function CountDirection(transfers: seq<TransferTxParams>, a: int, b: int): (r: nat)
    decreases |transfers|
  {
    if transfers == [] then 0
    else (if transfers[0].fromAccountId == a && transfers[0].toAccountId == b then 1 else 0)
         + CountDirection(transfers[1..], a, b)
  }

  /** Transfers of one amount between two accounts move `a` by the amount times the difference of the two directions. */
  lemma {:induction false} NetChangeBetween(transfers: seq<TransferTxParams>, a: int, b: int, amount: int64)
    requires a != b && amount != MinInt64
    requires forall i :: 0 <= i < |transfers| ==>
      transfers[i] == TransferTxParams(a, b, amount) || transfers[i] == TransferTxParams(b, a, amount)
    ensures NetChange(transfers, a) == amount * (CountDirection(transfers, b, a) - CountDirection(transfers, a, b))
    ensures NetChange(transfers, b) == amount * (CountDirection(transfers, a, b) - CountDirection(transfers, b, a))
    decreases |transfers|
  {
    if transfers != [] {
      NetChangeBetween(transfers[1..], a, b, amount);
      var x: int := CountDirection(transfers[1..], b, a);
      var y: int := CountDirection(transfers[1..], a, b);
      if transfers[0] == TransferTxParams(a, b, amount) {
        assert NetChange(transfers, a) == -amount + amount * (x - y);
        assert amount * (x - (y + 1)) == -amount + amount * (x - y);
        assert amount * ((y + 1) - x) == amount + amount * (y - x);
      } else {
        assert NetChange(transfers, a) == amount + amount * (x - y);
        assert amount * ((x + 1) - y) == amount + amount * (x - y);
        assert amount * (y - (x + 1)) == -amount + amount * (y - x);
      }
    }
  }

  /**
   * The outcome of the transfer contention test: any interleaving of the same
   * number of transfers of one amount in each direction between two accounts
   * that all succeed leaves both balances where they started.
   */
  lemma OpposingTransfersCancel(accounts: map<int, Account>, transfers: seq<TransferTxParams>, a: int, b: int, amount: int64)
    requires a in accounts && b in accounts && a != b && amount != MinInt64
    requires forall i :: 0 <= i < |transfers| ==>
      transfers[i] == TransferTxParams(a, b, amount) || transfers[i] == TransferTxParams(b, a, amount)
    requires CountDirection(transfers, a, b) == CountDirection(transfers, b, a)
    requires AllSucceed(accounts, transfers)
    ensures RunTransfers(accounts, transfers)[a].balance == accounts[a].balance
    ensures RunTransfers(accounts, transfers)[b].balance == accounts[b].balance
  {
    NetChangeBetween(transfers, a, b, amount);
    RunNetChange(accounts, transfers, a);
    RunNetChange(accounts, transfers, b);
  }

  /**
   * Repeated transfers of a positive amount from `a` to `b` all succeed while
   * the final balances stay in range, and after `n` of them `a` has lost and
   * `b` has gained `n` times the amount.
   */
  lemma {:induction false} RepeatedTransfers(accounts: map<int, Account>, a: int, b: int, amount: int64, n: nat)
    requires a in accounts && b in accounts && a != b && amount > 0
    requires InInt64(accounts[a].balance - n * amount) && InInt64(accounts[b].balance + n * amount)
    ensures AllSucceed(accounts, Repeat(TransferTxParams(a, b, amount), n))
    ensures RunTransfers(accounts, Repeat(TransferTxParams(a, b, amount), n))[a].balance == accounts[a].balance - n * amount
    ensures RunTransfers(accounts, Repeat(TransferTxParams(a, b, amount), n))[b].balance == accounts[b].balance + n * amount
    decreases n
  {
    var arg := TransferTxParams(a, b, amount);
    if n > 0 {
      assert n * amount == (n - 1) * amount + amount;
      assert (n - 1) * amount >= 0;
      assert CanTransfer(accounts, arg);
      var next := TransferredAccounts(accounts, arg);
      TransferBalances(accounts, arg);
      RepeatedTransfers(next, a, b, amount, n - 1);
      assert Repeat(arg, n)[1..] == Repeat(arg, n - 1);
    }
  }
}
