/**
 * The money-transfer transaction engine (db/models/store.go), part two: the
 * Store object over an in-memory database.
 *
 * The tables are fields the queries update in place. A transaction is a
 * snapshot of the tables taken when it begins: a rollback restores it, a
 * commit discards it. Every query and every driver call may fail for
 * reasons the model does not see (a lost connection, a cancelled context),
 * which the methods express as a nondeterministic choice; the failures the
 * model does see (a missing account, a balance leaving the `bigint` range,
 * a dangling reference) are deterministic.
 */
module Db {
  import opened Wrappers
  import opened Ledger
  import Currency

  class Store {
    var accounts: map<int, Account>
    var entries: seq<Entry>
    var transfers: seq<Transfer>
    /** Next values of the id sequences; a rollback does not rewind them. */
    var nextEntryId: int
    var nextTransferId: int
    /** The open transaction's snapshot of the tables, if one is open. */
    var tx: Option<DbState>
    /** Every `UpdateAccountBalance` call issued, in order: the order row locks are requested in. */
    var updateLog: seq<UpdateCall>
    /** Each account's balance before any entry was written. */
    ghost var opening: map<int, int>

    /** The tables as a value. */
    function State(): (s: DbState)
      reads this
    {
      DbState(accounts, entries, transfers)
    }

    /** The row invariants hold of the tables and of an open transaction's snapshot. */
    ghost predicate Valid()
      reads this
    {
      && nextEntryId > 0 && nextTransferId > 0
      && WellFormed(State(), nextTransferId, nextEntryId)
      && (tx.Some? ==> WellFormed(tx.value, nextTransferId, nextEntryId))
    }

    /** The ledger invariant holds of the tables. */
    ghost predicate Consistent()
      reads this
    {
      Balanced(State(), opening)
    }

    /**
     * `NewStore`: a store over a database already holding `initial`, whose
     * ids are below the next ones the sequences will issue. Each account's
     * opening balance is what its balance was before its entries.
     */
    constructor (initial: DbState, nextTransferId: int, nextEntryId: int)
      requires nextTransferId > 0 && nextEntryId > 0
      requires WellFormed(initial, nextTransferId, nextEntryId)
      ensures Valid() && Consistent()
      ensures State() == initial && tx.None? && updateLog == []
      ensures this.nextTransferId == nextTransferId && this.nextEntryId == nextEntryId
    {
      accounts := initial.accounts;
      entries := initial.entries;
      transfers := initial.transfers;
      this.nextEntryId := nextEntryId;
      this.nextTransferId := nextTransferId;
      tx := None;
      updateLog := [];
      opening := map id | id in initial.accounts :: initial.accounts[id].balance - EntryTotal(initial.entries, id);
    }

    // -------------------------------------------------------------------
    // The driver: begin, rollback, commit
    // -------------------------------------------------------------------

    /** `db.BeginTx`: may fail; on success snapshots the tables. */
    method BeginTx() returns (err: Option<Error>)
      requires Valid() && tx.None?
      modifies this`tx
      ensures Valid()
      ensures err.None? ==> tx == Some(State())
      ensures err.Some? ==> tx.None? && err.value.DriverError?
    {
      var fails: bool := *;
      if fails {
        var message: string := *;
        err := Some(DriverError(message));
      } else {
        tx := Some(State());
        err := None;
      }
    }

    /**
     * `tx.Rollback`: the tables return to the snapshot. The call itself may
     * report an error; the database discards the transaction either way.
     */
    method Rollback() returns (rbErr: Option<Error>)
      requires Valid() && tx.Some?
      modifies this`accounts, this`entries, this`transfers, this`tx
      ensures Valid() && tx.None?
      ensures State() == old(tx.value)
      ensures rbErr.Some? ==> rbErr.value.DriverError?
    {
      accounts, entries, transfers := tx.value.accounts, tx.value.entries, tx.value.transfers;
      tx := None;
      var fails: bool := *;
      if fails {
        var message: string := *;
        rbErr := Some(DriverError(message));
      } else {
        rbErr := None;
      }
    }

    /** `tx.Commit`: keeps the tables, or fails and leaves them as at the snapshot. */
    method Commit() returns (err: Option<Error>)
      requires Valid() && tx.Some?
      modifies this`accounts, this`entries, this`transfers, this`tx
      ensures Valid() && tx.None?
      ensures err.None? ==> State() == old(State())
      ensures err.Some? ==> State() == old(tx.value) && err.value.DriverError?
    {
      var fails: bool := *;
      if fails {
        accounts, entries, transfers := tx.value.accounts, tx.value.entries, tx.value.transfers;
        var message: string := *;
        err := Some(DriverError(message));
      } else {
        err := None;
      }
      tx := None;
    }

    // -------------------------------------------------------------------
    // The queries
    // -------------------------------------------------------------------

    /** `CreateTransfer`: appends a transfer row with the next id. */
    method CreateTransfer(p: CreateTransferParams) returns (t: Transfer, err: Option<Error>)
      requires Valid()
      modifies this`transfers, this`nextTransferId
      ensures Valid()
      ensures err.None? ==>
        && t == Transfer(old(nextTransferId), p.fromAccountId, p.toAccountId, p.amount)
        && transfers == old(transfers) + [t] && nextTransferId == old(nextTransferId) + 1
      ensures err.Some? ==> t == ZeroTransfer && transfers == old(transfers) && nextTransferId == old(nextTransferId)
      ensures p.fromAccountId !in accounts || p.toAccountId !in accounts ==> err == Some(ForeignKeyViolation)
    {
      if p.fromAccountId !in accounts || p.toAccountId !in accounts {
        return ZeroTransfer, Some(ForeignKeyViolation);
      }
      var fails: bool := *;
      if fails {
        var message: string := *;
        return ZeroTransfer, Some(DriverError(message));
      }
      t := Transfer(nextTransferId, p.fromAccountId, p.toAccountId, p.amount);
      transfers := transfers + [t];
      nextTransferId := nextTransferId + 1;
      err := None;
    }

    /** `CreateEntry`: appends an entry row with the next id. */
    method CreateEntry(p: CreateEntryParams) returns (e: Entry, err: Option<Error>)
      requires Valid()
      modifies this`entries, this`nextEntryId
      ensures Valid()
      ensures err.None? ==>
        && e == Entry(old(nextEntryId), p.accountId, p.amount)
        && entries == old(entries) + [e] && nextEntryId == old(nextEntryId) + 1
      ensures err.Some? ==> e == ZeroEntry && entries == old(entries) && nextEntryId == old(nextEntryId)
      ensures p.accountId !in accounts ==> err == Some(ForeignKeyViolation)
    {
      if p.accountId !in accounts {
        return ZeroEntry, Some(ForeignKeyViolation);
      }
      var fails: bool := *;
      if fails {
        var message: string := *;
        return ZeroEntry, Some(DriverError(message));
      }
      e := Entry(nextEntryId, p.accountId, p.amount);
      entries := entries + [e];
      nextEntryId := nextEntryId + 1;
      err := None;
    }

    /**
     * `UpdateAccountBalance`: `balance = balance + amount` on one row,
     * returning the updated row; no row is `sql.ErrNoRows`. The call is
     * logged with its outcome.
     */
    method UpdateAccountBalance(p: UpdateAccountBalanceParams) returns (a: Account, err: Option<Error>)
      requires Valid()
      modifies this`accounts, this`updateLog
      ensures Valid()
      ensures err.None? ==> CanUpdate(old(accounts), p) && accounts == Updated(old(accounts), p) && a == accounts[p.id]
      ensures err.Some? ==> a == ZeroAccount && accounts == old(accounts)
      ensures p.id !in old(accounts) ==> err == Some(ErrNoRows)
      ensures p.id in old(accounts) && !CanUpdate(old(accounts), p) ==> err == Some(OutOfRange)
      ensures updateLog == old(updateLog) + [UpdateCall(p.id, p.amount, err.None?)]
    {
      if p.id !in accounts {
        err := Some(ErrNoRows);
        a := ZeroAccount;
      } else if !InInt64(accounts[p.id].balance + p.amount) {
        err := Some(OutOfRange);
        a := ZeroAccount;
      } else {
        var fails: bool := *;
        if fails {
          var message: string := *;
          err := Some(DriverError(message));
          a := ZeroAccount;
        } else {
          accounts := Updated(accounts, p);
          a := accounts[p.id];
          err := None;
        }
      }
      updateLog := updateLog + [UpdateCall(p.id, p.amount, err.None?)];
    }

    /**
     * `updateBalance`: the two updates in the order given; the second is
     * issued only if the first succeeded.
     */
    method UpdateBalance(accountId1: int, amount1: int64, accountId2: int, amount2: int64)
      returns (account1: Account, account2: Account, err: Option<Error>)
      requires Valid()
      modifies this`accounts, this`updateLog
      ensures Valid()
      ensures var first := UpdateAccountBalanceParams(amount1, accountId1);
        var second := UpdateAccountBalanceParams(amount2, accountId2);
        if updateLog == old(updateLog) + [UpdateCall(accountId1, amount1, false)] then
          err.Some? && accounts == old(accounts) && account1 == ZeroAccount && account2 == ZeroAccount
        else
          && CanUpdate(old(accounts), first)
          && account1 == Updated(old(accounts), first)[accountId1]
          && updateLog == old(updateLog) + [UpdateCall(accountId1, amount1, true), UpdateCall(accountId2, amount2, err.None?)]
          && (err.None? ==>
                && CanUpdate(Updated(old(accounts), first), second)
                && accounts == Updated(Updated(old(accounts), first), second)
                && account2 == accounts[accountId2])
          && (err.Some? ==> accounts == Updated(old(accounts), first) && account2 == ZeroAccount)
      ensures !CanUpdate(old(accounts), UpdateAccountBalanceParams(amount1, accountId1)) ==>
        updateLog == old(updateLog) + [UpdateCall(accountId1, amount1, false)]
    {
      account2 := ZeroAccount;
      account1, err := UpdateAccountBalance(UpdateAccountBalanceParams(amount1, accountId1));
      if err.Some? {
        return;
      }
      account2, err := UpdateAccountBalance(UpdateAccountBalanceParams(amount2, accountId2));
    }

    // -------------------------------------------------------------------
    // The transaction coordinator and the transfer
    // -------------------------------------------------------------------

    /**
     * The end of `execTx`, once the unit of work has returned `workErr`: on
     * an error, roll back and report it, combined with the rollback's own
     * outcome; otherwise commit and return the commit's outcome.
     */
    method FinishTx(workErr: Option<Error>) returns (err: Option<Error>)
      requires Valid() && tx.Some?
      modifies this`accounts, this`entries, this`transfers, this`tx
      ensures Valid() && tx.None?
      ensures workErr.Some? ==>
        && State() == old(tx.value)
        && err.Some? && err.value.TxError? && err.value.cause == workErr.value
      ensures workErr.None? ==>
        && (err.None? ==> State() == old(State()))
        && (err.Some? ==> State() == old(tx.value) && err.value.DriverError?)
    {
      if workErr.Some? {
        var rbErr := Rollback();
        // The test that follows the rollback is on the work's error, not on
        // rbErr, so it always holds: the combined message is returned whether
        // or not the rollback failed, and the plain form is never reached.
        err := Some(TxError(workErr.value, rbErr));
        return;
      }
      err := Commit();
    }

    /**
     * Steps d and e of the unit of work: both balance updates, the smaller
     * account id first, each result row assigned to the side it belongs to.
     */
    method UpdateInLockOrder(arg: TransferTxParams) returns (fromAccount: Account, toAccount: Account, err: Option<Error>)
      requires Valid()
      modifies this`accounts, this`updateLog
      ensures Valid()
      ensures |updateLog| >= |old(updateLog)| && updateLog[..|old(updateLog)|] == old(updateLog)
      ensures IssuedInOrder(arg, updateLog[|old(updateLog)|..]) && updateLog[|old(updateLog)|..] != []
      ensures err.None? <==> updateLog[|old(updateLog)|..] == BothIssued(arg)
      ensures err.None? ==>
        && CanTransfer(old(accounts), arg)
        && accounts == TransferredAccounts(old(accounts), arg)
        && var r := TransferResult(old(accounts), arg, 0, 0);
           fromAccount == r.fromAccount && toAccount == r.toAccount
      ensures !CanTransfer(old(accounts), arg) ==> err.Some?
    {
      ghost var log0 := updateLog;
      if arg.fromAccountId < arg.toAccountId {
        fromAccount, toAccount, err := UpdateBalance(arg.fromAccountId, Neg64(arg.amount), arg.toAccountId, arg.amount);
      } else {
        toAccount, fromAccount, err := UpdateBalance(arg.toAccountId, arg.amount, arg.fromAccountId, Neg64(arg.amount));
      }
      assert updateLog[..|log0|] == log0;
    }

    /**
     * Steps a to c of the unit of work: the transfer row, the debit entry and
     * the credit entry, stopping at the first error. A row not written is
     * returned as the zero value.
     */
    method CreateTransferRows(arg: TransferTxParams) returns (transfer: Transfer, fromEntry: Entry, toEntry: Entry, err: Option<Error>)
      requires Valid()
      modifies this`entries, this`transfers, this`nextEntryId, this`nextTransferId
      ensures Valid()
      ensures nextTransferId >= old(nextTransferId) && nextEntryId >= old(nextEntryId)
      ensures err.None? ==>
        && transfer == Transfer(old(nextTransferId), arg.fromAccountId, arg.toAccountId, arg.amount)
        && [fromEntry, toEntry] == TransferEntries(arg, old(nextEntryId))
        && transfers == old(transfers) + [transfer]
        && entries == old(entries) + [fromEntry, toEntry]
      ensures arg.fromAccountId !in accounts || arg.toAccountId !in accounts ==> err == Some(ForeignKeyViolation)
    {
      fromEntry, toEntry := ZeroEntry, ZeroEntry;
      transfer, err := CreateTransfer(CreateTransferParams(arg.fromAccountId, arg.toAccountId, arg.amount));
      if err.Some? {
        return;
      }
      fromEntry, err := CreateEntry(CreateEntryParams(arg.fromAccountId, Neg64(arg.amount)));
      if err.Some? {
        return;
      }
      toEntry, err := CreateEntry(CreateEntryParams(arg.toAccountId, arg.amount));
    }

    /**
     * The unit of work of `TransferTx`: the three rows, then both balances.
     * It stops at the first error; the result holds what was written up to it.
     */
    method TransferWork(arg: TransferTxParams) returns (result: TransferTxResult, err: Option<Error>)
      requires Valid() && tx.Some?
      modifies this`accounts, this`entries, this`transfers, this`nextEntryId, this`nextTransferId, this`updateLog
      ensures Valid() && tx == old(tx)
      ensures nextTransferId >= old(nextTransferId) && nextEntryId >= old(nextEntryId)
      ensures |updateLog| >= |old(updateLog)| && updateLog[..|old(updateLog)|] == old(updateLog)
      ensures IssuedInOrder(arg, updateLog[|old(updateLog)|..])
      ensures err.None? ==>
        && CanTransfer(old(accounts), arg)
        && State() == ApplyTransfer(old(State()), arg, old(nextTransferId), old(nextEntryId))
        && result == TransferResult(old(accounts), arg, old(nextTransferId), old(nextEntryId))
        && updateLog[|old(updateLog)|..] == BothIssued(arg)
      ensures !CanTransfer(old(accounts), arg) ==> err.Some?
      ensures updateLog[|old(updateLog)|..] != [] && !updateLog[|updateLog| - 1].succeeded ==> err.Some?
    {
      var transfer, fromEntry, toEntry;
      transfer, fromEntry, toEntry, err := CreateTransferRows(arg);
      result := ZeroResult.(transfer := transfer, fromEntry := fromEntry, toEntry := toEntry);
      if err.Some? {
        assert updateLog[|old(updateLog)|..] == [];
        return;
      }
      var fromAccount, toAccount;
      fromAccount, toAccount, err := UpdateInLockOrder(arg);
      result := result.(fromAccount := fromAccount, toAccount := toAccount);
    }

    /**
     * `execTx` from the point the transaction is open: the unit of work, then
     * the rollback or the commit. The snapshot is the state the work starts from.
     */
    method TransferInTx(arg: TransferTxParams) returns (result: TransferTxResult, err: Option<Error>)
      requires Valid() && tx == Some(State())
      modifies this`accounts, this`entries, this`transfers, this`nextEntryId, this`nextTransferId, this`tx, this`updateLog
      ensures Valid() && tx.None?
      ensures old(Consistent()) ==> Consistent()
      ensures nextTransferId >= old(nextTransferId) && nextEntryId >= old(nextEntryId)
      ensures err.None? ==>
        && CanTransfer(old(accounts), arg)
        && State() == ApplyTransfer(old(State()), arg, old(nextTransferId), old(nextEntryId))
        && result == TransferResult(old(accounts), arg, old(nextTransferId), old(nextEntryId))
      ensures err.Some? ==> State() == old(State())
      ensures !CanTransfer(old(accounts), arg) ==> err.Some?
      ensures |updateLog| >= |old(updateLog)| && updateLog[..|old(updateLog)|] == old(updateLog)
      ensures IssuedInOrder(arg, updateLog[|old(updateLog)|..])
      ensures err.None? ==> updateLog[|old(updateLog)|..] == BothIssued(arg)
      ensures updateLog[|old(updateLog)|..] != [] && !updateLog[|updateLog| - 1].succeeded ==>
        err.Some? && err.value.TxError?
      ensures err.Some? ==> err.value.DriverError? || err.value.TxError?
    {
      ghost var s0, t0, e0 := State(), nextTransferId, nextEntryId;
      var workErr;
      result, workErr := TransferWork(arg);
      err := FinishTx(workErr);
      if err.None? && Balanced(s0, opening) {
        TransferKeepsLedgerBalanced(s0, opening, arg, t0, e0);
      }
    }

    /**
     * `TransferTx`: `execTx` around the unit of work. On success the
     * database is exactly one transfer further on and the result holds the
     * rows written; on any error nothing of the call remains. Either way the
     * balance updates were issued smaller id first, and the second only after
     * the first succeeded.
     */
    method TransferTx(arg: TransferTxParams) returns (result: TransferTxResult, err: Option<Error>)
      requires Valid() && tx.None?
      modifies this`accounts, this`entries, this`transfers, this`nextEntryId, this`nextTransferId, this`tx, this`updateLog
      ensures Valid() && tx.None?
      ensures old(Consistent()) ==> Consistent()
      ensures nextTransferId >= old(nextTransferId) && nextEntryId >= old(nextEntryId)
      ensures err.None? ==>
        && CanTransfer(old(accounts), arg)
        && State() == ApplyTransfer(old(State()), arg, old(nextTransferId), old(nextEntryId))
        && result == TransferResult(old(accounts), arg, old(nextTransferId), old(nextEntryId))
      ensures err.Some? ==> State() == old(State())
      ensures !CanTransfer(old(accounts), arg) ==> err.Some?
      ensures |updateLog| >= |old(updateLog)| && updateLog[..|old(updateLog)|] == old(updateLog)
      ensures IssuedInOrder(arg, updateLog[|old(updateLog)|..])
      ensures err.None? ==> updateLog[|old(updateLog)|..] == BothIssued(arg)
      ensures updateLog[|old(updateLog)|..] != [] && !updateLog[|updateLog| - 1].succeeded ==>
        err.Some? && err.value.TxError?
      ensures err.Some? ==> err.value.DriverError? || err.value.TxError?
    {
      result := ZeroResult;
      err := BeginTx();
      if err.Some? {
        assert updateLog[|old(updateLog)|..] == [];
        return;
      }
      result, err := TransferInTx(arg);
    }

    /**
     * The transfers of the transaction tests, one call of `TransferTx` after
     * another. Whichever calls fail, the accounts end exactly where running
     * the committed transfers in order leaves them, and every committed one
     * went through.
     */
    method TransferEach(transfers: seq<TransferTxParams>) returns (errs: seq<Option<Error>>)
      requires Valid() && tx.None?
      modifies this`accounts, this`entries, this`transfers, this`nextEntryId, this`nextTransferId, this`tx, this`updateLog
      ensures Valid() && tx.None?
      ensures old(Consistent()) ==> Consistent()
      ensures |errs| == |transfers|
      ensures AllSucceed(old(accounts), Committed(transfers, errs))
      ensures accounts == RunTransfers(old(accounts), Committed(transfers, errs))
      ensures (forall i :: 0 <= i < |errs| ==> errs[i].None?) ==>
        AllSucceed(old(accounts), transfers) && accounts == RunTransfers(old(accounts), transfers)
    {
      ghost var start := accounts;
      errs := [];
      var i := 0;
      while i < |transfers|
        invariant 0 <= i <= |transfers| && |errs| == i
        invariant Valid() && tx.None?
        invariant old(Consistent()) ==> Consistent()
        invariant AllSucceed(start, Committed(transfers[..i], errs))
        invariant accounts == RunTransfers(start, Committed(transfers[..i], errs))
      {
        ghost var done, before := Committed(transfers[..i], errs), accounts;
        var result, err := TransferTx(transfers[i]);
        CommittedAppend(transfers[..i], errs, transfers[i], err);
        assert transfers[..i + 1] == transfers[..i] + [transfers[i]];
        ghost var next := Committed(transfers[..i + 1], errs + [err]);
        if err.None? {
          assert next == done + [transfers[i]];
          assert CanTransfer(before, transfers[i]) && accounts == TransferredAccounts(before, transfers[i]);
          RunAppend(start, done, transfers[i]);
        } else {
          assert next == done;
          assert accounts == before;
        }
        errs := errs + [err];
        i := i + 1;
      }
      assert transfers[..|transfers|] == transfers;
    }
  }
}
