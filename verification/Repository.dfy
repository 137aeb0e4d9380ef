/** The repositories of one transaction, working on its own copy of the tables. */
module Repository {
  import opened Domain
  import opened Validation
  import opened Transfers
  import opened LockPlan
  import opened AccountEntity

  /** Where the database fails, if it does. */
  datatype Fault =
    | NoFault
    | LockFails
    | InsertFails
    | LookupFails          // the SELECT after a conflicting INSERT
    | SaveFails
    | AppendFails
    | CommitFails          // nothing was committed
    | AcknowledgementLost  // the commit was applied, and reported as an error

  /** The CHECKs and foreign keys of a ledger row. */
  predicate EntryChecks(accounts: map<AccountId, Row>, transfers: map<Key, StoredTransfer>, e: LedgerEntry) {
    e.amount != 0 && e.balanceAfter >= 0 && e.accountId in accounts && IdStored(transfers, e.transferId)
  }

  ghost predicate Distinct(ids: seq<AccountId>) {
    forall i, j :: 0 <= i < j < |ids| ==> ids[i] != ids[j]
  }

  class Tx {
    var accounts: map<AccountId, Row>
    var transfers: map<Key, StoredTransfer>
    var ledger: seq<LedgerEntry>
    const fault: Fault

    constructor (db: Database, fault: Fault)
      ensures Contents() == db && this.fault == fault
    {
      this.accounts, this.transfers, this.ledger, this.fault := db.accounts, db.transfers, db.ledger, fault;
    }

    function Contents(): Database
      reads this
    {
      Database(accounts, transfers, ledger)
    }

    /** Locks the existing rows among the ids, each once, in ascending order, and hands out one
        object per row, so that changing one copy cannot change another. An id that PostgreSQL
        cannot hold fails the statement before any row is read. */
    method LockForTransfer(accountIds: seq<AccountId>)
      returns (locked: map<AccountId, Account>, order: seq<AccountId>, err: Option<Error>)
      ensures err == (if fault.LockFails? then Some(ErrUnavailable)
                      else if exists a :: a in accountIds && !Storable(a) then Some(ErrUnstorable)
                      else None)
      ensures err.Some? ==> locked == map[]
      ensures err.None? ==> forall a :: a in locked <==> a in accountIds && a in accounts
      ensures forall a :: a in locked ==>
                a in accounts && fresh(locked[a]) && locked[a].id == a && locked[a].AsRow() == accounts[a]
      ensures forall a, b :: a in locked && b in locked && a != b ==> locked[a] != locked[b]
      ensures Ascending(order) && forall a :: a in order <==> a in locked
    {
      locked, order, err := map[], [], None;
      if fault.LockFails? {
        err := Some(ErrUnavailable);
        return;
      }
      if exists a :: a in accountIds && !Storable(a) {
        err := Some(ErrUnstorable);
        return;
      }
      var ids := Sort(accountIds);
      assert forall a :: a in ids <==> a in multiset(ids);
      assert forall a :: a in accountIds <==> a in multiset(accountIds);
      ids := Compact(ids);
      for n := 0 to |ids|
        invariant forall a :: a in locked <==> a in ids[..n] && a in accounts
        invariant forall a :: a in locked ==>
                    a in accounts && fresh(locked[a]) && locked[a].id == a && locked[a].AsRow() == accounts[a]
        invariant Ascending(order) && forall a :: a in order <==> a in locked
      {
        assert ids[..n + 1] == ids[..n] + [ids[n]];
        if ids[n] in accounts {
          var account := new Account(ids[n], accounts[ids[n]]);
          locked := locked[ids[n] := account];
          PrefixBelow(ids, n, order);
          order := order + [ids[n]];
        }
      }
      assert ids[..|ids|] == ids;
    }

    /** UPDATE ... FROM unnest: each matching row is updated once; a negative balance violates the
        CHECK. Returns the rows affected. */
    method UpdateBalances(ids: seq<AccountId>, balances: seq<int64>) returns (affected: nat, err: Option<Error>)
      requires |ids| == |balances|
      modifies this`accounts
      ensures err.None? || err == Some(ErrConstraint)
      ensures affected <= |ids|
      ensures err.None? ==>
                (affected == |ids| <==> Distinct(ids) && forall i :: 0 <= i < |ids| ==> ids[i] in old(accounts))
      ensures (forall i :: 0 <= i < |ids| ==> balances[i] >= 0) ==> err.None?
      ensures Distinct(ids) && (forall i :: 0 <= i < |ids| ==> ids[i] in old(accounts)) && err.None? ==>
                forall i :: 0 <= i < |ids| ==> balances[i] >= 0
      ensures accounts.Keys == old(accounts).Keys
      ensures forall a :: a in accounts && a !in ids ==> accounts[a] == old(accounts)[a]
      ensures err.None? && Distinct(ids) ==>
                forall i :: 0 <= i < |ids| && ids[i] in accounts ==>
                  accounts[ids[i]] == old(accounts)[ids[i]].(balance := balances[i])
    {
      affected, err := 0, None;
      for n := 0 to |ids|
        invariant err.None? && affected <= n
        invariant affected == n <==> Distinct(ids[..n]) && forall i :: 0 <= i < n ==> ids[i] in old(accounts)
        invariant Distinct(ids) ==> forall i :: 0 <= i < n && ids[i] in accounts ==> balances[i] >= 0
        invariant accounts.Keys == old(accounts).Keys
        invariant forall a :: a in accounts && a !in ids[..n] ==> accounts[a] == old(accounts)[a]
        invariant Distinct(ids) ==>
                    forall i :: 0 <= i < n && ids[i] in accounts ==>
                      accounts[ids[i]] == old(accounts)[ids[i]].(balance := balances[i])
      {
        assert ids[..n + 1] == ids[..n] + [ids[n]];
        DistinctSnoc(ids, n);
        if ids[n] in accounts && ids[n] !in ids[..n] {
          if balances[n] < 0 {
            err := Some(ErrConstraint);
            return;
          }
          accounts := SetBalance(accounts, ids[n], balances[n]);
          affected := affected + 1;
        }
      }
      assert ids[..|ids|] == ids;
    }

    /** Succeeds exactly when the accounts are pairwise distinct, all stored and none overdrawn; then
        exactly those rows change, each to its own account's balance. */
    method SaveBalances(objects: seq<Account>) returns (err: Option<Error>)
      modifies this`accounts
      ensures err.None? <==>
                && !fault.SaveFails?
                && (forall i, j :: 0 <= i < j < |objects| ==> objects[i].id != objects[j].id)
                && (forall i :: 0 <= i < |objects| ==> objects[i].id in old(accounts) && objects[i].balance >= 0)
      ensures fault.SaveFails? ==> err == Some(ErrUnavailable)
      ensures !fault.SaveFails? ==> err != Some(ErrUnavailable)
      ensures err.Some? && !fault.SaveFails? && (forall i :: 0 <= i < |objects| ==> objects[i].balance >= 0) ==>
                err == Some(ErrRowCount)
      ensures err.None? ==>
                && accounts.Keys == old(accounts).Keys
                && (forall i :: 0 <= i < |objects| ==>
                      accounts[objects[i].id] == old(accounts)[objects[i].id].(balance := objects[i].balance))
                && (forall a :: a in accounts && (forall i :: 0 <= i < |objects| ==> objects[i].id != a) ==>
                      accounts[a] == old(accounts)[a])
    {
      if fault.SaveFails? {
        return Some(ErrUnavailable);
      }
      var ids, balances: seq<int64> := [], [];
      for n := 0 to |objects|
        invariant |ids| == |balances| == n
        invariant forall i :: 0 <= i < n ==> ids[i] == objects[i].id && balances[i] == objects[i].balance
      {
        ids, balances := ids + [objects[n].id], balances + [objects[n].balance];
      }
      assert Distinct(ids) <==> forall i, j :: 0 <= i < j < |objects| ==> objects[i].id != objects[j].id;
      var affected;
      affected, err := UpdateBalances(ids, balances);
      if err.None? && affected != |objects| {
        err := Some(ErrRowCount);
      }
    }

    /** Stores the transfer under its (user, key), or answers for the one already there. */
    method CreateIdempotent(call: Call, newId: Uuid, status: Status, reason: FailureReason) returns (out: Outcome)
      modifies this`transfers
      ensures !HasKey(call) ==> out == Refused(ErrInvalidTransfer) && transfers == old(transfers)
      ensures HasKey(call) ==>
                var key, r := Key(call.user, call.key.value), call.request;
                var record := Transfer(newId, call.key.value, r.from, r.to, r.amount, r.currency, r.description,
                                       status, reason);
                if fault.InsertFails? then out == Refused(ErrUnavailable) && transfers == old(transfers)
                else if !RowStorable(call) then out == Refused(ErrUnstorable) && transfers == old(transfers)
                else if !TransferChecks(call.user, record) then
                  out == Refused(ErrConstraint) && transfers == old(transfers)
                else if key in old(transfers) then
                  && out == (if fault.LookupFails? then Refused(ErrUnavailable)
                             else Replay(old(transfers)[key], call.request))
                  && transfers == old(transfers)
                else if call.request.from !in accounts || call.request.to !in accounts then
                  out == Refused(ErrConstraint) && transfers == old(transfers)
                else
                  out == Reply(record, true)
                  && transfers == old(transfers)[key := StoredTransfer(record, call.request)]
    {
      if ParseKey(call.key).None? {
        return Refused(ErrInvalidTransfer);
      }
      if fault.InsertFails? {
        return Refused(ErrUnavailable);
      }
      if !RowStorable(call) {
        return Refused(ErrUnstorable);
      }
      var key, record := KeyOf(call), NewRecord(call.request, KeyOf(call).uuid, newId, status, reason);
      if !TransferChecks(call.user, record) {
        return Refused(ErrConstraint);
      }
      if key in transfers {
        if fault.LookupFails? {
          return Refused(ErrUnavailable);
        }
        return Replay(transfers[key], call.request);
      }
      if call.request.from !in accounts || call.request.to !in accounts {
        return Refused(ErrConstraint);
      }
      transfers := transfers[key := StoredTransfer(record, call.request)];
      return Reply(record, true);
    }

    /** Appends all the entries in order, or none of them. */
    method Append(entries: seq<LedgerEntry>) returns (err: Option<Error>)
      modifies this`ledger
      ensures err.None? <==>
                !fault.AppendFails?
                && (forall i :: 0 <= i < |entries| ==>
                      entries[i].amount != 0 && entries[i].balanceAfter >= 0 && entries[i].accountId in accounts)
                && (forall i :: 0 <= i < |entries| ==> IdStored(transfers, entries[i].transferId))
      ensures fault.AppendFails? ==> err == Some(ErrUnavailable)
      ensures err.Some? && !fault.AppendFails? ==> err == Some(ErrConstraint)
      ensures ledger == if err.None? then old(ledger) + entries else old(ledger)
    {
      if fault.AppendFails? {
        return Some(ErrUnavailable);
      }
      var transferIds: seq<Uuid>, accountIds: seq<AccountId> := [], [];
      var amounts: seq<int64>, balances: seq<int64> := [], [];
      for n := 0 to |entries|
        invariant |transferIds| == |accountIds| == |amounts| == |balances| == n
        invariant forall i :: 0 <= i < n ==>
                    LedgerEntry(transferIds[i], accountIds[i], amounts[i], balances[i]) == entries[i]
      {
        transferIds, accountIds := transferIds + [entries[n].transferId], accountIds + [entries[n].accountId];
        amounts, balances := amounts + [entries[n].amount], balances + [entries[n].balanceAfter];
      }
      var rows: seq<LedgerEntry> := [];
      for n := 0 to |entries|
        invariant rows == entries[..n]
        invariant forall i :: 0 <= i < n ==> EntryChecks(accounts, transfers, entries[i])
      {
        var row := LedgerEntry(transferIds[n], accountIds[n], amounts[n], balances[n]);
        if !EntryChecks(accounts, transfers, row) {
          return Some(ErrConstraint);
        }
        rows := rows + [row];
      }
      assert forall i :: 0 <= i < |entries| ==> IdStored(transfers, entries[i].transferId);
      ledger := ledger + rows;
      return None;
    }
  }

  /** Anything drawn from the first n ids is below the next one. */
  lemma PrefixBelow(ids: seq<AccountId>, n: nat, order: seq<AccountId>)
    requires Ascending(ids) && n < |ids|
    requires forall a :: a in order ==> a in ids[..n]
    ensures forall i :: 0 <= i < |order| ==> Less(order[i], ids[n])
  {
    forall i | 0 <= i < |order|
      ensures Less(order[i], ids[n])
    {
      assert order[i] in order;
      var j :| 0 <= j < n && ids[..n][j] == order[i];
      assert ids[j] == order[i];
    }
  }

  lemma DistinctSnoc(ids: seq<AccountId>, n: nat)
    requires n < |ids|
    ensures Distinct(ids[..n + 1]) <==> Distinct(ids[..n]) && ids[n] !in ids[..n]
    ensures Distinct(ids) ==> ids[n] !in ids[..n]
  {
    assert ids[..n + 1] == ids[..n] + [ids[n]];
    if Distinct(ids[..n + 1]) {
      forall i, j | 0 <= i < j < n ensures ids[..n][i] != ids[..n][j] {
        assert ids[..n + 1][i] != ids[..n + 1][j];
      }
      forall i | 0 <= i < n ensures ids[..n][i] != ids[n] {
        assert ids[..n + 1][i] != ids[..n + 1][n];
      }
    }
  }
}
