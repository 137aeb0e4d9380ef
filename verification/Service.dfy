/** The transfer service over a store whose transactions work on a copy that is kept on success and
    dropped on any error. */
module Service {
  import opened Domain
  import opened Text
  import opened Validation
  import opened Transfers
  import opened AccountEntity
  import opened Repository

  /** SELECT ... WHERE id = $1 AND user_id = $2. Text that is not a UUID finds nothing. */
  ghost function FindById(transfers: map<Key, StoredTransfer>, user: UserId, id: Option<Uuid>): Option<Transfer> {
    if id.Some? && exists k :: k in transfers && k.user == user && transfers[k].transfer.id == id.value then
      var k :| k in transfers && k.user == user && transfers[k].transfer.id == id.value;
      Some(transfers[k].transfer)
    else None
  }

  class Store {
    ghost const opening: map<AccountId, Row>
    var accounts: map<AccountId, Row>
    var transfers: map<Key, StoredTransfer>
    var ledger: seq<LedgerEntry>

    constructor (opening: map<AccountId, Row>)
      requires OpeningOk(opening)
      ensures Valid() && this.opening == opening && Contents() == Database(opening, map[], [])
    {
      this.opening, this.accounts, this.transfers, this.ledger := opening, opening, map[], [];
    }

    function Contents(): Database
      reads this
    {
      Database(accounts, transfers, ledger)
    }

    ghost predicate Valid()
      reads this
    {
      OpeningOk(opening) && DatabaseOk(opening, Contents())
    }

    /** Commit: the working copy becomes the store, unless the commit itself fails; an error also
        hides a commit whose acknowledgement was lost. */
    method Commit(tx: Tx) returns (committed: bool)
      modifies this`accounts, this`transfers, this`ledger
      ensures committed == !(tx.fault.CommitFails? || tx.fault.AcknowledgementLost?)
      ensures Contents() == if tx.fault.CommitFails? then old(Contents()) else tx.Contents()
    {
      if tx.fault.CommitFails? {
        return false;
      }
      accounts, transfers, ledger := tx.accounts, tx.transfers, tx.ledger;
      return !tx.fault.AcknowledgementLost?;
    }

    /** Ownership, currency and balance, on the locked copies; on acceptance the copies hold the
        balances to save. */
    method DraftOn(locked: map<AccountId, Account>, call: Call)
      returns (err: Option<Error>, status: Status, reason: FailureReason)
      requires CallOk(call)
      requires forall a, b :: a in locked && b in locked && a != b ==> locked[a] != locked[b]
      modifies set a | a in locked :: locked[a]
      ensures var r := call.request;
              var source := if r.from in locked then Some(old(locked[r.from].AsRow())) else None;
              var destination := if r.to in locked then Some(old(locked[r.to].AsRow())) else None;
              match Decide(source, destination, call.user, r)
              case Reject(e) => err == Some(e)
              case Accept(d) =>
                && err.None? && status == d.status && reason == d.reason
                && r.from in locked && locked[r.from].balance == d.source
                && r.to in locked && locked[r.to].balance == d.destination
    {
      var r := call.request;
      status, reason := Completed, NoReason;
      if r.from !in locked || locked[r.from].user != call.user {
        return Some(ErrForbidden), status, reason;
      }
      if r.to !in locked {
        return Some(ErrDestinationNotFound), status, reason;
      }
      var source, destination := locked[r.from], locked[r.to];
      if source.currency != r.currency || destination.currency != r.currency {
        return Some(ErrCurrencyMismatch), status, reason;
      }
      err := source.Debit(r.amount);
      if err == Some(ErrInsufficientFunds) {
        err, status, reason := None, Failed, InsufficientFunds;
      } else if err.None? {
        err := destination.Credit(r.amount);
      }
    }

    /** Create refines the indivisible step: it answers and leaves what CreateAlone does, or reports an
        infrastructure error and leaves everything as it was; if what was lost is the acknowledgement
        of the commit, it leaves what CreateAlone does. No CHECK or foreign key ever fires. */
    method Create(call: Call, newId: Uuid, fault: Fault) returns (out: Outcome)
      requires Valid() && FreshId(transfers, newId)
      modifies this
      ensures Valid()
      ensures out != Refused(ErrUnavailable) ==> (Contents(), out) == CreateAlone(old(Contents()), call, newId)
      ensures out == Refused(ErrUnavailable) ==>
                Contents() == if fault.AcknowledgementLost? then CreateAlone(old(Contents()), call, newId).0
                              else old(Contents())
      ensures fault.NoFault? ==> out != Refused(ErrUnavailable)
      ensures fault.NoFault? ==> (out == Refused(ErrUnstorable) <==> TextFails(old(accounts), call))
    {
      TextFailsExactly(opening, Contents(), call, newId);
      if Trim(call.user, IsSpace) == [] {
        return Refused(ErrForbidden);
      }
      if Validate(call.request).Some? {
        return Refused(ErrInvalidTransfer);
      }
      CreateKeepsDatabaseOk(opening, Contents(), call, newId);
      out := CreateInTx(call, newId, fault);
    }

    method CreateInTx(call: Call, newId: Uuid, fault: Fault) returns (out: Outcome)
      requires CallOk(call) && forall a :: a in accounts ==> 0 <= accounts[a].balance
      modifies this`accounts, this`transfers, this`ledger
      ensures out != Refused(ErrUnavailable) ==> (Contents(), out) == CreateAlone(old(Contents()), call, newId)
      ensures out == Refused(ErrUnavailable) ==>
                Contents() == if fault.AcknowledgementLost? then CreateAlone(old(Contents()), call, newId).0
                              else old(Contents())
      ensures fault.NoFault? ==> out != Refused(ErrUnavailable)
    {
      var r := call.request;
      var tx := new Tx(Contents(), fault);
      var locked, _, lockErr := tx.LockForTransfer([r.from, r.to]);
      if lockErr.Some? {
        return Refused(lockErr.value);
      }
      var draftErr, status, reason := DraftOn(locked, call);
      if draftErr.Some? {
        return Refused(draftErr.value);
      }
      ghost var d := DecideOn(old(accounts), call).draft;
      AcceptedIsSound(accounts, call, d);
      out := Move(call, newId, tx, locked[r.from], locked[r.to], status, reason, d);
    }

    /** Saves both balances and appends the two ledger entries; only an infrastructure fault can stop it. */
    method WriteBooks(r: CreateTransfer, id: Uuid, tx: Tx, source: Account, destination: Account, ghost d: Draft)
      returns (err: Option<Error>)
      requires r.from in tx.accounts && r.to in tx.accounts && r.from != r.to && r.amount > 0
      requires IdStored(tx.transfers, id) && d.source >= 0 && d.destination >= 0
      requires source.id == r.from && source.balance == d.source
      requires destination.id == r.to && destination.balance == d.destination
      modifies tx
      ensures err == if tx.fault.SaveFails? || tx.fault.AppendFails? then Some(ErrUnavailable) else None
      ensures tx.transfers == old(tx.transfers)
      ensures err.None? ==>
                && tx.accounts == SetBalance(SetBalance(old(tx.accounts), r.from, d.source), r.to, d.destination)
                && tx.ledger == old(tx.ledger) + [DebitEntry(r, id, d), CreditEntry(r, id, d)]
    {
      var objects := [source, destination];
      assert objects[0].id == r.from && objects[1].id == r.to;
      err := tx.SaveBalances(objects);
      if err.Some? {
        return;
      }
      assert tx.accounts[objects[0].id].balance == d.source && tx.accounts[objects[1].id].balance == d.destination;
      Saved(old(tx.accounts), tx.accounts, r, d);
      var entries := [LedgerEntry(id, source.id, -r.amount, source.balance),
                      LedgerEntry(id, destination.id, r.amount, destination.balance)];
      err := tx.Append(entries);
    }

    /** Everything after the draft: insert, and for a new completed transfer save, append, commit. */
    method Move(call: Call, newId: Uuid, tx: Tx, source: Account, destination: Account,
                status: Status, reason: FailureReason, ghost d: Draft) returns (out: Outcome)
      requires CallOk(call) && IdsStorable(call.request)
      requires DecideOn(accounts, call) == Accept(d) && Sound(accounts, call, d)
      requires forall a :: a in accounts ==> 0 <= accounts[a].balance
      requires tx.Contents() == Contents() && status == d.status && reason == d.reason
      requires source.id == call.request.from && source.balance == d.source
      requires destination.id == call.request.to && destination.balance == d.destination
      modifies this`accounts, this`transfers, this`ledger, tx
      ensures out != Refused(ErrUnavailable) ==> (Contents(), out) == CreateAlone(old(Contents()), call, newId)
      ensures out == Refused(ErrUnavailable) ==>
                Contents() == if tx.fault.AcknowledgementLost? then CreateAlone(old(Contents()), call, newId).0
                              else old(Contents())
      ensures tx.fault.NoFault? ==> out != Refused(ErrUnavailable)
    {
      if ParseKey(call.key).Some? {
        ValidCallPassesChecks(call, KeyOf(call).uuid, newId, status, reason);
      }
      out := tx.CreateIdempotent(call, newId, status, reason);
      if out.Refused? {
        return;
      }
      if out.created && out.transfer.status == Completed {
        assert tx.transfers[KeyOf(call)].transfer.id == out.transfer.id;
        var err := WriteBooks(call.request, out.transfer.id, tx, source, destination, d);
        if err.Some? {
          return Refused(err.value);
        }
      }
      var committed := Commit(tx);
      if !committed {
        out := Refused(ErrUnavailable);
      }
    }
  }

  lemma Saved(before: map<AccountId, Row>, after: map<AccountId, Row>, r: CreateTransfer, d: Draft)
    requires r.from in before && r.to in before && r.from != r.to && after.Keys == before.Keys
    requires after[r.from] == before[r.from].(balance := d.source)
    requires after[r.to] == before[r.to].(balance := d.destination)
    requires forall a :: a in after && a != r.from && a != r.to ==> after[a] == before[a]
    ensures after == SetBalance(SetBalance(before, r.from, d.source), r.to, d.destination)
  {
  }

  /** An id finds at most one row of its user. */
  lemma FindsTheRow(accounts: map<AccountId, Row>, transfers: map<Key, StoredTransfer>, k: Key)
    requires TransfersOk(accounts, transfers) && k in transfers
    ensures FindById(transfers, k.user, Some(transfers[k].transfer.id)) == Some(transfers[k].transfer)
  {
  }

  /** Get finds a transfer exactly when its creator asks for it. */
  lemma GetFindsOwn(transfers: map<Key, StoredTransfer>, user: UserId, id: Option<Uuid>)
    ensures FindById(transfers, user, id).Some? <==>
              id.Some? && exists k :: k in transfers && k.user == user && transfers[k].transfer.id == id.value
    ensures FindById(transfers, user, id).Some? ==>
              exists k :: k in transfers && k.user == user && transfers[k].transfer.id == id.value
                          && FindById(transfers, user, id) == Some(transfers[k].transfer)
  {
  }

  /** What Get has shown it keeps showing, whatever calls come later. */
  lemma GetIsStable(opening: map<AccountId, Row>, db: Database, call: Call, newId: Uuid, user: UserId, id: Option<Uuid>)
    requires DatabaseOk(opening, db) && (Creates(db, call) ==> FreshId(db.transfers, newId))
    requires FindById(db.transfers, user, id).Some?
    ensures FindById(CreateAlone(db, call, newId).0.transfers, user, id) == FindById(db.transfers, user, id)
  {
    GetFindsOwn(db.transfers, user, id);
    var k :| k in db.transfers && k.user == user && db.transfers[k].transfer.id == id.value
             && FindById(db.transfers, user, id) == Some(db.transfers[k].transfer);
    var db' := CreateAlone(db, call, newId).0;
    HistoryIsImmutable(db, call, newId);
    CreateKeepsDatabaseOk(opening, db, call, newId);
    assert k in db'.transfers && db'.transfers[k] == db.transfers[k];
    FindsTheRow(db'.accounts, db'.transfers, k);
  }
}
