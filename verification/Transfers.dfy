/** Create as one indivisible step on the whole database: the reference the imperative service and
    the concurrent protocol are both proved against. */
module Transfers {
  import opened Domain
  import opened Text
  import opened Validation
  import opened Ledger

  datatype Database = Database(
    accounts: map<AccountId, Row>, transfers: map<Key, StoredTransfer>, ledger: seq<LedgerEntry>)

  /** The outcome the service settles on before it inserts anything. */
  datatype Draft = Draft(status: Status, reason: FailureReason, source: int64, destination: int64)

  datatype Decision = Reject(error: Error) | Accept(draft: Draft)

  /** The checks on the two locked rows, then Debit, then Credit, in the code's order. */
  function Decide(source: Option<Row>, destination: Option<Row>, user: UserId, r: CreateTransfer): Decision {
    if source.None? || source.value.user != user then Reject(ErrForbidden)
    else if destination.None? then Reject(ErrDestinationNotFound)
    else if source.value.currency != r.currency || destination.value.currency != r.currency then
      Reject(ErrCurrencyMismatch)
    else if r.amount <= 0 then Reject(ErrInvalidAmount)
    else if source.value.balance < r.amount then
      Accept(Draft(Failed, InsufficientFunds, source.value.balance, destination.value.balance))
    else if destination.value.balance > MAX_INT64 - r.amount then Reject(ErrBalanceOverflow)
    else
      Accept(Draft(Completed, NoReason, source.value.balance - r.amount, destination.value.balance + r.amount))
  }

  function DecideOn(rows: map<AccountId, Row>, call: Call): Decision {
    Decide(Find(rows, call.request.from), Find(rows, call.request.to), call.user, call.request)
  }

  /** A key must scan as a UUID and not be the nil one. */
  function ParseKey(scanned: Option<Uuid>): Option<Uuid> {
    if scanned.Some? && scanned.value != 0 then scanned else None
  }

  function KeyOf(call: Call): Key
    requires ParseKey(call.key).Some?
  {
    Key(call.user, ParseKey(call.key).value)
  }

  /** The key and the text are fit for the INSERT, which then depends on the stored rows. */
  predicate Insertable(call: Call) {
    ParseKey(call.key).Some? && RowStorable(call)
  }

  function Replay(stored: StoredTransfer, r: CreateTransfer): Outcome {
    if stored.original != r then Refused(ErrIdempotencyConflict) else Reply(stored.transfer, false)
  }

  /** The row a new transfer is stored as. */
  function Stored(call: Call, id: Uuid, d: Draft): StoredTransfer
    requires ParseKey(call.key).Some?
  {
    StoredTransfer(NewRecord(call.request, KeyOf(call).uuid, id, d.status, d.reason), call.request)
  }

  function DebitEntry(r: CreateTransfer, id: Uuid, d: Draft): LedgerEntry
    requires r.amount > 0
  {
    LedgerEntry(id, r.from, -r.amount, d.source)
  }

  function CreditEntry(r: CreateTransfer, id: Uuid, d: Draft): LedgerEntry {
    LedgerEntry(id, r.to, r.amount, d.destination)
  }

  function SetBalance(rows: map<AccountId, Row>, id: AccountId, balance: int64): map<AccountId, Row>
    requires id in rows
  {
    rows[id := rows[id].(balance := balance)]
  }

  /** The database after a new transfer is stored and, when completed, its money moved. */
  function Settle(db: Database, call: Call, id: Uuid, d: Draft): Database
    requires ParseKey(call.key).Some?
    requires call.request.from in db.accounts && call.request.to in db.accounts
    requires call.request.amount > 0
  {
    var r := call.request;
    var transfers := db.transfers[KeyOf(call) := Stored(call, id, d)];
    if d.status != Completed then db.(transfers := transfers)
    else Database(
      SetBalance(SetBalance(db.accounts, r.from, d.source), r.to, d.destination),
      transfers,
      db.ledger + [DebitEntry(r, id, d), CreditEntry(r, id, d)])
  }

  /** Create, run alone. `id` is the UUID the database would draw for a new row. */
  function CreateAlone(db: Database, call: Call, id: Uuid): (Database, Outcome) {
    if Trim(call.user, IsSpace) == [] then (db, Refused(ErrForbidden))
    else if Validate(call.request).Some? then (db, Refused(ErrInvalidTransfer))
    else if !IdsStorable(call.request) then (db, Refused(ErrUnstorable))
    else
      match DecideOn(db.accounts, call)
      case Reject(e) => (db, Refused(e))
      case Accept(d) =>
        if ParseKey(call.key).None? then (db, Refused(ErrInvalidTransfer))
        else if !RowStorable(call) then (db, Refused(ErrUnstorable))
        else if KeyOf(call) in db.transfers then (db, Replay(db.transfers[KeyOf(call)], call.request))
        else (Settle(db, call, id, d), Reply(Stored(call, id, d).transfer, true))
  }

  /** No stored transfer has this id; gen_random_uuid() does not repeat. */
  ghost predicate FreshId(transfers: map<Key, StoredTransfer>, id: Uuid) {
    !IdStored(transfers, id)
  }

  predicate IdStored(transfers: map<Key, StoredTransfer>, id: Uuid) {
    exists k :: k in transfers && transfers[k].transfer.id == id
  }

  // ------------------------------------------------------------------ invariant of the database

  /** What the accounts table holds when a run starts: no overdraft, and text that a column can hold. */
  ghost predicate OpeningOk(opening: map<AccountId, Row>) {
    forall a :: a in opening ==> 0 <= opening[a].balance && Storable(a) && Storable(opening[a].user)
  }

  /** Accounts are never added, removed, re-owned or re-denominated, and never overdrawn. */
  ghost predicate AccountsOk(opening: map<AccountId, Row>, accounts: map<AccountId, Row>) {
    && accounts.Keys == opening.Keys
    && forall a :: a in accounts ==>
         && accounts[a].user == opening[a].user
         && accounts[a].currency == opening[a].currency
         && 0 <= accounts[a].balance
  }

  /** Everything the protocol promises of one stored transfer. */
  ghost predicate TransferOk(accounts: map<AccountId, Row>, k: Key, st: StoredTransfer) {
    var t, r := st.transfer, st.original;
    && k.uuid != 0
    && CallOk(Call(k.user, Some(k.uuid), r))
    && IdsStorable(r) && RowStorable(Call(k.user, Some(k.uuid), r))
    && t.key == k.uuid && t.from == r.from && t.to == r.to && t.amount == r.amount
    && t.currency == r.currency && t.description == r.description
    && (t.status == Completed || t.status == Failed)
    && (t.status == Failed <==> t.reason == InsufficientFunds)
    && r.from in accounts && r.to in accounts
    && accounts[r.from].user == k.user
    && accounts[r.from].currency == r.currency == accounts[r.to].currency
  }

  ghost predicate TransfersOk(accounts: map<AccountId, Row>, transfers: map<Key, StoredTransfer>) {
    && (forall k :: k in transfers ==> TransferOk(accounts, k, transfers[k]))
    && (forall j, k :: j in transfers && k in transfers && j != k ==>
          transfers[j].transfer.id != transfers[k].transfer.id)
  }

  /** Each account's entries are a running balance from its opening balance to its present one. */
  ghost predicate BooksOk(opening: map<AccountId, Row>, accounts: map<AccountId, Row>, ledger: seq<LedgerEntry>)
  {
    forall a :: a in accounts && a in opening ==>
      && Chained(opening[a].balance, ByAccount(ledger, a))
      && Closing(opening[a].balance, ByAccount(ledger, a)) == accounts[a].balance
  }

  /** These are the two sides of transfer t. */
  ghost predicate IsPair(t: Transfer, s: seq<LedgerEntry>) {
    && |s| == 2
    && s[0].transferId == t.id && s[0].accountId == t.from && s[0].amount + t.amount == 0
    && s[1].transferId == t.id && s[1].accountId == t.to && s[1].amount == t.amount
  }

  ghost predicate PairOk(ledger: seq<LedgerEntry>, t: Transfer) {
    if t.status == Completed then IsPair(t, ByTransfer(ledger, t.id)) else ByTransfer(ledger, t.id) == []
  }

  /** Completed transfers have exactly their two entries, other transfers none, and no entry is orphaned. */
  ghost predicate PairsOk(transfers: map<Key, StoredTransfer>, ledger: seq<LedgerEntry>) {
    && (forall k :: k in transfers ==> PairOk(ledger, transfers[k].transfer))
    && (forall i :: 0 <= i < |ledger| ==> IdStored(transfers, ledger[i].transferId))
  }

  ghost predicate DatabaseOk(opening: map<AccountId, Row>, db: Database) {
    && AccountsOk(opening, db.accounts)
    && TransfersOk(db.accounts, db.transfers)
    && BooksOk(opening, db.accounts, db.ledger)
    && PairsOk(db.transfers, db.ledger)
  }

  // ------------------------------------------------------------------ one step

  /** When a call stores a new transfer: well-formed, accepted on the rows, key valid and unused,
      text fit for the columns. */
  predicate Creates(db: Database, call: Call) {
    && CallOk(call) && IdsStorable(call.request)
    && DecideOn(db.accounts, call).Accept?
    && Insertable(call) && KeyOf(call) !in db.transfers
  }

  /** A call that does not create leaves every table as it was and never says created. */
  lemma OnlyCreatesChange(db: Database, call: Call, id: Uuid)
    ensures Creates(db, call) ==>
              var d := DecideOn(db.accounts, call).draft;
              CreateAlone(db, call, id) == (Settle(db, call, id, d), Reply(Stored(call, id, d).transfer, true))
    ensures !Creates(db, call) ==>
              CreateAlone(db, call, id).0 == db
              && (CreateAlone(db, call, id).1.Reply? ==> !CreateAlone(db, call, id).1.created)
  {
  }

  /** A rejected call is refused. */
  lemma RejectedAlone(db: Database, call: Call, id: Uuid, e: Error)
    requires CallOk(call) && IdsStorable(call.request) && DecideOn(db.accounts, call) == Reject(e)
    ensures CreateAlone(db, call, id) == (db, Refused(e)) && !Creates(db, call)
  {
  }

  /** How an accepted call that stores nothing is answered: bad key, bad text, or stored already. */
  function Unsettled(transfers: map<Key, StoredTransfer>, call: Call): Outcome
    requires Insertable(call) ==> KeyOf(call) in transfers
  {
    if ParseKey(call.key).None? then Refused(ErrInvalidTransfer)
    else if !RowStorable(call) then Refused(ErrUnstorable)
    else Replay(transfers[KeyOf(call)], call.request)
  }

  /** An accepted call is decided by its key and its text. */
  lemma AcceptedAlone(db: Database, call: Call, id: Uuid, d: Draft)
    requires CallOk(call) && IdsStorable(call.request) && DecideOn(db.accounts, call) == Accept(d)
    ensures Creates(db, call) <==> Insertable(call) && KeyOf(call) !in db.transfers
    ensures CreateAlone(db, call, id)
         == if Creates(db, call) then (Settle(db, call, id, d), Reply(Stored(call, id, d).transfer, true))
            else (db, Unsettled(db.transfers, call))
  {
  }

  /** What an accepted draft means: who may pay, in which currency, and what the balances become. */
  ghost predicate Sound(accounts: map<AccountId, Row>, call: Call, d: Draft) {
    var r := call.request;
    && r.from in accounts && r.to in accounts && r.from != r.to && r.amount > 0
    && accounts[r.from].user == call.user
    && accounts[r.from].currency == r.currency == accounts[r.to].currency
    && (if r.amount <= accounts[r.from].balance then
          && d.status == Completed && d.reason == NoReason
          && d.source + r.amount == accounts[r.from].balance
          && d.destination - r.amount == accounts[r.to].balance
        else
          && d.status == Failed && d.reason == InsufficientFunds
          && d.source == accounts[r.from].balance && d.destination == accounts[r.to].balance)
  }

  lemma AcceptedIsSound(accounts: map<AccountId, Row>, call: Call, d: Draft)
    requires CallOk(call) && DecideOn(accounts, call) == Accept(d)
    ensures Sound(accounts, call, d)
  {
  }

  lemma SettleKeepsAccounts(opening: map<AccountId, Row>, db: Database, call: Call, id: Uuid, d: Draft)
    requires AccountsOk(opening, db.accounts) && Sound(db.accounts, call, d) && ParseKey(call.key).Some?
    ensures AccountsOk(opening, Settle(db, call, id, d).accounts)
  {
  }

  /** Same accounts, owners and currencies; only balances may differ. */
  ghost predicate SameHolders(before: map<AccountId, Row>, after: map<AccountId, Row>) {
    && before.Keys == after.Keys
    && forall a :: a in before ==> before[a].user == after[a].user && before[a].currency == after[a].currency
  }

  lemma TransferOkFrame(before: map<AccountId, Row>, after: map<AccountId, Row>, k: Key, st: StoredTransfer)
    requires SameHolders(before, after) && TransferOk(before, k, st)
    ensures TransferOk(after, k, st)
  {
    assert st.original.from in before && st.original.to in before;
  }

  lemma NewTransferOk(accounts: map<AccountId, Row>, call: Call, id: Uuid, d: Draft)
    requires Sound(accounts, call, d) && CallOk(call) && IdsStorable(call.request) && Insertable(call)
    ensures TransferOk(accounts, KeyOf(call), Stored(call, id, d))
  {
    assert call == Call(call.user, Some(KeyOf(call).uuid), call.request);
  }

  lemma SettleKeepsTransfers(db: Database, call: Call, id: Uuid, d: Draft)
    requires TransfersOk(db.accounts, db.transfers) && Sound(db.accounts, call, d)
    requires CallOk(call) && IdsStorable(call.request) && Insertable(call)
    requires KeyOf(call) !in db.transfers && FreshId(db.transfers, id)
    ensures var db' := Settle(db, call, id, d); TransfersOk(db'.accounts, db'.transfers)
  {
    var db' := Settle(db, call, id, d);
    assert SameHolders(db.accounts, db'.accounts);
    NewTransferOk(db.accounts, call, id, d);
    TransfersOkAdd(db.accounts, db'.accounts, db.transfers, KeyOf(call), Stored(call, id, d));
  }

  lemma TransfersOkAdd(before: map<AccountId, Row>, after: map<AccountId, Row>,
                       transfers: map<Key, StoredTransfer>, key: Key, st: StoredTransfer)
    requires SameHolders(before, after) && TransfersOk(before, transfers)
    requires key !in transfers && FreshId(transfers, st.transfer.id) && TransferOk(before, key, st)
    ensures TransfersOk(after, transfers[key := st])
  {
    var transfers' := transfers[key := st];
    forall k | k in transfers'
      ensures TransferOk(after, k, transfers'[k])
    {
      TransferOkFrame(before, after, k, transfers'[k]);
    }
  }

  /** One account's books after a completed transfer. */
  lemma AccountBooksKept(opening: int, db: Database, call: Call, id: Uuid, d: Draft, a: AccountId)
    requires Sound(db.accounts, call, d) && d.status == Completed && a in db.accounts
    requires Chained(opening, ByAccount(db.ledger, a))
    requires Closing(opening, ByAccount(db.ledger, a)) == db.accounts[a].balance
    ensures var s := ByAccount(db.ledger + [DebitEntry(call.request, id, d), CreditEntry(call.request, id, d)], a);
            && Chained(opening, s)
            && Closing(opening, s) == (if a == call.request.from then d.source
                                       else if a == call.request.to then d.destination
                                       else db.accounts[a].balance)
  {
    var r, s := call.request, ByAccount(db.ledger, a);
    var debit, credit := DebitEntry(r, id, d), CreditEntry(r, id, d);
    PairByAccount(db.ledger, debit, credit, a);
    if a == r.from {
      ChainedSnoc(opening, s, debit);
    } else if a == r.to {
      ChainedSnoc(opening, s, credit);
    } else {
      assert s + [] == s;
    }
  }

  lemma SettleKeepsBooks(opening: map<AccountId, Row>, db: Database, call: Call, id: Uuid, d: Draft)
    requires BooksOk(opening, db.accounts, db.ledger) && Sound(db.accounts, call, d) && ParseKey(call.key).Some?
    ensures var db' := Settle(db, call, id, d); BooksOk(opening, db'.accounts, db'.ledger)
  {
    if d.status == Completed {
      forall a | a in db.accounts && a in opening
        ensures var db' := Settle(db, call, id, d);
                && Chained(opening[a].balance, ByAccount(db'.ledger, a))
                && Closing(opening[a].balance, ByAccount(db'.ledger, a)) == db'.accounts[a].balance
      {
        AccountBooksKept(opening[a].balance, db, call, id, d, a);
      }
    }
  }

  lemma PairByAccount(ledger: seq<LedgerEntry>, debit: LedgerEntry, credit: LedgerEntry, a: AccountId)
    requires debit.accountId != credit.accountId
    ensures ByAccount(ledger + [debit, credit], a)
         == ByAccount(ledger, a)
            + (if a == debit.accountId then [debit] else if a == credit.accountId then [credit] else [])
  {
    assert ledger + [debit, credit] == (ledger + [debit]) + [credit];
    ByAccountSnoc(ledger, debit, a);
    ByAccountSnoc(ledger + [debit], credit, a);
  }

  lemma PairByTransfer(ledger: seq<LedgerEntry>, debit: LedgerEntry, credit: LedgerEntry, id: Uuid)
    requires debit.transferId == credit.transferId
    ensures ByTransfer(ledger + [debit, credit], id)
         == ByTransfer(ledger, id) + (if id == debit.transferId then [debit, credit] else [])
  {
    assert ledger + [debit, credit] == (ledger + [debit]) + [credit];
    ByTransferSnoc(ledger, debit, id);
    ByTransferSnoc(ledger + [debit], credit, id);
  }

  lemma NoEntriesOfFreshId(transfers: map<Key, StoredTransfer>, ledger: seq<LedgerEntry>, id: Uuid)
    requires PairsOk(transfers, ledger) && FreshId(transfers, id)
    ensures ByTransfer(ledger, id) == []
  {
    var s := ByTransfer(ledger, id);
    if s != [] {
      ByTransferMember(ledger, id, s[0]);
      assert false;
    }
  }

  /** Appending a pair under a fresh id leaves the entries of every stored transfer alone. */
  lemma SettleKeepsPairs(db: Database, call: Call, id: Uuid, d: Draft)
    requires PairsOk(db.transfers, db.ledger) && FreshId(db.transfers, id) && Sound(db.accounts, call, d)
    requires ParseKey(call.key).Some? && KeyOf(call) !in db.transfers
    ensures var db' := Settle(db, call, id, d); PairsOk(db'.transfers, db'.ledger)
  {
    NoEntriesOfFreshId(db.transfers, db.ledger, id);
    var db', r := Settle(db, call, id, d), call.request;
    var key := KeyOf(call);
    var debit, credit := DebitEntry(r, id, d), CreditEntry(r, id, d);
    PairByTransfer(db.ledger, debit, credit, id);
    assert PairOk(db'.ledger, db'.transfers[key].transfer);
    forall k | k in db.transfers
      ensures PairOk(db'.ledger, db.transfers[k].transfer)
    {
      PairByTransfer(db.ledger, debit, credit, db.transfers[k].transfer.id);
      assert PairOk(db.ledger, db.transfers[k].transfer);
    }
    NoOrphans(db, db', key, id);
  }

  lemma NoOrphans(db: Database, db': Database, key: Key, id: Uuid)
    requires PairsOk(db.transfers, db.ledger)
    requires key !in db.transfers && key in db'.transfers && db'.transfers[key].transfer.id == id
    requires forall k :: k in db.transfers ==> k in db'.transfers && db'.transfers[k] == db.transfers[k]
    requires db.ledger <= db'.ledger
    requires forall i :: |db.ledger| <= i < |db'.ledger| ==> db'.ledger[i].transferId == id
    ensures forall i :: 0 <= i < |db'.ledger| ==> IdStored(db'.transfers, db'.ledger[i].transferId)
  {
    forall i | 0 <= i < |db'.ledger|
      ensures IdStored(db'.transfers, db'.ledger[i].transferId)
    {
      if i < |db.ledger| {
        assert db'.ledger[i] == db.ledger[i];
        assert IdStored(db.transfers, db.ledger[i].transferId);
      }
    }
  }

  /** Create keeps the whole database invariant. */
  lemma CreateKeepsDatabaseOk(opening: map<AccountId, Row>, db: Database, call: Call, id: Uuid)
    requires DatabaseOk(opening, db)
    requires Creates(db, call) ==> FreshId(db.transfers, id)
    ensures DatabaseOk(opening, CreateAlone(db, call, id).0)
  {
    OnlyCreatesChange(db, call, id);
    if Creates(db, call) {
      var d := DecideOn(db.accounts, call).draft;
      AcceptedIsSound(db.accounts, call, d);
      SettleKeepsAccounts(opening, db, call, id, d);
      SettleKeepsTransfers(db, call, id, d);
      SettleKeepsBooks(opening, db, call, id, d);
      SettleKeepsPairs(db, call, id, d);
    }
  }

  /** Stored transfers are never altered or removed, and the ledger is only appended to. */
  lemma HistoryIsImmutable(db: Database, call: Call, id: Uuid)
    ensures var db' := CreateAlone(db, call, id).0;
            && (forall k :: k in db.transfers ==> k in db'.transfers && db'.transfers[k] == db.transfers[k])
            && db.ledger <= db'.ledger
  {
    OnlyCreatesChange(db, call, id);
  }

  /** A retry whose debit would now succeed and whose credit would overflow. */
  predicate CreditOverflows(accounts: map<AccountId, Row>, r: CreateTransfer)
    requires r.from in accounts && r.to in accounts
  {
    accounts[r.from].balance >= r.amount && accounts[r.to].balance > MAX_INT64 - r.amount
  }

  // ------------------------------------------------------------------ which answer, and when

  ghost predicate Owned(accounts: map<AccountId, Row>, call: Call) {
    call.request.from in accounts && accounts[call.request.from].user == call.user
  }

  /** The rows let the call through: own source, known destination, one currency, room for the credit. */
  ghost predicate Acceptable(accounts: map<AccountId, Row>, call: Call) {
    var r := call.request;
    && Owned(accounts, call) && r.to in accounts
    && accounts[r.from].currency == r.currency == accounts[r.to].currency
    && !CreditOverflows(accounts, r)
  }

  /** A valid call whose account ids can be looked up. */
  ghost predicate Askable(call: Call) {
    ValidCall(call) && !HasNul(call.request.from) && !HasNul(call.request.to)
  }

  ghost predicate HasKey(call: Call) {
    call.key.Some? && call.key.value != 0
  }

  /** The INSERT is sent and received: the rows accept the call, its key and its text are fit for it. */
  ghost predicate Received(accounts: map<AccountId, Row>, call: Call) {
    && Askable(call) && Acceptable(accounts, call) && HasKey(call)
    && !HasNul(call.user) && !HasNul(call.request.description)
  }

  /** The caller's key is taken: each of a user's UUIDs is a key of its own. */
  ghost predicate Taken(db: Database, call: Call) {
    HasKey(call) && Key(call.user, call.key.value) in db.transfers
  }

  /** The refusals that come before the key matters, each exactly when it applies. A caller who does
      not own the source gets one answer whether or not the account exists, and learns about the
      destination, the currencies and its limit only on a source of their own. */
  ghost predicate RefusedOnRows(accounts: map<AccountId, Row>, call: Call, out: Outcome) {
    var r := call.request;
    var owned := Askable(call) && Owned(accounts, call);
    var found := owned && r.to in accounts;
    var matched := found && accounts[r.from].currency == r.currency == accounts[r.to].currency;
    && (out == Refused(ErrForbidden) <==> !HasVisible(call.user) || (Askable(call) && !owned))
    && (out == Refused(ErrDestinationNotFound) <==> owned && !found)
    && (out == Refused(ErrCurrencyMismatch) <==> found && !matched)
    && (out == Refused(ErrBalanceOverflow) <==> matched && CreditOverflows(accounts, r))
  }

  /** The other answers, each exactly when it applies: an invalid request or key, text with U+0000
      (before the stored key is looked at), another request under the key, the transfer stored under
      it, and otherwise a new one. */
  ghost predicate AnsweredOnKey(db: Database, call: Call, out: Outcome) {
    var r, received := call.request, Received(db.accounts, call);
    var accepted := Askable(call) && Acceptable(db.accounts, call);
    && (out == Refused(ErrInvalidTransfer) <==>
          HasVisible(call.user) && (!ValidRequest(r) || (accepted && !HasKey(call))))
    && (out == Refused(ErrUnstorable) <==>
          ValidCall(call) && (!Askable(call) || (accepted && HasKey(call) && !received)))
    && (out == Refused(ErrIdempotencyConflict) <==>
          received && Taken(db, call) && db.transfers[Key(call.user, call.key.value)].original != r)
    && (received && Taken(db, call) && db.transfers[Key(call.user, call.key.value)].original == r ==>
          out == Reply(db.transfers[Key(call.user, call.key.value)].transfer, false))
    && (received && !Taken(db, call) <==> out.Reply? && out.created)
    && (out.Reply? ==> received)
  }

  /** The tests of the code, in terms of characters. */
  lemma TestsMeaning(call: Call)
    ensures CallOk(call) <==> ValidCall(call)
    ensures CallOk(call) && IdsStorable(call.request) <==> Askable(call)
    ensures RowStorable(call) <==> !HasNul(call.user) && !HasNul(call.request.description)
    ensures Trim(call.user, IsSpace) == [] <==> !HasVisible(call.user)
  {
    CallOkMeaning(call);
    TrimSpaceMeaning(call.user);
    StorableMeaning(call.request.from);
    StorableMeaning(call.request.to);
    StorableMeaning(call.user);
    StorableMeaning(call.request.description);
  }

  /** A call that is not looked up at all. */
  lemma UnaskedAlone(db: Database, call: Call, id: Uuid)
    requires !Askable(call)
    ensures CreateAlone(db, call, id).1
         == Refused(if !HasVisible(call.user) then ErrForbidden
                    else if !ValidRequest(call.request) then ErrInvalidTransfer
                    else ErrUnstorable)
  {
    TestsMeaning(call);
    assert Trim(call.user, IsSpace) != [] ==> (Validate(call.request).None? <==> ValidRequest(call.request));
  }

  /** What Decide settles, in terms of the rows. */
  lemma DecisionMeaning(accounts: map<AccountId, Row>, call: Call)
    requires call.request.amount > 0
    ensures var r, d := call.request, DecideOn(accounts, call);
            var found := Owned(accounts, call) && r.to in accounts;
            var matched := found && accounts[r.from].currency == r.currency == accounts[r.to].currency;
            && (d == Reject(ErrForbidden) <==> !Owned(accounts, call))
            && (d == Reject(ErrDestinationNotFound) <==> Owned(accounts, call) && !found)
            && (d == Reject(ErrCurrencyMismatch) <==> found && !matched)
            && (d == Reject(ErrBalanceOverflow) <==> matched && CreditOverflows(accounts, r))
            && (d.Accept? <==> Acceptable(accounts, call))
  {
  }

  /** A call that is looked up. */
  lemma AskedAlone(db: Database, call: Call, id: Uuid)
    requires Askable(call)
    ensures Creates(db, call) <==> Received(db.accounts, call) && !Taken(db, call)
    ensures var d, out := DecideOn(db.accounts, call), CreateAlone(db, call, id).1;
            if d.Reject? then out == Refused(d.error)
            else if !HasKey(call) then out == Refused(ErrInvalidTransfer)
            else if HasNul(call.user) || HasNul(call.request.description) then out == Refused(ErrUnstorable)
            else if Taken(db, call) then out == Replay(db.transfers[Key(call.user, call.key.value)], call.request)
            else out.Reply? && out.created
  {
    TestsMeaning(call);
    DecisionMeaning(db.accounts, call);
    match DecideOn(db.accounts, call)
    case Reject(e) => RejectedAlone(db, call, id, e);
    case Accept(d) => AcceptedAlone(db, call, id, d);
  }

  lemma RefusalReasons(db: Database, call: Call, id: Uuid)
    ensures RefusedOnRows(db.accounts, call, CreateAlone(db, call, id).1)
  {
    if Askable(call) {
      AskedAlone(db, call, id);
      DecisionMeaning(db.accounts, call);
    } else {
      UnaskedAlone(db, call, id);
    }
  }

  lemma AnswerReasons(db: Database, call: Call, id: Uuid)
    ensures AnsweredOnKey(db, call, CreateAlone(db, call, id).1)
  {
    if Askable(call) {
      AskedAlone(db, call, id);
      DecisionMeaning(db.accounts, call);
    } else {
      UnaskedAlone(db, call, id);
    }
  }

  /** A created transfer is the request's, under the caller's own user and UUID and the drawn id, and
      is stored there and nowhere else; it completes exactly when the source can pay. */
  lemma CreatedIsTheRequest(db: Database, call: Call, id: Uuid)
    requires CreateAlone(db, call, id).1.Reply? && CreateAlone(db, call, id).1.created
    ensures HasKey(call) && call.request.from in db.accounts
    ensures var t, r := CreateAlone(db, call, id).1.transfer, call.request;
            && t.id == id && t.key == call.key.value
            && t.from == r.from && t.to == r.to && t.amount == r.amount
            && t.currency == r.currency && t.description == r.description
            && (t.status == Completed && t.reason == NoReason <==> r.amount <= db.accounts[r.from].balance)
            && (t.status == Failed && t.reason == InsufficientFunds <==> r.amount > db.accounts[r.from].balance)
            && CreateAlone(db, call, id).0.transfers
               == db.transfers[Key(call.user, call.key.value) := StoredTransfer(t, r)]
  {
    OnlyCreatesChange(db, call, id);
  }

  /** A text column or JSON value is sent U+0000: an account id always, and the description of a call
      that its rows let through and whose key parses, first time or retry. */
  ghost predicate TextFails(accounts: map<AccountId, Row>, call: Call) {
    ValidCall(call) &&
    (!Askable(call) || (Acceptable(accounts, call) && HasKey(call) && HasNul(call.request.description)))
  }

  /** Run alone on a healthy database, a call fails over its text exactly then. */
  lemma TextFailsExactly(opening: map<AccountId, Row>, db: Database, call: Call, id: Uuid)
    requires OpeningOk(opening) && AccountsOk(opening, db.accounts)
    ensures CreateAlone(db, call, id).1 == Refused(ErrUnstorable) <==> TextFails(db.accounts, call)
  {
    AnswerReasons(db, call, id);
    StorableMeaning(call.user);
    assert Owned(db.accounts, call) ==> Storable(call.user);
  }

  /** The refusals a caller can earn. */
  predicate IsBusinessError(e: Error) {
    || e.ErrForbidden? || e.ErrInvalidTransfer? || e.ErrDestinationNotFound?
    || e.ErrCurrencyMismatch? || e.ErrBalanceOverflow? || e.ErrIdempotencyConflict?
  }

  /** Run alone, Create refuses for business reasons or over its text, and nothing else. */
  lemma RefusalsAlone(db: Database, call: Call, id: Uuid, e: Error)
    requires CreateAlone(db, call, id).1 == Refused(e)
    ensures IsBusinessError(e) || e == ErrUnstorable
  {
  }

  // ------------------------------------------------------------------ what a caller can learn

  /** The two databases hold the same accounts of this user. */
  ghost predicate SameOwn(user: UserId, accounts: map<AccountId, Row>, accounts': map<AccountId, Row>) {
    forall a ::
      && (a in accounts && accounts[a].user == user ==> a in accounts' && accounts'[a] == accounts[a])
      && (a in accounts' && accounts'[a].user == user ==> a in accounts && accounts[a] == accounts'[a])
  }

  ghost predicate SameUnderKey(call: Call, db: Database, db': Database) {
    HasKey(call) ==>
      var key := Key(call.user, call.key.value);
      if key in db.transfers then key in db'.transfers && db.transfers[key] == db'.transfers[key]
      else key !in db'.transfers
  }

  /** What the answer shows of the destination: that it exists, whether it has the currency, and
      whether the amount would overflow it. */
  ghost predicate SameDestination(r: CreateTransfer, accounts: map<AccountId, Row>, accounts': map<AccountId, Row>) {
    if r.to in accounts then
      && r.to in accounts'
      && (accounts[r.to].currency == r.currency <==> accounts'[r.to].currency == r.currency)
      && (accounts[r.to].balance + r.amount > MAX_INT64 <==> accounts'[r.to].balance + r.amount > MAX_INT64)
    else r.to !in accounts'
  }

  /** A caller's answer depends on nothing but their own accounts, the transfer stored under their key
      and, on a source of their own, those three facts about the destination: no other account, no
      other user's transfer, no ledger row and no exact balance of the destination shows. */
  lemma AnswersRevealOnly(db: Database, db': Database, call: Call, id: Uuid)
    requires SameOwn(call.user, db.accounts, db'.accounts) && SameUnderKey(call, db, db')
    requires Owned(db.accounts, call) ==> SameDestination(call.request, db.accounts, db'.accounts)
    ensures CreateAlone(db, call, id).1 == CreateAlone(db', call, id).1
  {
    if CallOk(call) && IdsStorable(call.request) {
      SameVerdict(db.accounts, db'.accounts, call);
      match DecideOn(db.accounts, call)
      case Reject(e) =>
        RejectedAlone(db, call, id, e);
        RejectedAlone(db', call, id, e);
      case Accept(d) =>
        AcceptedAlone(db, call, id, d);
        AcceptedAlone(db', call, id, DecideOn(db'.accounts, call).draft);
    }
  }

  /** The same rejection, or drafts that differ at most in the destination's new balance. */
  lemma SameVerdict(accounts: map<AccountId, Row>, accounts': map<AccountId, Row>, call: Call)
    requires SameOwn(call.user, accounts, accounts')
    requires Owned(accounts, call) ==> SameDestination(call.request, accounts, accounts')
    ensures var a, b := DecideOn(accounts, call), DecideOn(accounts', call);
            if a.Reject? then b == a
            else b.Accept? && b.draft.status == a.draft.status && b.draft.reason == a.draft.reason
  {
  }

  // ------------------------------------------------------------------ retries

  lemma OtherRequestRefused(db: Database, call: Call, id: Uuid)
    requires ParseKey(call.key).Some? && KeyOf(call) in db.transfers
    requires db.transfers[KeyOf(call)].original != call.request
    ensures CreateAlone(db, call, id).1.Refused?
  {
    if CallOk(call) && IdsStorable(call.request) {
      match DecideOn(db.accounts, call)
      case Reject(e) => RejectedAlone(db, call, id, e);
      case Accept(d) => AcceptedAlone(db, call, id, d);
    }
  }

  lemma SameRequestAnswered(db: Database, call: Call, id: Uuid)
    requires ParseKey(call.key).Some? && KeyOf(call) in db.transfers && CallOk(call)
    requires TransferOk(db.accounts, KeyOf(call), db.transfers[KeyOf(call)])
    requires db.transfers[KeyOf(call)].original == call.request
    ensures call.request.from in db.accounts && call.request.to in db.accounts
    ensures CreateAlone(db, call, id).1
         == if CreditOverflows(db.accounts, call.request) then Refused(ErrBalanceOverflow)
            else Reply(db.transfers[KeyOf(call)].transfer, false)
  {
    match DecideOn(db.accounts, call)
    case Reject(e) => RejectedAlone(db, call, id, e);
    case Accept(d) => AcceptedAlone(db, call, id, d);
  }

  /** Repeating a stored key: the stored transfer comes back with created = false, except exactly
      when the credit check, which runs before the key is looked up, overflows. A different
      request under the key is always an error. Nothing changes either way. */
  lemma RetryIsStable(opening: map<AccountId, Row>, db: Database, call: Call, id: Uuid)
    requires DatabaseOk(opening, db)
    requires call.key.Some? && Key(call.user, call.key.value) in db.transfers
    ensures CreateAlone(db, call, id).0 == db
    ensures var st, out := db.transfers[Key(call.user, call.key.value)], CreateAlone(db, call, id).1;
            && (st.original == call.request ==>
                  && call.request.from in db.accounts && call.request.to in db.accounts
                  && (out == Reply(st.transfer, false) <==> !CreditOverflows(db.accounts, call.request))
                  && (out == Refused(ErrBalanceOverflow) <==> CreditOverflows(db.accounts, call.request)))
            && (st.original != call.request ==> out.Refused?)
  {
    OnlyCreatesChange(db, call, id);
    assert TransferOk(db.accounts, Key(call.user, call.key.value), db.transfers[Key(call.user, call.key.value)]);
    assert KeyOf(call) == Key(call.user, call.key.value);
    if db.transfers[KeyOf(call)].original == call.request {
      assert call == Call(call.user, Some(KeyOf(call).uuid), call.request);
      SameRequestAnswered(db, call, id);
    } else {
      OtherRequestRefused(db, call, id);
    }
  }
}
