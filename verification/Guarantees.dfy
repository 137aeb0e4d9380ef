/** The service's promises, for every run: any number of calls, any interleaving of their statements,
    aborts anywhere and lost commit acknowledgements. */
module Guarantees {
  import opened Domain
  import opened Text
  import opened Utf8
  import opened Validation
  import opened Ledger
  import opened Transfers
  import opened History
  import opened Protocol
  import opened Invariant
  import opened Refinement
  import opened Safety
  import opened Runs
  import opened Http
  import opened Service
  import opened LockPlan

  /** Serializability: the tables, and every answer given, are those of serving the calls of the log
      alone, one at a time, in the order they were decided; and the log holds calls of the run, each
      at most once. */
  lemma Serializable(s0: State, run: seq<Event>)
    requires Initial(s0) && Executes(s0, run)
    ensures var s, log := After(s0, run), LogOf(s0, run);
            var db := Replayed(s0.accounts, log);
            && Explained(s0.accounts, log)
            && s.accounts == db.accounts && s.transfers == db.transfers
            && (forall a :: Statement(s, a) == ByAccount(db.ledger, a))
            && (forall t :: t in s.txns && s.txns[t].phase.Done? && s.txns[t].phase.outcome != Refused(ErrUnavailable)
                  ==> InLog(log, t, s.txns[t].call, s.txns[t].phase.outcome))
            && (forall i :: 0 <= i < |log| ==> var t := log[i].txn;
                  t in s.txns && s.txns[t].phase.Done? && s.txns[t].call == log[i].call)
            && (forall i, j :: 0 <= i < j < |log| ==> log[i].txn != log[j].txn)
  {
    EveryRunIsSafe(s0, run);
  }

  /** The serial database behind a reachable state, with its invariant. */
  lemma Behind(s0: State, run: seq<Event>)
    requires Initial(s0) && Executes(s0, run)
    ensures DatabaseOk(s0.accounts, Replayed(s0.accounts, LogOf(s0, run)))
    ensures Refines(s0.accounts, LogOf(s0, run), After(s0, run))
  {
    EveryRunIsSafe(s0, run);
    ReplayedOk(s0.accounts, LogOf(s0, run));
  }

  /** Where the log records the answer of an ended transaction. */
  lemma LogEntryOf(s0: State, run: seq<Event>, t: TxnId) returns (i: nat)
    requires Initial(s0) && Executes(s0, run) && t in After(s0, run).txns
    requires var p := After(s0, run).txns[t].phase; p.Done? && p.outcome != Refused(ErrUnavailable)
    ensures var log, x := LogOf(s0, run), After(s0, run).txns[t];
            i < |log| && log[i].txn == t && log[i].call == x.call && log[i].outcome == x.phase.outcome
    ensures Explained(s0.accounts, LogOf(s0, run))
    ensures After(s0, run).transfers == Replayed(s0.accounts, LogOf(s0, run)).transfers
  {
    EveryRunIsSafe(s0, run);
    var log, x := LogOf(s0, run), After(s0, run).txns[t];
    assert InLog(log, t, x.call, x.phase.outcome);
    i :| 0 <= i < |log| && log[i].txn == t && log[i].call == x.call && log[i].outcome == x.phase.outcome;
  }

  /** No lost update: whatever a transaction has read under lock is still the committed row; once it
      has decided, it holds both rows of its request. */
  lemma NoLostUpdate(s0: State, run: seq<Event>, t: TxnId)
    requires Initial(s0) && Executes(s0, run) && t in After(s0, run).txns
    ensures var s := After(s0, run); var x := s.txns[t];
            && (forall a :: a in x.copies ==> a in s.accounts && x.copies[a] == s.accounts[a])
            && (Open(x.phase) && !x.phase.Locking? ==> x.copies.Keys == {x.call.request.from, x.call.request.to})
            && (forall u :: u in s.txns && u != t ==> x.copies.Keys !! s.txns[u].copies.Keys)
  {
    EveryRunIsSafe(s0, run);
    var s := After(s0, run);
    var x := s.txns[t];
    assert TxnOk(s, x);
    if Open(x.phase) && !x.phase.Locking? {
      DecidedRows(s, x, x.phase.draft);
    }
    forall u | u in s.txns && u != t
      ensures x.copies.Keys !! s.txns[u].copies.Keys
    {
      assert Apart(x, s.txns[u]);
    }
  }

  /** The running balance: an account's entries, in id order, lead from its opening balance to its
      balance, each recording the balance before it plus its amount; so the ledger reconciles. */
  lemma RunningBalance(s0: State, run: seq<Event>, a: AccountId)
    requires Initial(s0) && Executes(s0, run) && a in s0.accounts
    ensures var s, opening := After(s0, run), s0.accounts[a].balance;
            && a in s.accounts
            && Chained(opening, Statement(s, a))
            && Closing(opening, Statement(s, a)) == s.accounts[a].balance
            && s.accounts[a].balance == opening + Sum(Statement(s, a))
  {
    Behind(s0, run);
    ChainedSum(s0.accounts[a].balance, Statement(After(s0, run), a));
  }

  /** Balances stay in range, and owners, currencies and accounts never change. */
  lemma BalancesInRange(s0: State, run: seq<Event>)
    requires Initial(s0) && Executes(s0, run)
    ensures After(s0, run).accounts.Keys == s0.accounts.Keys
    ensures forall a :: a in s0.accounts ==>
              && 0 <= After(s0, run).accounts[a].balance <= MAX_INT64
              && After(s0, run).accounts[a].user == s0.accounts[a].user
              && After(s0, run).accounts[a].currency == s0.accounts[a].currency
  {
    Behind(s0, run);
  }

  /** Money is conserved in every currency. */
  lemma Conserved(s0: State, run: seq<Event>, currency: string)
    requires Initial(s0) && Executes(s0, run)
    ensures Total(After(s0, run).accounts, currency) == Total(s0.accounts, currency)
  {
    Behind(s0, run);
    HistoryConserves(s0.accounts, LogOf(s0, run), currency);
  }

  /** Under any order of the rows, A to B and B to A lock the same rows in the same order. */
  lemma PlanIgnoresDirection(order: map<AccountId, nat>, r: CreateTransfer)
    requires forall a, b :: a in order && b in order && order[a] == order[b] ==> a == b
    ensures Plan(order, r) == Plan(order, r.(from := r.to, to := r.from))
    ensures IdsStorable(r) && r.from != r.to ==>
              && (forall a :: a in Plan(order, r) <==> (a == r.from || a == r.to) && a in order)
              && (forall i, j :: 0 <= i < j < |Plan(order, r)| ==> order[Plan(order, r)[i]] < order[Plan(order, r)[j]])
  {
  }

  /** The lock order of the protocol is the one LockForTransfer builds: when rows are ordered by the
      bytes of their ids, the plan is any strictly ascending list of the existing accounts named. */
  lemma PlanIsTheLockOrder(order: map<AccountId, nat>, r: CreateTransfer, locked: seq<AccountId>)
    requires forall a, b :: a in order && b in order ==> (order[a] < order[b] <==> Less(a, b))
    requires IdsStorable(r) && r.from != r.to
    requires Ascending(locked) && forall a :: a in locked <==> a in [r.from, r.to] && a in order
    ensures Plan(order, r) == locked
  {
    LessTotal(r.from, r.to);
    AscendingUnique(Plan(order, r), locked);
  }

  // ------------------------------------------------------------------ ledger and transfers

  lemma {:induction false} ScanMember(ledger: map<nat, LedgerEntry>, j: nat, limit: nat)
    requires j in ledger && j < limit
    ensures ledger[j] in InIdOrder(ledger, ledger[j].accountId, limit)
  {
    if j < limit - 1 {
      ScanMember(ledger, j, limit - 1);
    }
  }

  lemma PairSides(pair: seq<LedgerEntry>, a: AccountId)
    requires |pair| == 2 && pair[0].accountId != pair[1].accountId
    ensures ByAccount(pair, a)
         == if a == pair[0].accountId then [pair[0]] else if a == pair[1].accountId then [pair[1]] else []
  {
    assert pair == ([] + [pair[0]]) + [pair[1]];
    ByAccountSnoc([], pair[0], a);
    ByAccountSnoc([pair[0]], pair[1], a);
  }

  /** A completed transfer has exactly one entry on its source, for minus its amount, one on its
      destination, for its amount, and none elsewhere; any other stored transfer has none at all. */
  lemma LedgerMatchesTransfers(s0: State, run: seq<Event>, k: Key, a: AccountId)
    requires Initial(s0) && Executes(s0, run) && k in After(s0, run).transfers
    ensures var s := After(s0, run);
            var t := s.transfers[k].transfer;
            var mine := ByTransfer(Statement(s, a), t.id);
            if t.status == Completed && a == t.from then |mine| == 1 && mine[0].amount + t.amount == 0
            else if t.status == Completed && a == t.to then |mine| == 1 && mine[0].amount == t.amount
            else mine == []
  {
    Behind(s0, run);
    var db := Replayed(s0.accounts, LogOf(s0, run));
    var t := db.transfers[k].transfer;
    assert PairOk(db.ledger, t) && TransferOk(db.accounts, k, db.transfers[k]);
    ProjectionsCommute(db.ledger, a, t.id);
    if t.status == Completed {
      ValidateMeaning(db.transfers[k].original);
      PairSides(ByTransfer(db.ledger, t.id), a);
    }
  }

  /** Every committed ledger row is one side of a stored, completed transfer, and a debit is always
      on an account of the user who asked for the transfer. */
  lemma NoOrphanEntries(s0: State, run: seq<Event>, j: nat) returns (k: Key)
    requires Initial(s0) && Executes(s0, run) && j in After(s0, run).ledger
    ensures var s := After(s0, run); var e := s.ledger[j];
            && k in s.transfers
            && var t := s.transfers[k].transfer;
               && t.id == e.transferId && t.status == Completed
               && ((e.accountId == t.from && e.amount + t.amount == 0
                    && t.from in s.accounts && s.accounts[t.from].user == k.user)
                   || (e.accountId == t.to && e.amount == t.amount))
  {
    EveryRunIsSafe(s0, run);
    Behind(s0, run);
    var s := After(s0, run);
    var db, e := Replayed(s0.accounts, LogOf(s0, run)), s.ledger[j];
    ScanMember(s.ledger, j, s.nextEntryId);
    ByAccountMember(db.ledger, e.accountId, e);
    k := OwnerOf(s0.accounts, db, e);
  }

  /** An entry under a transfer's id is one of its two sides. */
  lemma EntryIsASide(ledger: seq<LedgerEntry>, t: Transfer, e: LedgerEntry)
    requires PairOk(ledger, t) && e in ledger && e.transferId == t.id
    ensures t.status == Completed
    ensures (e.accountId == t.from && e.amount + t.amount == 0) || (e.accountId == t.to && e.amount == t.amount)
  {
    ByTransferMember(ledger, t.id, e);
  }

  lemma OwnerOf(opening: map<AccountId, Row>, db: Database, e: LedgerEntry) returns (k: Key)
    requires DatabaseOk(opening, db) && e in db.ledger
    ensures k in db.transfers
    ensures var t := db.transfers[k].transfer;
            && t.id == e.transferId && t.status == Completed
            && ((e.accountId == t.from && e.amount + t.amount == 0
                 && t.from in db.accounts && db.accounts[t.from].user == k.user)
                || (e.accountId == t.to && e.amount == t.amount))
  {
    k := RowOf(db.transfers, db.ledger, e);
    EntryIsASide(db.ledger, db.transfers[k].transfer, e);
    SourceIsOwned(db.accounts, k, db.transfers[k]);
  }

  lemma RowOf(transfers: map<Key, StoredTransfer>, ledger: seq<LedgerEntry>, e: LedgerEntry) returns (k: Key)
    requires PairsOk(transfers, ledger) && e in ledger
    ensures k in transfers && transfers[k].transfer.id == e.transferId
  {
    var i :| 0 <= i < |ledger| && ledger[i] == e;
    assert IdStored(transfers, ledger[i].transferId);
    k :| k in transfers && transfers[k].transfer.id == e.transferId;
  }

  lemma SourceIsOwned(accounts: map<AccountId, Row>, k: Key, st: StoredTransfer)
    requires TransferOk(accounts, k, st)
    ensures st.transfer.from in accounts && accounts[st.transfer.from].user == k.user
  {
  }

  // ------------------------------------------------------------------ answers

  /** An answered transfer is committed: its row, under the caller's key, with the caller's request. */
  lemma AnswersAreCommitted(s0: State, run: seq<Event>, t: TxnId)
    requires Initial(s0) && Executes(s0, run) && t in After(s0, run).txns
    requires var p := After(s0, run).txns[t].phase; p.Done? && p.outcome.Reply?
    ensures var s := After(s0, run); var x := s.txns[t];
            && HasKey(x.call)
            && var k := Key(x.call.user, x.call.key.value);
               k in s.transfers && s.transfers[k] == StoredTransfer(x.phase.outcome.transfer, x.call.request)
  {
    var i := LogEntryOf(s0, run, t);
    RepliesNameTheStoredTransfer(s0.accounts, LogOf(s0, run), i);
  }

  /** Exactly once: among all calls ever served with one (user, key), lost acknowledgements
      included, at most one created the transfer. */
  lemma ExactlyOnce(s0: State, run: seq<Event>, i: nat, j: nat)
    requires Initial(s0) && Executes(s0, run)
    requires i < |LogOf(s0, run)| && j < |LogOf(s0, run)|
    requires var log := LogOf(s0, run);
             && log[i].outcome.Reply? && log[i].outcome.created
             && log[j].outcome.Reply? && log[j].outcome.created
             && SameKey(log[i].call, log[j].call)
    ensures i == j
  {
    EveryRunIsSafe(s0, run);
    CreatedOnce(s0.accounts, LogOf(s0, run), i, j);
  }

  ghost predicate Answers(s: State, t: TxnId, k: Key) {
    && t in s.txns && s.txns[t].phase.Done? && s.txns[t].phase.outcome.Reply?
    && s.txns[t].call.user == k.user && s.txns[t].call.key == Some(k.uuid)
  }

  /** Response history: all answers for one (user, key) carry the same transfer; either all are 422,
      or they are 200 except for at most one 201. */
  lemma ResponseHistory(s0: State, run: seq<Event>, k: Key, t: TxnId, u: TxnId)
    requires Initial(s0) && Executes(s0, run)
    requires Answers(After(s0, run), t, k) && Answers(After(s0, run), u, k)
    ensures var a, b := After(s0, run).txns[t].phase.outcome, After(s0, run).txns[u].phase.outcome;
            && a.transfer == b.transfer
            && StatusCode(a) in {200, 201, 422}
            && (StatusCode(a) == 422 <==> StatusCode(b) == 422)
            && (StatusCode(a) == 201 && StatusCode(b) == 201 ==> t == u)
  {
    AnswersAreCommitted(s0, run, t);
    AnswersAreCommitted(s0, run, u);
    var i := LogEntryOf(s0, run, t);
    var j := LogEntryOf(s0, run, u);
    var log := LogOf(s0, run);
    if log[i].outcome.created && log[j].outcome.created {
      CreatedOnce(s0.accounts, log, i, j);
    }
  }

  /** No CHECK, foreign key, row count or amount test refuses anything in any run: a 500 is an
      infrastructure failure or text that PostgreSQL cannot hold. */
  lemma ConstraintsNeverFire(s0: State, run: seq<Event>, t: TxnId, e: Error)
    requires Initial(s0) && Executes(s0, run) && t in After(s0, run).txns
    requires After(s0, run).txns[t].phase == Done(Refused(e))
    ensures e == ErrUnavailable || e == ErrUnstorable || IsBusinessError(e)
    ensures StatusCode(Refused(e)) == 500 <==> e == ErrUnavailable || e == ErrUnstorable
  {
    RunRefusals(s0, run, t, e);
    BusinessErrorsAreNot500(e);
  }

  lemma BusinessErrorsAreNot500(e: Error)
    requires e == ErrUnavailable || e == ErrUnstorable || IsBusinessError(e)
    ensures StatusCode(Refused(e)) == 500 <==> e == ErrUnavailable || e == ErrUnstorable
  {
  }

  lemma RunRefusals(s0: State, run: seq<Event>, t: TxnId, e: Error)
    requires Initial(s0) && Executes(s0, run) && t in After(s0, run).txns
    requires After(s0, run).txns[t].phase == Done(Refused(e))
    ensures e == ErrUnavailable || e == ErrUnstorable || IsBusinessError(e)
  {
    if e != ErrUnavailable {
      var i := LogEntryOf(s0, run, t);
      ExplainedRefusal(s0.accounts, LogOf(s0, run), i, e);
    }
  }

  /** When a call is answered 500: when it was aborted or its commit was not acknowledged, and
      otherwise exactly when its text, on the accounts at its place i in the serial order, makes a
      statement fail. */
  lemma ServerErrors(s0: State, run: seq<Event>, t: TxnId) returns (i: nat)
    requires Initial(s0) && Executes(s0, run) && t in After(s0, run).txns && After(s0, run).txns[t].phase.Done?
    ensures var x := After(s0, run).txns[t];
            if Faulted(run, t) then StatusCode(x.phase.outcome) == 500
            else
              && i < |LogOf(s0, run)| && LogOf(s0, run)[i].txn == t
              && (StatusCode(x.phase.outcome) == 500 <==>
                    TextFails(Replayed(s0.accounts, LogOf(s0, run)[..i]).accounts, x.call))
  {
    UnavailableExactlyOnFaults(s0, run, t);
    i := 0;
    if !Faulted(run, t) {
      i := LogEntryOf(s0, run, t);
      ServedServerError(s0.accounts, LogOf(s0, run), i);
    }
  }

  lemma ServedServerError(opening: map<AccountId, Row>, log: seq<Served>, i: nat)
    requires OpeningOk(opening) && Explained(opening, log) && i < |log|
    ensures StatusCode(log[i].outcome) == 500 <==> TextFails(Replayed(opening, log[..i]).accounts, log[i].call)
  {
    var db := Replayed(opening, log[..i]);
    ExplainedPrefix(opening, log, i);
    ReplayedOk(opening, log[..i]);
    assert Explains(db, log[i]);
    TextFailsExactly(opening, db, log[i].call, log[i].id);
    if log[i].outcome.Refused? {
      ExplainedRefusal(opening, log, i, log[i].outcome.error);
    }
  }

  // ------------------------------------------------------------------ history over time

  /** Immutable history: a stored transfer stays as it is for ever, is completed or failed, and is
      failed exactly when its reason is insufficient funds; what Get has shown it keeps showing. */
  lemma StoredTransfersAreFinal(s0: State, run: seq<Event>, n: nat, k: Key)
    requires Initial(s0) && Executes(s0, run) && n <= |run|
    requires Executes(s0, run[..n]) && k in After(s0, run[..n]).transfers
    ensures var s := After(s0, run);
            && k in s.transfers && s.transfers[k] == After(s0, run[..n]).transfers[k]
            && (s.transfers[k].transfer.status == Completed || s.transfers[k].transfer.status == Failed)
            && (s.transfers[k].transfer.status == Failed <==> s.transfers[k].transfer.reason == InsufficientFunds)
            && FindById(s.transfers, k.user, Some(s.transfers[k].transfer.id)) == Some(s.transfers[k].transfer)
  {
    RunPrefix(s0, run, n);
    TransfersBehind(s0, run[..n]);
    TransfersBehind(s0, run);
    var log, early := LogOf(s0, run), LogOf(s0, run[..n]);
    assert log[..|early|] == early;
    StoredForever(s0.accounts, log, |early|, k);
    StoredIsFinalIn(s0, run, k);
  }

  lemma TransfersBehind(s0: State, run: seq<Event>)
    requires Initial(s0) && Executes(s0, run)
    ensures After(s0, run).transfers == Replayed(s0.accounts, LogOf(s0, run)).transfers
  {
    EveryRunIsSafe(s0, run);
  }

  lemma StoredIsFinalIn(s0: State, run: seq<Event>, k: Key)
    requires Initial(s0) && Executes(s0, run) && k in After(s0, run).transfers
    ensures var s := After(s0, run);
            && (s.transfers[k].transfer.status == Completed || s.transfers[k].transfer.status == Failed)
            && (s.transfers[k].transfer.status == Failed <==> s.transfers[k].transfer.reason == InsufficientFunds)
            && FindById(s.transfers, k.user, Some(s.transfers[k].transfer.id)) == Some(s.transfers[k].transfer)
  {
    Behind(s0, run);
    StoredIsFinal(s0.accounts, Replayed(s0.accounts, LogOf(s0, run)), k);
  }

  lemma StoredIsFinal(opening: map<AccountId, Row>, db: Database, k: Key)
    requires DatabaseOk(opening, db) && k in db.transfers
    ensures var t := db.transfers[k].transfer;
            && (t.status == Completed || t.status == Failed)
            && (t.status == Failed <==> t.reason == InsufficientFunds)
            && FindById(db.transfers, k.user, Some(t.id)) == Some(t)
  {
    assert TransferOk(db.accounts, k, db.transfers[k]);
    FindsTheRow(db.accounts, db.transfers, k);
  }

  /** Retry stability in every reachable state. Served now, a call whose key is stored changes
      nothing. With the stored request it gets the stored transfer, except exactly when the source
      could pay again and the destination would pass the 64-bit maximum, which gives the overflow
      error; with another request it gets an error. */
  lemma RetryInReachableState(s0: State, run: seq<Event>, call: Call, id: Uuid)
    requires Initial(s0) && Executes(s0, run)
    requires call.key.Some? && Key(call.user, call.key.value) in After(s0, run).transfers
    ensures var s, db := After(s0, run), Replayed(s0.accounts, LogOf(s0, run));
            var st, r := s.transfers[Key(call.user, call.key.value)], call.request;
            && CreateAlone(db, call, id).0 == db
            && (st.original != r ==> CreateAlone(db, call, id).1.Refused?)
            && (st.original == r ==>
                  && r.from in s.accounts && r.to in s.accounts
                  && CreateAlone(db, call, id).1
                     == if CreditOverflows(s.accounts, r) then Refused(ErrBalanceOverflow)
                        else Reply(st.transfer, false))
  {
    Behind(s0, run);
    RetryIsStable(s0.accounts, Replayed(s0.accounts, LogOf(s0, run)), call, id);
  }

  /** The same over time: what the calls of a run that come after a reply to their key are answered. */
  lemma RetriesInRun(s0: State, run: seq<Event>, i: nat, j: nat)
    requires Initial(s0) && Executes(s0, run) && i < j < |LogOf(s0, run)|
    requires var log := LogOf(s0, run);
             log[i].outcome.Reply? && SameKey(log[i].call, log[j].call)
    ensures var log := LogOf(s0, run);
            var accounts, r := Replayed(s0.accounts, log[..j]).accounts, log[j].call.request;
            if r == log[i].call.request then
              && r.from in accounts && r.to in accounts
              && log[j].outcome == if CreditOverflows(accounts, r) then Refused(ErrBalanceOverflow)
                                   else Reply(log[i].outcome.transfer, false)
            else log[j].outcome.Refused?
  {
    EveryRunIsSafe(s0, run);
    LaterCallsAreRetries(s0.accounts, LogOf(s0, run), i, j);
  }

  /** And nothing else is a retry: whoever is answered with a conflict or a replay had an earlier call
      with the same user and key, in the same run, that created the transfer. */
  lemma OnlyRetriesAreReplayed(s0: State, run: seq<Event>, i: nat) returns (j: nat)
    requires Initial(s0) && Executes(s0, run) && i < |LogOf(s0, run)|
    requires var out := LogOf(s0, run)[i].outcome;
             out == Refused(ErrIdempotencyConflict) || (out.Reply? && !out.created)
    ensures var log := LogOf(s0, run);
            && j < i && SameKey(log[i].call, log[j].call)
            && log[j].outcome.Reply? && log[j].outcome.created
            && if log[i].outcome.Reply? then
                 log[j].call.request == log[i].call.request && log[j].outcome.transfer == log[i].outcome.transfer
               else log[j].call.request != log[i].call.request
  {
    EveryRunIsSafe(s0, run);
    j := RetriesHaveAnOrigin(s0.accounts, LogOf(s0, run), i);
  }

  /** Every stored transfer carries its request's own fields and the UUID it is stored under. */
  lemma StoredMatchesRequest(s0: State, run: seq<Event>, k: Key)
    requires Initial(s0) && Executes(s0, run) && k in After(s0, run).transfers
    ensures var st := After(s0, run).transfers[k];
            var t, r := st.transfer, st.original;
            && k.uuid != 0 && t.key == k.uuid
            && t.from == r.from && t.to == r.to && t.amount == r.amount
            && t.currency == r.currency && t.description == r.description
            && ValidCall(Call(k.user, Some(k.uuid), r))
  {
    Behind(s0, run);
    var db := Replayed(s0.accounts, LogOf(s0, run));
    assert TransferOk(db.accounts, k, db.transfers[k]);
    CallOkMeaning(Call(k.user, Some(k.uuid), db.transfers[k].original));
  }

  /** Draining: if every stored transfer out of `a` is for one amount and nothing was credited to it,
      exactly min(stored, opening div amount) of them completed. */
  lemma DrainIsExact(s0: State, run: seq<Event>, a: AccountId, amount: int)
    requires Initial(s0) && Executes(s0, run) && a in s0.accounts && amount > 0
    requires OnlyDrained(After(s0, run).transfers, a, amount)
    ensures var s := After(s0, run);
            && a in s.accounts
            && |CompletedFrom(s.transfers, a)| == Min(|From(s.transfers, a)|, s0.accounts[a].balance / amount)
            && s.accounts[a].balance == s0.accounts[a].balance - |CompletedFrom(s.transfers, a)| * amount
  {
    Behind(s0, run);
    DrainBound(s0.accounts, LogOf(s0, run), a, amount);
  }

  // ------------------------------------------------------------------ atomicity

  /** Until a transaction commits nothing of it can be seen: no other event, an abort at any point
      included, changes a table. */
  lemma OnlyCommitsPublish(s: State, e: Event)
    requires Enabled(s, e) && !e.Commit?
    ensures SameTables(s, Next(s, e))
  {
    match e
    case Submit(t, call) => assert Next(s, e) == SubmitStep(s, t, call);
    case Begin(t) => BeginMoves(s, t);
    case LockRow(t) => LockMoves(s, t);
    case Check(t) => CheckMoves(s, t);
    case Insert(t, id) => InsertMoves(s, t, id);
    case Lookup(t) => LookupMoves(s, t);
    case Save(t) => SaveMoves(s, t);
    case AppendRow(t) => AppendMoves(s, t);
    case Abort(t) => AbortMoves(s, t);
  }

  /** A commit publishes all of it at once: exactly the step Create takes alone on the tables. */
  lemma CommitPublishesAll(s0: State, run: seq<Event>, t: TxnId, acknowledged: bool)
    requires Initial(s0) && Executes(s0, run) && Enabled(After(s0, run), Commit(t, acknowledged))
    ensures var s := After(s0, run);
            var s', x := Next(s, Commit(t, acknowledged)), s.txns[t];
            var db := Replayed(s0.accounts, LogOf(s0, run));
            var alone := CreateAlone(db, x.call, CreatedId(x.phase));
            && Answer(x) == alone.1
            && s'.accounts == alone.0.accounts && s'.transfers == alone.0.transfers
            && forall a :: Statement(s', a) == ByAccount(alone.0.ledger, a)
  {
    EveryRunIsSafe(s0, run);
    var s, log := After(s0, run), LogOf(s0, run);
    CommitRefines(s0.accounts, log, s, t, acknowledged);
    var e := Served(t, s.txns[t].call, CreatedId(s.txns[t].phase), Answer(s.txns[t]));
    assert (log + [e])[..|log|] == log && (log + [e])[|log|] == e;
    assert Explains(Replayed(s0.accounts, log), e);
  }

  // ------------------------------------------------------------------ real time

  /** At its abort a transaction ends, and nothing is served for it. */
  lemma AbortEnds(s0: State, run: seq<Event>, t: TxnId)
    requires Initial(s0) && Executes(s0, run) && Enabled(After(s0, run), Abort(t))
    ensures var s' := Next(After(s0, run), Abort(t)); t in s'.txns && s'.txns[t].phase.Done?
    ensures Serves(After(s0, run), Abort(t)) == []
    ensures forall i :: 0 <= i < |LogOf(s0, run)| ==> LogOf(s0, run)[i].txn != t
  {
    EveryRunIsSafe(s0, run);
    AbortMoves(After(s0, run), t);
  }

  /** Whatever was aborted is never served, now or later: it answers nothing and moves nothing. */
  lemma AbortedIsNeverServed(s0: State, run: seq<Event>, n: nat)
    requires Initial(s0) && Executes(s0, run) && n < |run| && run[n].Abort?
    ensures forall i :: 0 <= i < |LogOf(s0, run)| ==> LogOf(s0, run)[i].txn != run[n].t
  {
    RunPrefix(s0, run, n + 1);
    var upTo := run[..n + 1];
    assert upTo[..n] == run[..n] && upTo[n] == run[n];
    assert run[n] == Abort(run[n].t);
    AbortEnds(s0, upTo[..n], run[n].t);
    DoneIsForever(s0, run, n + 1, run[n].t);
  }

  /** Strict serializability: a call that was answered before another was submitted comes before it
      in the serial order. */
  lemma RealTimeOrder(s0: State, run: seq<Event>, n: nat, i: nat, j: nat)
    requires Initial(s0) && Executes(s0, run) && n <= |run| && Executes(s0, run[..n])
    requires i < |LogOf(s0, run)| && j < |LogOf(s0, run)|
    requires var s := After(s0, run[..n]); var first := LogOf(s0, run)[i].txn;
             first in s.txns && s.txns[first].phase.Done?
    requires LogOf(s0, run)[j].txn !in After(s0, run[..n]).txns
    ensures i < j
  {
    var first := LogOf(s0, run)[i].txn;
    DoneIsForever(s0, run, n, first);
    EveryRunIsSafe(s0, run[..n]);
    var early := LogOf(s0, run[..n]);
    assert i < |early|;
    assert forall m :: 0 <= m < |early| ==> LogOf(s0, run)[m] == early[m];
    assert forall m :: 0 <= m < |early| ==> LogOf(s0, run)[m].txn in After(s0, run[..n]).txns;
  }

  // ------------------------------------------------------------------ a retry that overflows

  /** "A retry should never turn into a different operation" fails on this pair of calls: the first
      fills the destination to the 64-bit maximum, the second repeats it and is refused. */
  lemma RetryCanOverflow()
    ensures var opening := map["a" := Row("u", "PEN", 10), "b" := Row("v", "PEN", MAX_INT64 - 5)];
            var call := Call("u", Some(1), CreateTransfer("a", "b", 5, "PEN", ""));
            var first := CreateAlone(Database(opening, map[], []), call, 7);
            && OpeningOk(opening)
            && first.1.Reply? && first.1.created && first.1.transfer.status == Completed
            && CreateAlone(first.0, call, 8) == (first.0, Refused(ErrBalanceOverflow))
  {
    SmallCallIsValid("u", CreateTransfer("a", "b", 5, "PEN", ""));
  }

  // ------------------------------------------------------------------ text that cannot be stored

  /** Any call the service would answer with a transfer, new or stored, ends in a database error and a
      500 once its description is a text of valid length with U+0000 in it, with nothing wrong with
      the database. */
  lemma DescriptionCanFail(db: Database, call: Call, bad: Call, id: Uuid)
    requires CreateAlone(db, call, id).1.Reply?
    requires bad == call.(request := call.request.(description := bad.request.description))
    requires HasNul(bad.request.description) && |Encode(bad.request.description)| <= 255
    ensures ValidCall(bad)
    ensures CreateAlone(db, bad, id) == (db, Refused(ErrUnstorable)) && StatusCode(Refused(ErrUnstorable)) == 500
  {
    ReplyWasReceived(db, call, id);
    StaysAcceptable(db.accounts, call, bad);
    NulFails(db, bad, id);
    BusinessErrorsAreNot500(ErrUnstorable);
  }

  /** The description plays no part before the INSERT, its length apart. */
  lemma StaysAcceptable(accounts: map<AccountId, Row>, call: Call, bad: Call)
    requires Received(accounts, call)
    requires bad == call.(request := call.request.(description := bad.request.description))
    requires |Encode(bad.request.description)| <= 255
    ensures Askable(bad) && Acceptable(accounts, bad) && HasKey(bad)
  {
  }

  lemma ReplyWasReceived(db: Database, call: Call, id: Uuid)
    requires CreateAlone(db, call, id).1.Reply?
    ensures Received(db.accounts, call)
  {
    AnswerReasons(db, call, id);
  }

  lemma NulFails(db: Database, call: Call, id: Uuid)
    requires Askable(call) && Acceptable(db.accounts, call) && HasKey(call) && HasNul(call.request.description)
    ensures CreateAlone(db, call, id) == (db, Refused(ErrUnstorable))
  {
    AnswerReasons(db, call, id);
    OnlyCreatesChange(db, call, id);
  }

  /** So does a valid call with U+0000 in an account id, on any database. */
  lemma AccountIdCanFail(db: Database)
    ensures var call := Call("u", Some(1), CreateTransfer("\0x", "b", 5, "PEN", ""));
            CreateAlone(db, call, 7) == (db, Refused(ErrUnstorable))
  {
    var r := CreateTransfer("\0x", "b", 5, "PEN", "");
    assert r.from[0] == '\0';
    SmallCallIsValid("u", r);
  }

  lemma SmallCallIsValid(user: UserId, r: CreateTransfer)
    requires user != [] && !IsSpace(user[0]) && r.from != [] && !IsSpace(r.from[0]) && r.to != [] && !IsSpace(r.to[0])
    requires r.from != r.to && r.amount > 0 && IsCurrencyCode(r.currency) && ByteLength(r.description) <= 255
    ensures Trim(user, IsSpace) != [] && Validate(r).None?
  {
    CurrencyTestsAgree(r.currency);
    TrimEmpty(user, IsSpace);
    TrimEmpty(r.from, IsSpace);
    TrimEmpty(r.to, IsSpace);
    assert user[0] in user && r.from[0] in r.from && r.to[0] in r.to;
  }
}
