/** Every interleaving is a serial history: the tables after a run, and every answer given, are those
    of running Create alone, one call at a time, in the order the transactions ended. */
module Refinement {
  import opened Domain
  import opened Validation
  import opened Ledger
  import opened Transfers
  import opened History
  import opened Protocol
  import opened Invariant

  /** One account's committed entries with ids below `limit`, in id order. */
  function InIdOrder(ledger: map<nat, LedgerEntry>, a: AccountId, limit: nat): seq<LedgerEntry> {
    if limit == 0 then []
    else
      var j := limit - 1;
      InIdOrder(ledger, a, j) + (if j in ledger && ledger[j].accountId == a then [ledger[j]] else [])
  }

  /** An account's statement: its committed entries in id order. */
  function Statement(s: State, a: AccountId): seq<LedgerEntry> {
    InIdOrder(s.ledger, a, s.nextEntryId)
  }

  ghost predicate Refines(opening: map<AccountId, Row>, log: seq<Served>, s: State) {
    && Explained(opening, log)
    && s.accounts == Replayed(opening, log).accounts
    && s.transfers == Replayed(opening, log).transfers
    && forall a :: Statement(s, a) == ByAccount(Replayed(opening, log).ledger, a)
  }

  ghost predicate InLog(log: seq<Served>, t: TxnId, call: Call, outcome: Outcome) {
    exists i :: 0 <= i < |log| && log[i].txn == t && log[i].call == call && log[i].outcome == outcome
  }

  /** Every answer given, except an unknown one, is in the log. */
  ghost predicate Answered(log: seq<Served>, s: State) {
    forall t :: t in s.txns && s.txns[t].phase.Done? && s.txns[t].phase.outcome != Refused(ErrUnavailable) ==>
      InLog(log, t, s.txns[t].call, s.txns[t].phase.outcome)
  }

  // ------------------------------------------------------------------ scanning the ledger by id

  lemma {:induction false} ScanFrame(ledger: map<nat, LedgerEntry>, l: nat, e: LedgerEntry, a: AccountId, limit: nat)
    requires limit <= l || (l !in ledger && e.accountId != a)
    ensures InIdOrder(ledger[l := e], a, limit) == InIdOrder(ledger, a, limit)
  {
    if limit > 0 {
      ScanFrame(ledger, l, e, a, limit - 1);
    }
  }

  /** An entry whose id is above all of its account's entries is read last. */
  lemma {:induction false} ScanAdd(ledger: map<nat, LedgerEntry>, l: nat, e: LedgerEntry, a: AccountId, limit: nat)
    requires l !in ledger && l < limit && e.accountId == a
    requires forall j :: j in ledger && ledger[j].accountId == a ==> j < l
    ensures InIdOrder(ledger[l := e], a, limit) == InIdOrder(ledger, a, limit) + [e]
  {
    if limit - 1 == l {
      ScanFrame(ledger, l, e, a, l);
    } else {
      ScanAdd(ledger, l, e, a, limit - 1);
      assert !(limit - 1 in ledger && ledger[limit - 1].accountId == a);
    }
  }

  lemma {:induction false} ScanGrow(ledger: map<nat, LedgerEntry>, a: AccountId, limit: nat, limit': nat)
    requires limit <= limit' && forall j :: j in ledger ==> j < limit
    ensures InIdOrder(ledger, a, limit') == InIdOrder(ledger, a, limit)
    decreases limit'
  {
    if limit < limit' {
      ScanGrow(ledger, a, limit, limit' - 1);
    }
  }

  lemma {:induction false} ScanEmpty(a: AccountId, limit: nat)
    ensures InIdOrder(map[], a, limit) == []
  {
    if limit > 0 {
      ScanEmpty(a, limit - 1);
    }
  }

  /** Two entries of two accounts, committed together. */
  lemma ScanPair(ledger: map<nat, LedgerEntry>, i: nat, debit: LedgerEntry, j: nat, credit: LedgerEntry,
                 a: AccountId, limit: nat)
    requires i !in ledger && j !in ledger && i < j < limit && debit.accountId != credit.accountId
    requires forall k :: k in ledger && ledger[k].accountId in {debit.accountId, credit.accountId} ==> k < i
    ensures InIdOrder(ledger + map[i := debit, j := credit], a, limit)
         == InIdOrder(ledger, a, limit)
            + (if a == debit.accountId then [debit] else if a == credit.accountId then [credit] else [])
  {
    assert ledger + map[i := debit, j := credit] == ledger[i := debit][j := credit];
    if a == debit.accountId {
      ScanAdd(ledger, i, debit, a, limit);
      ScanFrame(ledger[i := debit], j, credit, a, limit);
    } else {
      ScanFrame(ledger, i, debit, a, limit);
      if a == credit.accountId {
        ScanAdd(ledger[i := debit], j, credit, a, limit);
      } else {
        ScanFrame(ledger[i := debit], j, credit, a, limit);
        assert InIdOrder(ledger, a, limit) + [] == InIdOrder(ledger, a, limit);
      }
    }
  }

  // ------------------------------------------------------------------ steps that publish nothing

  /** A step that serves nobody. */
  lemma QuietRefines(opening: map<AccountId, Row>, log: seq<Served>, s: State, s': State)
    requires Refines(opening, log, s) && SameTables(s, s') && LedgerIdsOk(s)
    ensures Refines(opening, log, s')
  {
    forall a
      ensures Statement(s', a) == ByAccount(Replayed(opening, log).ledger, a)
    {
      ScanGrow(s.ledger, a, s.nextEntryId, s'.nextEntryId);
    }
  }

  /** A step that refuses a call, leaving the tables alone. */
  lemma RefusalRefines(opening: map<AccountId, Row>, log: seq<Served>, s: State, s': State, e: Served)
    requires Refines(opening, log, s) && SameTables(s, s') && LedgerIdsOk(s)
    requires CreateAlone(Replayed(opening, log), e.call, e.id) == (Replayed(opening, log), e.outcome)
    requires !Creates(Replayed(opening, log), e.call)
    ensures Refines(opening, log + [e], s')
  {
    ExplainedSnoc(opening, log, e);
    QuietRefines(opening, log, s, s');
    assert Replayed(opening, log + [e]) == Replayed(opening, log);
  }

  /** Under full locks, the checks on the copies are the checks on the committed rows. */
  lemma HeldDecision(s: State, x: Txn)
    requires OrderOk(s) && Holds(s, x, |Plan(s.order, x.call.request)|) && IdsStorable(x.call.request)
    ensures DecideOn(x.copies, x.call) == DecideOn(s.accounts, x.call)
  {
    var plan, r := Plan(s.order, x.call.request), x.call.request;
    assert plan[..|plan|] == plan;
    assert Find(x.copies, r.from) == Find(s.accounts, r.from);
    assert Find(x.copies, r.to) == Find(s.accounts, r.to);
  }

  lemma SubmitRefines(opening: map<AccountId, Row>, log: seq<Served>, s: State, t: TxnId, call: Call)
    requires Refines(opening, log, s) && LedgerIdsOk(s) && t !in s.txns
    ensures var s' := SubmitStep(s, t, call); Refines(opening, log + Ended(s', t), s')
  {
    var s' := SubmitStep(s, t, call);
    if CallOk(call) {
      assert log + [] == log;
      QuietRefines(opening, log, s, s');
    } else {
      var e := Ended(s', t)[0];
      RefusalRefines(opening, log, s, s', e);
    }
  }

  lemma CheckRefines(opening: map<AccountId, Row>, log: seq<Served>, s: State, t: TxnId)
    requires Refines(opening, log, s) && Inv(s) && Enabled(s, Check(t))
    ensures var s' := CheckStep(s, t); Refines(opening, log + Ended(s', t), s')
  {
    var x := s.txns[t];
    assert TxnOk(s, x);
    if IdsStorable(x.call.request) {
      HeldDecision(s, x);
      CheckedRefines(opening, log, s, t);
    } else {
      RefusalRefines(opening, log, s, CheckStep(s, t), Served(t, x.call, 0, Refused(ErrUnstorable)));
    }
  }

  lemma CheckedRefines(opening: map<AccountId, Row>, log: seq<Served>, s: State, t: TxnId)
    requires Refines(opening, log, s) && LedgerIdsOk(s) && t in s.txns
    requires CallOk(s.txns[t].call) && IdsStorable(s.txns[t].call.request)
    requires DecideOn(s.txns[t].copies, s.txns[t].call) == DecideOn(s.accounts, s.txns[t].call)
    requires Open(s.txns[t].phase)
    ensures var s' := CheckStep(s, t); Refines(opening, log + Ended(s', t), s')
  {
    var s', x := CheckStep(s, t), s.txns[t];
    match DecideOn(x.copies, x.call)
    case Reject(e) =>
      RejectedAlone(Replayed(opening, log), x.call, 0, e);
      RefusalRefines(opening, log, s, s', Served(t, x.call, 0, Refused(e)));
    case Accept(d) =>
      assert log + [] == log;
      QuietRefines(opening, log, s, s');
  }

  /** A transaction that fully holds its rows ends without creating anything. */
  lemma HeldRefusal(opening: map<AccountId, Row>, log: seq<Served>, s: State, s': State, t: TxnId, x: Txn, d: Draft)
    requires Refines(opening, log, s) && OrderOk(s) && LedgerIdsOk(s) && SameTables(s, s')
    requires Decided(s, x, d)
    requires Insertable(x.call) ==> KeyOf(x.call) in s.transfers
    ensures Refines(opening, log + [Served(t, x.call, 0, Unsettled(s.transfers, x.call))], s')
  {
    DecidedRows(s, x, d);
    AcceptedAlone(Replayed(opening, log), x.call, 0, d);
    RefusalRefines(opening, log, s, s', Served(t, x.call, 0, Unsettled(s.transfers, x.call)));
  }

  lemma FinishEnds(s: State, t: TxnId, o: Outcome)
    requires t in s.txns
    ensures var s' := Finish(s, t, o); SameTables(s, s') && Ended(s', t) == [Served(t, s.txns[t].call, 0, o)]
  {
  }

  lemma PutContinues(s: State, t: TxnId, x: Txn)
    requires !x.phase.Done?
    ensures var s' := Put(s, t, x); SameTables(s, s') && Ended(s', t) == []
  {
  }

  /** What the INSERT ends with, if it ends the transaction: a malformed key or text it cannot send. */
  ghost function EndedByInsert(s: State, t: TxnId, call: Call): seq<Served> {
    if Insertable(call) then [] else [Served(t, call, 0, Unsettled(s.transfers, call))]
  }

  lemma InsertEnds(s: State, t: TxnId, id: Uuid)
    requires Inv(s) && t in s.txns && s.txns[t].phase.Drafted?
    ensures var s' := InsertStep(s, t, id); SameTables(s, s') && Ended(s', t) == EndedByInsert(s, t, s.txns[t].call)
  {
    InsertShape(s, t, id);
    var x := s.txns[t];
    if !Insertable(x.call) {
      FinishEnds(s, t, Unsettled(s.transfers, x.call));
    } else if KeyOf(x.call) in s.transfers {
      PutContinues(s, t, x.(phase := Conflicted(x.phase.draft)));
    } else {
      PutContinues(s, t, WithRow(x, id));
    }
  }

  lemma InsertRefines(opening: map<AccountId, Row>, log: seq<Served>, s: State, t: TxnId, id: Uuid)
    requires Refines(opening, log, s) && Inv(s) && t in s.txns && s.txns[t].phase.Drafted?
    ensures var s' := InsertStep(s, t, id); Refines(opening, log + Ended(s', t), s')
  {
    InsertEnds(s, t, id);
    assert TxnOk(s, s.txns[t]);
    InsertedRefines(opening, log, s, InsertStep(s, t, id), t, s.txns[t], s.txns[t].phase.draft);
  }

  lemma InsertedRefines(opening: map<AccountId, Row>, log: seq<Served>, s: State, s': State, t: TxnId, x: Txn, d: Draft)
    requires Refines(opening, log, s) && OrderOk(s) && LedgerIdsOk(s) && Decided(s, x, d) && SameTables(s, s')
    requires Ended(s', t) == EndedByInsert(s, t, x.call)
    ensures Refines(opening, log + Ended(s', t), s')
  {
    if Insertable(x.call) {
      assert log + [] == log;
      QuietRefines(opening, log, s, s');
    } else {
      HeldRefusal(opening, log, s, s', t, x, d);
    }
  }

  lemma LookupRefines(opening: map<AccountId, Row>, log: seq<Served>, s: State, t: TxnId)
    requires Refines(opening, log, s) && Inv(s) && Enabled(s, Lookup(t))
    ensures var s' := LookupStep(s, t); Refines(opening, log + Ended(s', t), s')
  {
    var s', x := LookupStep(s, t), s.txns[t];
    assert TxnOk(s, x);
    match Replay(s.transfers[KeyOf(x.call)], x.call.request)
    case Refused(e) => HeldRefusal(opening, log, s, s', t, x, x.phase.draft);
    case Reply(_, _) =>
      assert log + [] == log;
      QuietRefines(opening, log, s, s');
  }

  // ------------------------------------------------------------------ COMMIT

  lemma MergePair(rows: map<AccountId, Row>, a: AccountId, x: int64, b: AccountId, y: int64)
    requires a in rows && b in rows && a != b
    ensures Merge(rows, map[a := x, b := y]) == SetBalance(SetBalance(rows, a, x), b, y)
  {
  }

  lemma RowPublished(s: State, x: Txn, d: Draft, id: Uuid)
    requires RowPending(s, x, d, id)
    ensures s.transfers + x.writes.transfers == s.transfers[KeyOf(x.call) := Stored(x.call, id, d)]
  {
  }

  lemma BalancesPublished(s: State, x: Txn, d: Draft)
    requires OrderOk(s) && Decided(s, x, d) && Sound(s.accounts, x.call, d)
    requires if x.phase.Appending? then BalancesPending(x, d) else x.writes.balances == map[] && d.status != Completed
    ensures Merge(s.accounts, x.writes.balances)
         == if d.status == Completed
            then SetBalance(SetBalance(s.accounts, x.call.request.from, d.source), x.call.request.to, d.destination)
            else s.accounts
  {
    if d.status == Completed {
      MergePair(s.accounts, x.call.request.from, d.source, x.call.request.to, d.destination);
    } else {
      assert Merge(s.accounts, map[]) == s.accounts;
    }
  }

  /** Publishing a created transfer is Settle on the tables. */
  lemma PublishSettles(s: State, x: Txn, db: Database)
    requires OrderOk(s) && TxnOk(s, x) && CommitReady(x.phase) && !x.phase.Replaying?
    requires s.accounts == db.accounts && s.transfers == db.transfers
    ensures Sound(s.accounts, x.call, x.phase.draft)
    ensures var d, id := x.phase.draft, x.phase.id;
            var db' := Settle(db, x.call, id, d);
            && Publish(s, x.writes).accounts == db'.accounts
            && Publish(s, x.writes).transfers == db'.transfers
  {
    DecidedRows(s, x, x.phase.draft);
    RowPublished(s, x, x.phase.draft, x.phase.id);
    BalancesPublished(s, x, x.phase.draft);
  }

  lemma EntriesPublished(s: State, x: Txn, d: Draft, id: Uuid, ids: seq<nat>, ledger: seq<LedgerEntry>, a: AccountId)
    requires EntriesPending(s, x, d, id, ids) && |ids| == 2
    requires x.copies.Keys == {x.call.request.from, x.call.request.to} && x.call.request.from != x.call.request.to
    requires Statement(s, a) == ByAccount(ledger, a)
    ensures InIdOrder(s.ledger + x.writes.entries, a, s.nextEntryId)
         == ByAccount(ledger + [DebitEntry(x.call.request, id, d), CreditEntry(x.call.request, id, d)], a)
  {
    var debit, credit := DebitEntry(x.call.request, id, d), CreditEntry(x.call.request, id, d);
    ScanPair(s.ledger, ids[0], debit, ids[1], credit, a, s.nextEntryId);
    PairByAccount(ledger, debit, credit, a);
  }

  /** Publishing the ledger rows extends exactly the two accounts' statements. */
  lemma PublishExtendsStatements(s: State, x: Txn, db: Database, a: AccountId)
    requires OrderOk(s) && TxnOk(s, x) && CommitReady(x.phase) && !x.phase.Replaying?
    requires s.accounts == db.accounts
    requires Statement(s, a) == ByAccount(db.ledger, a)
    requires Sound(s.accounts, x.call, x.phase.draft)
    ensures var d, id := x.phase.draft, x.phase.id;
            var db' := Settle(db, x.call, id, d);
            Statement(Publish(s, x.writes), a) == ByAccount(db'.ledger, a)
  {
    var d, id := x.phase.draft, x.phase.id;
    if x.phase.Appending? {
      DecidedRows(s, x, d);
      EntriesPublished(s, x, d, id, x.phase.entryIds, db.ledger, a);
    } else {
      assert s.ledger + map[] == s.ledger;
    }
  }

  lemma CreateCommitRefines(opening: map<AccountId, Row>, log: seq<Served>, s: State, s': State, t: TxnId)
    requires Refines(opening, log, s) && Inv(s) && t in s.txns
    requires CommitReady(s.txns[t].phase) && !s.txns[t].phase.Replaying?
    requires Published(s, s', s.txns[t])
    ensures var x := s.txns[t]; Refines(opening, log + [Served(t, x.call, CreatedId(x.phase), Answer(x))], s')
  {
    var x, db := s.txns[t], Replayed(opening, log);
    var e := Served(t, x.call, CreatedId(x.phase), Answer(x));
    assert TxnOk(s, x);
    DecidedRows(s, x, x.phase.draft);
    AcceptedAlone(db, x.call, e.id, x.phase.draft);
    PublishSettles(s, x, db);
    ExplainedSnoc(opening, log, e);
    forall a
      ensures Statement(s', a) == ByAccount(Replayed(opening, log + [e]).ledger, a)
    {
      PublishExtendsStatements(s, x, db, a);
    }
  }

  lemma NothingPublished(s: State, s': State, x: Txn)
    requires Published(s, s', x) && x.writes == NO_WRITES
    ensures SameTables(s, s')
  {
    assert Merge(s.accounts, map[]) == s.accounts;
    assert s.transfers + map[] == s.transfers && s.ledger + map[] == s.ledger;
  }

  lemma ReplayCommitRefines(opening: map<AccountId, Row>, log: seq<Served>, s: State, s': State, t: TxnId)
    requires Refines(opening, log, s) && Inv(s) && t in s.txns && s.txns[t].phase.Replaying?
    requires Published(s, s', s.txns[t])
    ensures var x := s.txns[t]; Refines(opening, log + [Served(t, x.call, CreatedId(x.phase), Answer(x))], s')
  {
    var x := s.txns[t];
    assert TxnOk(s, x);
    NothingPublished(s, s', x);
    HeldRefusal(opening, log, s, s', t, x, x.phase.draft);
  }

  lemma CommitRefines(opening: map<AccountId, Row>, log: seq<Served>, s: State, t: TxnId, acknowledged: bool)
    requires Refines(opening, log, s) && Inv(s) && t in s.txns && CommitReady(s.txns[t].phase)
    ensures var x := s.txns[t];
            Refines(opening, log + [Served(t, x.call, CreatedId(x.phase), Answer(x))], CommitStep(s, t, acknowledged))
  {
    var s' := CommitStep(s, t, acknowledged);
    assert Published(s, s', s.txns[t]);
    if s.txns[t].phase.Replaying? {
      ReplayCommitRefines(opening, log, s, s', t);
    } else {
      CreateCommitRefines(opening, log, s, s', t);
    }
  }
}
