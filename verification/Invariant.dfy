/** What every step of the protocol keeps. */
module Invariant {
  import opened Domain
  import opened Validation
  import opened Transfers
  import opened Protocol

  /** The first n rows of the plan are locked, and each copy is still the committed row. */
  ghost predicate Holds(s: State, x: Txn, n: nat) {
    var plan := Plan(s.order, x.call.request);
    && n <= |plan|
    && (forall a :: a in x.copies <==> a in plan[..n])
    && (forall a :: a in x.copies ==> a in s.accounts && x.copies[a] == s.accounts[a])
  }

  /** All rows are locked and the draft is what the checks give on them. */
  ghost predicate Decided(s: State, x: Txn, d: Draft) {
    && CallOk(x.call)
    && Holds(s, x, |Plan(s.order, x.call.request)|)
    && DecideOn(x.copies, x.call) == Accept(d)
  }

  ghost predicate KeyTaken(s: State, x: Txn) {
    Insertable(x.call) && KeyOf(x.call) in s.transfers
  }

  /** The transfer row is inserted, its key and id unused by any committed row. */
  ghost predicate RowPending(s: State, x: Txn, d: Draft, id: Uuid) {
    && Insertable(x.call)
    && x.writes.transfers == map[KeyOf(x.call) := Stored(x.call, id, d)]
    && KeyOf(x.call) !in s.transfers
    && FreshId(s.transfers, id)
  }

  /** The ledger rows drawn so far, each after every committed entry of the accounts held. */
  ghost predicate EntriesPending(s: State, x: Txn, d: Draft, id: Uuid, ids: seq<nat>) {
    var r := x.call.request;
    && r.amount > 0
    && |ids| <= 2
    && (|ids| == 2 ==> ids[0] < ids[1])
    && (forall i :: 0 <= i < |ids| ==> ids[i] < s.nextEntryId && ids[i] !in s.ledger)
    && x.writes.entries == (if |ids| == 0 then map[]
                            else if |ids| == 1 then map[ids[0] := DebitEntry(r, id, d)]
                            else map[ids[0] := DebitEntry(r, id, d), ids[1] := CreditEntry(r, id, d)])
    && (forall j, i :: j in s.ledger && s.ledger[j].accountId in x.copies && 0 <= i < |ids| ==> j < ids[i])
  }

  ghost predicate BalancesPending(x: Txn, d: Draft) {
    var r := x.call.request;
    d.status == Completed && x.writes.balances == map[r.from := d.source, r.to := d.destination]
  }

  ghost predicate TxnOk(s: State, x: Txn) {
    match x.phase
    case Waiting => CallOk(x.call) && x.copies == map[] && x.writes == NO_WRITES
    case Locking(n) => CallOk(x.call) && Holds(s, x, n) && x.writes == NO_WRITES
    case Drafted(d) => Decided(s, x, d) && x.writes == NO_WRITES
    case Conflicted(d) => Decided(s, x, d) && KeyTaken(s, x) && x.writes == NO_WRITES
    case Replaying(d, found) =>
      && Decided(s, x, d) && KeyTaken(s, x) && x.writes == NO_WRITES
      && s.transfers[KeyOf(x.call)] == StoredTransfer(found, x.call.request)
    case Inserted(d, id) =>
      Decided(s, x, d) && RowPending(s, x, d, id) && x.writes.balances == map[] && x.writes.entries == map[]
    case Appending(d, id, ids) =>
      Decided(s, x, d) && RowPending(s, x, d, id) && BalancesPending(x, d) && EntriesPending(s, x, d, id, ids)
    case Done(o) => x.copies == map[] && x.writes == NO_WRITES
  }

  /** Two transactions never hold the same row, key, transfer id or ledger id. */
  ghost predicate Apart(x: Txn, y: Txn) {
    && x.copies.Keys !! y.copies.Keys
    && x.writes.transfers.Keys !! y.writes.transfers.Keys
    && x.writes.entries.Keys !! y.writes.entries.Keys
    && (forall j, k :: j in x.writes.transfers && k in y.writes.transfers ==>
          x.writes.transfers[j].transfer.id != y.writes.transfers[k].transfer.id)
  }

  ghost predicate OrderOk(s: State) {
    && s.order.Keys == s.accounts.Keys
    && (forall a, b :: a in s.order && b in s.order && s.order[a] == s.order[b] ==> a == b)
  }

  ghost predicate TxnsOk(s: State) {
    forall t :: t in s.txns ==> TxnOk(s, s.txns[t])
  }

  ghost predicate AllApart(s: State) {
    forall t, u :: t in s.txns && u in s.txns && t != u ==> Apart(s.txns[t], s.txns[u])
  }

  ghost predicate LedgerIdsOk(s: State) {
    forall j :: j in s.ledger ==> j < s.nextEntryId
  }

  ghost function OpenSet(s: State): set<TxnId> {
    set t | t in s.txns && Open(s.txns[t].phase)
  }

  /** Every open transaction has exactly one connection. */
  ghost predicate PoolOk(s: State) {
    s.free + |OpenSet(s)| == s.pool && s.pool >= 1
  }

  ghost predicate Inv(s: State) {
    OrderOk(s) && TxnsOk(s) && AllApart(s) && LedgerIdsOk(s) && PoolOk(s)
  }

  lemma InitialInv(s: State)
    requires Initial(s)
    ensures Inv(s)
  {
    assert OpenSet(s) == {};
  }

  // ------------------------------------------------------------------ steps that publish nothing

  /** The committed tables are the same; at most some identity ids were drawn. */
  ghost predicate SameTables(s: State, s': State) {
    && s'.accounts == s.accounts && s'.transfers == s.transfers && s'.ledger == s.ledger
    && s'.order == s.order && s'.pool == s.pool && s'.nextEntryId >= s.nextEntryId
  }

  /** Only transaction t moved. */
  ghost predicate OnlyMoves(s: State, s': State, t: TxnId) {
    && t in s'.txns
    && s'.txns.Keys == s.txns.Keys + {t}
    && forall u :: u in s.txns && u != t ==> s'.txns[u] == s.txns[u]
  }

  lemma TxnOkFrame(s: State, s': State, x: Txn)
    requires SameTables(s, s') && TxnOk(s, x)
    ensures TxnOk(s', x)
  {
  }

  /** The mover's new state is sound and collides with nobody. */
  ghost predicate MoverOk(s: State, s': State, t: TxnId) {
    && OnlyMoves(s, s', t)
    && TxnOk(s', s'.txns[t])
    && (forall u :: u in s.txns && u != t ==> Apart(s'.txns[t], s.txns[u]))
  }

  lemma QuietStepKeepsTxns(s: State, s': State, t: TxnId)
    requires TxnsOk(s) && AllApart(s) && SameTables(s, s') && MoverOk(s, s', t)
    ensures TxnsOk(s') && AllApart(s')
  {
    forall u | u in s'.txns
      ensures TxnOk(s', s'.txns[u])
    {
      if u != t {
        TxnOkFrame(s, s', s.txns[u]);
      }
    }
    forall u, v | u in s'.txns && v in s'.txns && u != v
      ensures Apart(s'.txns[u], s'.txns[v])
    {
      if u == t {
        assert Apart(s'.txns[t], s.txns[v]);
      } else if v == t {
        assert Apart(s'.txns[t], s.txns[u]);
      } else {
        assert Apart(s.txns[u], s.txns[v]);
      }
    }
  }

  lemma OpenSetMoves(s: State, s': State, t: TxnId)
    requires OnlyMoves(s, s', t)
    ensures OpenSet(s') == if Open(s'.txns[t].phase) then OpenSet(s) + {t} else OpenSet(s) - {t}
  {
    forall u
      ensures u in OpenSet(s') <==> if u == t then Open(s'.txns[t].phase) else u in OpenSet(s)
    {
    }
  }

  predicate WasOpen(s: State, t: TxnId) {
    t in s.txns && Open(s.txns[t].phase)
  }

  /** Connections are conserved when t's openness and the free count change together. */
  lemma PoolKept(s: State, s': State, t: TxnId)
    requires PoolOk(s) && OnlyMoves(s, s', t) && s'.pool == s.pool
    requires s'.free + (if Open(s'.txns[t].phase) then 1 else 0) == s.free + (if WasOpen(s, t) then 1 else 0)
    ensures PoolOk(s')
  {
    OpenSetMoves(s, s', t);
    assert t in OpenSet(s) <==> WasOpen(s, t);
  }

  lemma QuietStep(s: State, s': State, t: TxnId)
    requires Inv(s) && SameTables(s, s') && MoverOk(s, s', t) && PoolOk(s')
    ensures Inv(s')
  {
    QuietStepKeepsTxns(s, s', t);
  }

  /** Ending a transaction without publishing is always safe. */
  lemma FinishInv(s: State, t: TxnId, outcome: Outcome)
    requires Inv(s) && t in s.txns && !s.txns[t].phase.Done?
    ensures Inv(Finish(s, t, outcome))
  {
    MoveInv(s, Finish(s, t, outcome), t, Txn(s.txns[t].call, Done(outcome), map[], NO_WRITES));
  }

  /** A submitted call holds nothing yet. */
  lemma IdleInv(s: State, t: TxnId, x: Txn)
    requires Inv(s) && t !in s.txns && TxnOk(s, x) && !Open(x.phase)
    requires x.copies == map[] && x.writes == NO_WRITES
    ensures Inv(Put(s, t, x))
  {
    var s' := Put(s, t, x);
    TxnOkFrame(s, s', x);
    IdlePool(s, t, x);
    QuietStep(s, s', t);
  }

  lemma IdlePool(s: State, t: TxnId, x: Txn)
    requires PoolOk(s) && t !in s.txns && !Open(x.phase)
    ensures PoolOk(Put(s, t, x))
  {
    PoolKept(s, Put(s, t, x), t);
  }

  lemma SubmitInv(s: State, t: TxnId, call: Call)
    requires Inv(s) && t !in s.txns
    ensures Inv(SubmitStep(s, t, call))
  {
    IdleInv(s, t, Txn(call, Admit(call), map[], NO_WRITES));
  }

  /** An open transaction that changes only its own records. */
  lemma MoveInv(s: State, s': State, t: TxnId, x': Txn)
    requires Inv(s) && t in s.txns && SameTables(s, s') && s'.txns == s.txns[t := x']
    requires TxnOk(s', x')
    requires forall u :: u in s.txns && u != t ==> Apart(x', s.txns[u])
    requires s'.free + (if Open(x'.phase) then 1 else 0) == s.free + (if WasOpen(s, t) then 1 else 0)
    ensures Inv(s')
  {
    PoolKept(s, s', t);
    QuietStep(s, s', t);
  }

  lemma BeginInv(s: State, t: TxnId)
    requires Inv(s) && Enabled(s, Begin(t))
    ensures Inv(Put(s, t, s.txns[t].(phase := Locking(0))).(free := s.free - 1))
  {
    var x' := s.txns[t].(phase := Locking(0));
    var s' := Put(s, t, x').(free := s.free - 1);
    assert TxnOk(s, s.txns[t]);
    assert Holds(s', x', 0);
    MoveInv(s, s', t, x');
  }

  lemma LockedNext(s: State, x: Txn, a: AccountId)
    requires x.phase.Locking? && TxnOk(s, x) && x.phase.next < |Plan(s.order, x.call.request)|
    requires a == Plan(s.order, x.call.request)[x.phase.next] && a in s.accounts
    ensures TxnOk(s, x.(phase := Locking(x.phase.next + 1), copies := x.copies[a := s.accounts[a]]))
  {
    var plan, n := Plan(s.order, x.call.request), x.phase.next;
    assert plan[..n + 1] == plan[..n] + [plan[n]];
  }

  lemma LockInv(s: State, t: TxnId)
    requires Inv(s) && Enabled(s, LockRow(t))
    ensures Inv(LockStep(s, t))
  {
    var s', x := LockStep(s, t), s.txns[t];
    assert TxnOk(s, x);
    LockedNext(s, x, Plan(s.order, x.call.request)[x.phase.next]);
    TxnOkFrame(s, s', s'.txns[t]);
    forall u | u in s.txns && u != t
      ensures Apart(s'.txns[t], s.txns[u])
    {
      assert Apart(x, s.txns[u]);
    }
    MoveInv(s, s', t, s'.txns[t]);
  }

  lemma CheckInv(s: State, t: TxnId)
    requires Inv(s) && Enabled(s, Check(t))
    ensures Inv(CheckStep(s, t))
  {
    var s', x := CheckStep(s, t), s.txns[t];
    if !IdsStorable(x.call.request) {
      FinishInv(s, t, Refused(ErrUnstorable));
    } else {
      match DecideOn(x.copies, x.call)
      case Reject(e) => FinishInv(s, t, Refused(e));
      case Accept(d) =>
        assert TxnOk(s, x);
        SameHoldingsInv(s, t, x.(phase := Drafted(d)));
    }
  }

  /** A phase change that takes and writes nothing. */
  lemma SameHoldingsInv(s: State, t: TxnId, x': Txn)
    requires Inv(s) && t in s.txns && TxnOk(s, x') && Open(x'.phase) && Open(s.txns[t].phase)
    requires x'.copies == s.txns[t].copies && x'.writes == s.txns[t].writes
    ensures Inv(Put(s, t, x'))
  {
    var s' := Put(s, t, x');
    TxnOkFrame(s, s', x');
    forall u | u in s.txns && u != t
      ensures Apart(x', s.txns[u])
    {
      assert Apart(s.txns[t], s.txns[u]);
    }
    MoveInv(s, s', t, x');
  }

  // ------------------------------------------------------------------ the INSERT

  /** On locked, decided rows the foreign keys are met and the draft is sound. */
  lemma DecidedRows(s: State, x: Txn, d: Draft)
    requires OrderOk(s) && Decided(s, x, d)
    ensures IdsStorable(x.call.request)
    ensures x.copies.Keys == {x.call.request.from, x.call.request.to}
    ensures Sound(s.accounts, x.call, d)
    ensures DecideOn(s.accounts, x.call) == Accept(d)
  {
    var plan, r := Plan(s.order, x.call.request), x.call.request;
    assert plan[..|plan|] == plan;
    AcceptedIsSound(x.copies, x.call, d);
    assert r.from in x.copies && r.to in x.copies;
    assert r.from in s.order && r.to in s.order;
  }

  /** The INSERT violates no CHECK and no foreign key. */
  lemma InsertPasses(s: State, x: Txn, d: Draft, id: Uuid)
    requires OrderOk(s) && Decided(s, x, d) && ParseKey(x.call.key).Some?
    ensures TransferChecks(x.call.user, Stored(x.call, id, d).transfer)
    ensures x.call.request.from in s.accounts && x.call.request.to in s.accounts
  {
    DecidedRows(s, x, d);
    ValidCallPassesChecks(x.call, KeyOf(x.call).uuid, id, d.status, d.reason);
  }

  lemma InsertShape(s: State, t: TxnId, id: Uuid)
    requires Inv(s) && t in s.txns && s.txns[t].phase.Drafted?
    ensures var x := s.txns[t];
            InsertStep(s, t, id) ==
            if !Insertable(x.call) then Finish(s, t, Unsettled(s.transfers, x.call))
            else if KeyOf(x.call) in s.transfers then Put(s, t, x.(phase := Conflicted(x.phase.draft)))
            else Put(s, t, WithRow(x, id))
  {
    var x := s.txns[t];
    assert TxnOk(s, x);
    if Insertable(x.call) {
      InsertPasses(s, x, x.phase.draft, id);
    }
  }

  /** The transaction with its transfer row inserted. */
  function WithRow(x: Txn, id: Uuid): Txn
    requires x.phase.Drafted? && ParseKey(x.call.key).Some?
  {
    x.(phase := Inserted(x.phase.draft, id),
       writes := x.writes.(transfers := map[KeyOf(x.call) := Stored(x.call, id, x.phase.draft)]))
  }

  lemma InsertInv(s: State, t: TxnId, id: Uuid)
    requires Inv(s) && Enabled(s, Insert(t, id))
    ensures Inv(InsertStep(s, t, id))
  {
    var x := s.txns[t];
    InsertShape(s, t, id);
    if !Insertable(x.call) {
      FinishInv(s, t, Unsettled(s.transfers, x.call));
    } else if KeyOf(x.call) in s.transfers {
      assert TxnOk(s, x);
      SameHoldingsInv(s, t, x.(phase := Conflicted(x.phase.draft)));
    } else {
      NewRowInv(s, t, id);
    }
  }

  /** A free key and a free id collide with nobody's. */
  lemma NewRowApart(s: State, x: Txn, x': Txn, u: TxnId, key: Key, id: Uuid)
    requires u in s.txns && Apart(x, s.txns[u]) && KeyFree(s, key) && IdFree(s, id)
    requires x'.copies == x.copies && x'.writes.entries == x.writes.entries
    requires x'.writes.transfers.Keys == {key} && x'.writes.transfers[key].transfer.id == id
    ensures Apart(x', s.txns[u])
  {
    assert FreshId(s.txns[u].writes.transfers, id);
  }

  lemma NewRowInv(s: State, t: TxnId, id: Uuid)
    requires Inv(s) && t in s.txns && s.txns[t].phase.Drafted?
    requires Insertable(s.txns[t].call) && KeyOf(s.txns[t].call) !in s.transfers
    requires KeyFree(s, KeyOf(s.txns[t].call)) && IdFree(s, id)
    ensures Inv(Put(s, t, WithRow(s.txns[t], id)))
  {
    var x := s.txns[t];
    var x' := WithRow(x, id);
    var s' := Put(s, t, x');
    assert TxnOk(s, x);
    WithRowOk(s, s', x, id);
    forall u | u in s.txns && u != t
      ensures Apart(x', s.txns[u])
    {
      NewRowApart(s, x, x', u, KeyOf(x.call), id);
    }
    MoveInv(s, s', t, x');
  }

  lemma WithRowOk(s: State, s': State, x: Txn, id: Uuid)
    requires TxnOk(s, x) && x.phase.Drafted? && SameTables(s, s')
    requires Insertable(x.call) && KeyOf(x.call) !in s.transfers && FreshId(s.transfers, id)
    ensures TxnOk(s', WithRow(x, id))
  {
    TxnOkFrame(s, s', x);
  }

  /** The row that caused a conflict is committed. */
  lemma ConflictIsStored(s: State, t: TxnId)
    requires Inv(s) && t in s.txns && s.txns[t].phase.Conflicted?
    ensures KeyTaken(s, s.txns[t])
  {
    assert TxnOk(s, s.txns[t]);
  }

  lemma LookupInv(s: State, t: TxnId)
    requires Inv(s) && Enabled(s, Lookup(t))
    ensures Inv(LookupStep(s, t))
    ensures KeyTaken(s, s.txns[t])
  {
    ConflictIsStored(s, t);
    var x := s.txns[t];
    match Replay(s.transfers[KeyOf(x.call)], x.call.request)
    case Refused(e) => FinishInv(s, t, Refused(e));
    case Reply(found, _) => FoundInv(s, t);
  }

  /** A stored row with the same request is what the transaction will answer. */
  lemma FoundInv(s: State, t: TxnId)
    requires Inv(s) && t in s.txns && s.txns[t].phase.Conflicted? && KeyTaken(s, s.txns[t])
    requires s.transfers[KeyOf(s.txns[t].call)].original == s.txns[t].call.request
    ensures var x := s.txns[t];
            Inv(Put(s, t, x.(phase := Replaying(x.phase.draft, s.transfers[KeyOf(x.call)].transfer))))
  {
    var x := s.txns[t];
    assert TxnOk(s, x);
    SameHoldingsInv(s, t, x.(phase := Replaying(x.phase.draft, s.transfers[KeyOf(x.call)].transfer)));
  }

  lemma SaveInv(s: State, t: TxnId)
    requires Inv(s) && Enabled(s, Save(t))
    requires forall a :: a in s.accounts ==> 0 <= s.accounts[a].balance
    ensures var s' := SaveStep(s, t); Inv(s') && t in s'.txns && s'.txns[t].phase.Appending?
  {
    var s', x := SaveStep(s, t), s.txns[t];
    assert TxnOk(s, x);
    DecidedRows(s, x, x.phase.draft);
    assert TxnOk(s', s'.txns[t]);
    forall u | u in s.txns && u != t
      ensures Apart(s'.txns[t], s.txns[u])
    {
      assert Apart(x, s.txns[u]);
    }
    MoveInv(s, s', t, s'.txns[t]);
  }

  lemma AppendInv(s: State, t: TxnId)
    requires Inv(s) && Enabled(s, AppendRow(t))
    requires forall a :: a in s.accounts ==> 0 <= s.accounts[a].balance
    ensures var s' := AppendStep(s, t); Inv(s') && t in s'.txns && s'.txns[t].phase.Appending?
  {
    var s', x := AppendStep(s, t), s.txns[t];
    assert TxnOk(s, x);
    DecidedRows(s, x, x.phase.draft);
    OwnRowIsVisible(s, x, x.phase.draft, x.phase.id);
    AppendedOk(s, x, s', s'.txns[t]);
    forall u | u in s.txns && u != t
      ensures Apart(s'.txns[t], s.txns[u])
    {
      assert Apart(x, s.txns[u]);
      EntriesBelowNext(s, s.txns[u]);
    }
    MoveInv(s, s', t, s'.txns[t]);
  }

  /** The foreign key of a ledger row sees the transaction's own pending transfer. */
  lemma OwnRowIsVisible(s: State, x: Txn, d: Draft, id: Uuid)
    requires RowPending(s, x, d, id)
    ensures IdStored(s.transfers + x.writes.transfers, id)
  {
    assert (s.transfers + x.writes.transfers)[KeyOf(x.call)].transfer.id == id;
  }

  lemma EntriesBelowNext(s: State, x: Txn)
    requires TxnOk(s, x)
    ensures s.nextEntryId !in x.writes.entries
  {
  }

  lemma AppendedOk(s: State, x: Txn, s': State, x': Txn)
    requires LedgerIdsOk(s) && TxnOk(s, x) && x.phase.Appending? && |x.phase.entryIds| < 2
    requires SameTables(s, s') && s'.nextEntryId == s.nextEntryId + 1
    requires x.call.request.amount > 0
    requires x'.call == x.call && x'.copies == x.copies
    requires var d, id, ids := x.phase.draft, x.phase.id, x.phase.entryIds;
             && x'.phase == Appending(d, id, ids + [s.nextEntryId])
             && x'.writes == x.writes.(entries := x.writes.entries[s.nextEntryId :=
                  if ids == [] then DebitEntry(x.call.request, id, d) else CreditEntry(x.call.request, id, d)])
    ensures TxnOk(s', x')
  {
    TxnOkFrame(s, s', x);
  }

  // ------------------------------------------------------------------ COMMIT

  /** A transaction writes only rows it holds, keys nobody has, and ledger ids of its own. */
  ghost predicate WritesWithin(s: State, x: Txn) {
    && x.writes.balances.Keys <= x.copies.Keys
    && (forall k :: k in x.writes.transfers ==> k !in s.transfers)
    && (forall j :: j in x.writes.entries ==>
          j !in s.ledger && j < s.nextEntryId && x.writes.entries[j].accountId in x.copies)
  }

  lemma WritesAreWithin(s: State, x: Txn)
    requires OrderOk(s) && TxnOk(s, x)
    ensures WritesWithin(s, x)
  {
    if x.phase.Appending? {
      EntriesAreWithin(s, x, x.phase.draft, x.phase.id, x.phase.entryIds);
    }
  }

  lemma EntriesAreWithin(s: State, x: Txn, d: Draft, id: Uuid, ids: seq<nat>)
    requires OrderOk(s) && Decided(s, x, d)
    requires RowPending(s, x, d, id) && BalancesPending(x, d) && EntriesPending(s, x, d, id, ids)
    ensures WritesWithin(s, x)
  {
    DecidedRows(s, x, d);
  }

  /** s' has the tables of s with the writes of x in them. */
  ghost predicate Published(s: State, s': State, x: Txn) {
    && s'.accounts == Merge(s.accounts, x.writes.balances)
    && s'.transfers == s.transfers + x.writes.transfers
    && s'.ledger == s.ledger + x.writes.entries
    && s'.order == s.order && s'.nextEntryId == s.nextEntryId && s'.pool == s.pool
  }

  lemma HoldsPublished(s: State, s': State, x: Txn, y: Txn, n: nat)
    requires WritesWithin(s, x) && Apart(x, y) && Holds(s, y, n)
    requires s'.accounts == Merge(s.accounts, x.writes.balances) && s'.order == s.order
    ensures Holds(s', y, n)
  {
  }

  lemma RowPendingPublished(s: State, s': State, x: Txn, y: Txn, d: Draft, id: Uuid)
    requires Apart(x, y) && RowPending(s, y, d, id)
    requires s'.transfers == s.transfers + x.writes.transfers
    ensures RowPending(s', y, d, id)
  {
    assert KeyOf(y.call) in y.writes.transfers;
  }

  lemma EntriesPendingPublished(s: State, s': State, x: Txn, y: Txn, d: Draft, id: Uuid, ids: seq<nat>)
    requires WritesWithin(s, x) && Apart(x, y) && EntriesPending(s, y, d, id, ids)
    requires s'.ledger == s.ledger + x.writes.entries && s'.nextEntryId == s.nextEntryId
    ensures EntriesPending(s', y, d, id, ids)
  {
    assert forall i :: 0 <= i < |ids| ==> ids[i] in y.writes.entries;
  }

  /** One transaction's commit is invisible to the soundness of another. */
  lemma TxnOkPublished(s: State, s': State, x: Txn, y: Txn)
    requires WritesWithin(s, x) && Apart(x, y) && TxnOk(s, y) && Published(s, s', x)
    ensures TxnOk(s', y)
  {
    if y.phase.Locking? {
      HoldsPublished(s, s', x, y, y.phase.next);
    } else if Open(y.phase) {
      HoldsPublished(s, s', x, y, |Plan(s.order, y.call.request)|);
      if y.phase.Inserted? || y.phase.Appending? {
        RowPendingPublished(s, s', x, y, y.phase.draft, y.phase.id);
      }
      if y.phase.Appending? {
        EntriesPendingPublished(s, s', x, y, y.phase.draft, y.phase.id, y.phase.entryIds);
      }
    }
  }

  lemma OtherOkAfterCommit(s: State, s': State, t: TxnId, u: TxnId)
    requires OrderOk(s) && TxnsOk(s) && AllApart(s) && t in s.txns && u in s.txns && u != t
    requires Published(s, s', s.txns[t])
    ensures TxnOk(s', s.txns[u])
  {
    WritesAreWithin(s, s.txns[t]);
    TxnOkPublished(s, s', s.txns[t], s.txns[u]);
  }

  lemma CommitKeepsTxns(s: State, s': State, t: TxnId)
    requires OrderOk(s) && TxnsOk(s) && AllApart(s) && t in s.txns
    requires Published(s, s', s.txns[t]) && OnlyMoves(s, s', t)
    requires TxnOk(s', s'.txns[t])
    ensures TxnsOk(s')
  {
    forall u | u in s'.txns
      ensures TxnOk(s', s'.txns[u])
    {
      if u != t {
        OtherOkAfterCommit(s, s', t, u);
      }
    }
  }

  lemma EmptyHandedApart(s: State, s': State, t: TxnId)
    requires AllApart(s) && OnlyMoves(s, s', t)
    requires s'.txns[t].copies == map[] && s'.txns[t].writes == NO_WRITES
    ensures AllApart(s')
  {
    forall u, v | u in s'.txns && v in s'.txns && u != v
      ensures Apart(s'.txns[u], s'.txns[v])
    {
      if u != t && v != t {
        assert Apart(s.txns[u], s.txns[v]);
      }
    }
  }

  lemma CommitInv(s: State, t: TxnId, acknowledged: bool)
    requires Inv(s) && t in s.txns && Open(s.txns[t].phase)
    ensures Inv(CommitStep(s, t, acknowledged))
  {
    CommitShape(s, t, acknowledged);
    assert TxnOk(s, s.txns[t]);
    WritesAreWithin(s, s.txns[t]);
    PublishedInv(s, CommitStep(s, t, acknowledged), t);
  }

  lemma CommitShape(s: State, t: TxnId, acknowledged: bool)
    requires t in s.txns && Open(s.txns[t].phase)
    ensures var s' := CommitStep(s, t, acknowledged);
            && Published(s, s', s.txns[t]) && OnlyMoves(s, s', t) && s'.free == s.free + 1
            && s'.txns[t].phase.Done? && s'.txns[t].copies == map[] && s'.txns[t].writes == NO_WRITES
  {
  }

  lemma PublishedInv(s: State, s': State, t: TxnId)
    requires Inv(s) && t in s.txns && Open(s.txns[t].phase) && WritesWithin(s, s.txns[t])
    requires Published(s, s', s.txns[t]) && OnlyMoves(s, s', t) && s'.free == s.free + 1
    requires s'.txns[t].phase.Done? && s'.txns[t].copies == map[] && s'.txns[t].writes == NO_WRITES
    ensures Inv(s')
  {
    CommitKeepsTxns(s, s', t);
    EmptyHandedApart(s, s', t);
    PoolKept(s, s', t);
  }
}
