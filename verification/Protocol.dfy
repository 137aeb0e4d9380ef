/** Create as PostgreSQL runs it: any number of transactions, each a sequence of statements, with
    every interleaving, an abort at any point and a commit whose acknowledgement is lost.

    The database supplies four rules. A row read FOR UPDATE is its latest committed version and
    stays locked until the reader's transaction ends. Writes become visible at commit, all at once.
    An INSERT of a key waits while another open transaction has inserted it. Identity ids are drawn
    one per row, never repeat and are not given back. */
module Protocol {
  import opened Domain
  import opened Text
  import opened Validation
  import opened Transfers
  import opened History

  type TxnId = nat

  /** What an open transaction has written and nobody else can see yet. */
  datatype Writes = Writes(
    transfers: map<Key, StoredTransfer>, balances: map<AccountId, int64>, entries: map<nat, LedgerEntry>)

  const NO_WRITES := Writes(map[], map[], map[])

  /** How far a transaction has got. */
  datatype Phase =
    | Waiting                                                        // for a pool connection
    | Locking(next: nat)                                             // rows locked so far
    | Drafted(draft: Draft)                                          // decided; INSERT is next
    | Conflicted(draft: Draft)                                       // key taken; SELECT is next
    | Replaying(draft: Draft, found: Transfer)                       // retry; COMMIT is next
    | Inserted(draft: Draft, id: Uuid)                               // row inserted
    | Appending(draft: Draft, id: Uuid, entryIds: seq<nat>)          // balances saved, ledger rows drawn
    | Done(outcome: Outcome)

  /** `copies` are the rows as they were read under lock. */
  datatype Txn = Txn(call: Call, phase: Phase, copies: map<AccountId, Row>, writes: Writes)

  /** Committed tables, the order ORDER BY id gives the account rows, the identity counter, the
      connection pool and every transaction ever submitted. */
  datatype State = State(
    accounts: map<AccountId, Row>, transfers: map<Key, StoredTransfer>, ledger: map<nat, LedgerEntry>,
    order: map<AccountId, nat>, nextEntryId: nat, pool: nat, free: nat, txns: map<TxnId, Txn>)

  datatype Event =
    | Submit(t: TxnId, call: Call)
    | Begin(t: TxnId)
    | LockRow(t: TxnId)
    | Check(t: TxnId)
    | Insert(t: TxnId, id: Uuid)
    | Lookup(t: TxnId)
    | Save(t: TxnId)
    | AppendRow(t: TxnId)
    | Commit(t: TxnId, acknowledged: bool)
    | Abort(t: TxnId)

  /** The rows SELECT ... WHERE id = ANY(from, to) ORDER BY id FOR UPDATE locks, in that order; sent
      an id PostgreSQL cannot hold, the statement fails before it locks any. */
  function Plan(order: map<AccountId, nat>, r: CreateTransfer): seq<AccountId> {
    if !IdsStorable(r) then []
    else if r.from in order && r.to in order then
      if order[r.from] < order[r.to] then [r.from, r.to] else [r.to, r.from]
    else if r.from in order then [r.from]
    else if r.to in order then [r.to]
    else []
  }

  predicate Open(p: Phase) {
    !p.Waiting? && !p.Done?
  }

  predicate RowFree(s: State, a: AccountId) {
    forall u :: u in s.txns ==> a !in s.txns[u].copies
  }

  predicate KeyFree(s: State, k: Key) {
    forall u :: u in s.txns ==> k !in s.txns[u].writes.transfers
  }

  /** No row, committed or pending, has this transfer id. */
  ghost predicate IdFree(s: State, id: Uuid) {
    && FreshId(s.transfers, id)
    && forall u :: u in s.txns ==> FreshId(s.txns[u].writes.transfers, id)
  }

  /** Nothing is left to do but COMMIT. */
  predicate CommitReady(p: Phase) {
    match p
    case Replaying(_, _) => true
    case Inserted(d, _) => d.status != Completed
    case Appending(_, _, ids) => |ids| == 2
    case _ => false
  }

  ghost predicate Enabled(s: State, e: Event) {
    if e.Submit? then e.t !in s.txns
    else
      e.t in s.txns &&
      var x := s.txns[e.t];
      match e
      case Begin(_) => x.phase.Waiting? && s.free > 0
      case LockRow(_) =>
        && x.phase.Locking? && x.phase.next < |Plan(s.order, x.call.request)|
        && RowFree(s, Plan(s.order, x.call.request)[x.phase.next])
        && Plan(s.order, x.call.request)[x.phase.next] in s.accounts
      case Check(_) => x.phase.Locking? && x.phase.next == |Plan(s.order, x.call.request)|
      case Insert(_, id) =>
        x.phase.Drafted? && (Insertable(x.call) ==> KeyFree(s, KeyOf(x.call)) && IdFree(s, id))
      case Lookup(_) => x.phase.Conflicted?
      case Save(_) => x.phase.Inserted? && x.phase.draft.status == Completed
      case AppendRow(_) => x.phase.Appending? && |x.phase.entryIds| < 2
      case Commit(_, _) => CommitReady(x.phase)
      case Abort(_) => !x.phase.Done?
  }

  function Put(s: State, t: TxnId, x: Txn): State {
    s.(txns := s.txns[t := x])
  }

  /** The transaction ends: locks, pending writes and the connection go; the tables stay. */
  function Finish(s: State, t: TxnId, outcome: Outcome): State
    requires t in s.txns
  {
    var x := s.txns[t];
    Put(s, t, Txn(x.call, Done(outcome), map[], NO_WRITES))
    .(free := if Open(x.phase) then s.free + 1 else s.free)
  }

  /** Calls refused before a transaction is opened end here; the others wait for a connection. */
  function Admit(call: Call): Phase {
    if Trim(call.user, IsSpace) == [] then Done(Refused(ErrForbidden))
    else if Validate(call.request).Some? then Done(Refused(ErrInvalidTransfer))
    else Waiting
  }

  function SubmitStep(s: State, t: TxnId, call: Call): State {
    Put(s, t, Txn(call, Admit(call), map[], NO_WRITES))
  }

  function LockStep(s: State, t: TxnId): State
    requires Enabled(s, LockRow(t))
  {
    var x := s.txns[t];
    var a := Plan(s.order, x.call.request)[x.phase.next];
    Put(s, t, x.(phase := Locking(x.phase.next + 1), copies := x.copies[a := s.accounts[a]]))
  }

  /** The lock statement returns, or has failed on its ids; the service checks what it got. */
  function CheckStep(s: State, t: TxnId): State
    requires t in s.txns
  {
    var x := s.txns[t];
    if !IdsStorable(x.call.request) then Finish(s, t, Refused(ErrUnstorable))
    else
      match DecideOn(x.copies, x.call)
      case Reject(e) => Finish(s, t, Refused(e))
      case Accept(d) => Put(s, t, x.(phase := Drafted(d)))
  }

  /** The conflict, and for a row that is inserted its foreign keys. */
  function InsertRow(s: State, t: TxnId, id: Uuid): State
    requires t in s.txns && s.txns[t].phase.Drafted? && ParseKey(s.txns[t].call.key).Some?
  {
    var x := s.txns[t];
    var d, r, key := x.phase.draft, x.call.request, KeyOf(x.call);
    if key in s.transfers then Put(s, t, x.(phase := Conflicted(d)))
    else if r.from !in s.accounts || r.to !in s.accounts then Finish(s, t, Refused(ErrConstraint))
    else
      Put(s, t, x.(phase := Inserted(d, id),
                   writes := x.writes.(transfers := map[key := Stored(x.call, id, d)])))
  }

  /** The key is parsed, then the text is received, then CHECKs are tested, then the conflict. */
  function InsertStep(s: State, t: TxnId, id: Uuid): State
    requires t in s.txns && s.txns[t].phase.Drafted?
  {
    var x := s.txns[t];
    if ParseKey(x.call.key).None? then Finish(s, t, Refused(ErrInvalidTransfer))
    else if !RowStorable(x.call) then Finish(s, t, Refused(ErrUnstorable))
    else if !TransferChecks(x.call.user, Stored(x.call, id, x.phase.draft).transfer) then
      Finish(s, t, Refused(ErrConstraint))
    else InsertRow(s, t, id)
  }

  function LookupStep(s: State, t: TxnId): State
    requires t in s.txns && s.txns[t].phase.Conflicted?
  {
    var x := s.txns[t];
    if ParseKey(x.call.key).None? || KeyOf(x.call) !in s.transfers then Finish(s, t, Refused(ErrUnavailable))
    else
      match Replay(s.transfers[KeyOf(x.call)], x.call.request)
      case Refused(e) => Finish(s, t, Refused(e))
      case Reply(found, _) => Put(s, t, x.(phase := Replaying(x.phase.draft, found)))
  }

  /** UPDATE of both balances, with the schema's CHECK and the row count the repository tests. */
  function SaveStep(s: State, t: TxnId): State
    requires t in s.txns && s.txns[t].phase.Inserted?
  {
    var x := s.txns[t];
    var d, r := x.phase.draft, x.call.request;
    if d.source < 0 || d.destination < 0 then Finish(s, t, Refused(ErrConstraint))
    else if r.from !in s.accounts || r.to !in s.accounts || r.from == r.to then Finish(s, t, Refused(ErrRowCount))
    else
      Put(s, t, x.(phase := Appending(d, x.phase.id, []),
                   writes := x.writes.(balances := map[r.from := d.source, r.to := d.destination])))
  }

  /** One row of the ledger INSERT, drawing one identity id: first the debit, then the credit. Its
      foreign keys see the committed rows and the transaction's own. */
  function AppendStep(s: State, t: TxnId): State
    requires Enabled(s, AppendRow(t))
  {
    var x := s.txns[t];
    var d, r, id := x.phase.draft, x.call.request, x.phase.id;
    if r.amount <= 0 then Finish(s, t, Refused(ErrConstraint))
    else
      var entry := if x.phase.entryIds == [] then DebitEntry(r, id, d) else CreditEntry(r, id, d);
      if entry.balanceAfter < 0 || entry.accountId !in s.accounts
         || !IdStored(s.transfers + x.writes.transfers, entry.transferId) then Finish(s, t, Refused(ErrConstraint))
      else
        Put(s, t, x.(phase := Appending(d, id, x.phase.entryIds + [s.nextEntryId]),
                     writes := x.writes.(entries := x.writes.entries[s.nextEntryId := entry])))
        .(nextEntryId := s.nextEntryId + 1)
  }

  function Merge(rows: map<AccountId, Row>, balances: map<AccountId, int64>): map<AccountId, Row> {
    map a | a in rows :: if a in balances then rows[a].(balance := balances[a]) else rows[a]
  }

  /** The tables with a transaction's writes in them. */
  function Publish(s: State, w: Writes): State {
    s.(accounts := Merge(s.accounts, w.balances),
       transfers := s.transfers + w.transfers,
       ledger := s.ledger + w.entries)
  }

  /** What a transaction that commits in this phase answers. */
  function Answer(x: Txn): Outcome {
    match x.phase
    case Replaying(_, found) => Reply(found, false)
    case Inserted(d, id) =>
      if ParseKey(x.call.key).Some? then Reply(Stored(x.call, id, d).transfer, true)
      else Refused(ErrUnavailable)
    case Appending(d, id, _) =>
      if ParseKey(x.call.key).Some? then Reply(Stored(x.call, id, d).transfer, true)
      else Refused(ErrUnavailable)
    case _ => Refused(ErrUnavailable)
  }

  function CommitStep(s: State, t: TxnId, acknowledged: bool): State
    requires t in s.txns
  {
    var x := s.txns[t];
    Finish(Publish(s, x.writes), t, if acknowledged then Answer(x) else Refused(ErrUnavailable))
  }

  function Next(s: State, e: Event): State
    requires Enabled(s, e)
  {
    match e
    case Submit(t, call) => SubmitStep(s, t, call)
    case Begin(t) => Put(s, t, s.txns[t].(phase := Locking(0))).(free := s.free - 1)
    case LockRow(t) => LockStep(s, t)
    case Check(t) => CheckStep(s, t)
    case Insert(t, id) => InsertStep(s, t, id)
    case Lookup(t) => LookupStep(s, t)
    case Save(t) => SaveStep(s, t)
    case AppendRow(t) => AppendStep(s, t)
    case Commit(t, acknowledged) => CommitStep(s, t, acknowledged)
    case Abort(t) => Finish(s, t, Refused(ErrUnavailable))
  }

  /** The row id a committing transaction created. */
  function CreatedId(p: Phase): Uuid {
    match p
    case Inserted(_, id) => id
    case Appending(_, id, _) => id
    case _ => 0
  }

  function Ended(s: State, t: TxnId): seq<Served> {
    if t in s.txns && s.txns[t].phase.Done? then [Served(t, s.txns[t].call, 0, s.txns[t].phase.outcome)] else []
  }

  /** The calls this event finishes serving: commits, and business refusals, which roll back. */
  function Serves(s: State, e: Event): seq<Served>
    requires Enabled(s, e)
  {
    match e
    case Commit(t, _) => [Served(t, s.txns[t].call, CreatedId(s.txns[t].phase), Answer(s.txns[t]))]
    case Abort(_) => []
    case _ => Ended(Next(s, e), e.t)
  }

  // ------------------------------------------------------------------ runs

  /** Nothing has happened yet: opening balances, empty tables, all connections free. */
  ghost predicate Initial(s: State) {
    && OpeningOk(s.accounts)
    && s.transfers == map[] && s.ledger == map[] && s.txns == map[]
    && s.order.Keys == s.accounts.Keys
    && (forall a, b :: a in s.order && b in s.order && s.order[a] == s.order[b] ==> a == b)
    && s.free == s.pool && s.pool >= 1
  }

  ghost predicate Executes(s0: State, run: seq<Event>)
    decreases |run|, 0
  {
    run == [] ||
    var n := |run| - 1;
    Executes(s0, run[..n]) && Enabled(After(s0, run[..n]), run[n])
  }

  ghost function After(s0: State, run: seq<Event>): State
    requires Executes(s0, run)
    decreases |run|, 1
  {
    if run == [] then s0 else Next(After(s0, run[..|run| - 1]), run[|run| - 1])
  }

  /** The calls served during a run, in the order they were decided. */
  ghost function LogOf(s0: State, run: seq<Event>): seq<Served>
    requires Executes(s0, run)
    decreases |run|
  {
    if run == [] then []
    else
      var n := |run| - 1;
      LogOf(s0, run[..n]) + Serves(After(s0, run[..n]), run[n])
  }
}
