/** The invariant and the refinement, carried over every run. */
module Safety {
  import opened Domain
  import opened Validation
  import opened Ledger
  import opened Transfers
  import opened History
  import opened Protocol
  import opened Invariant
  import opened Refinement

  /** A transaction is served at most once, and only when it ends. */
  ghost predicate ServedOnce(log: seq<Served>, s: State) {
    && (forall i :: 0 <= i < |log| ==>
          log[i].txn in s.txns && s.txns[log[i].txn].phase.Done? && s.txns[log[i].txn].call == log[i].call)
    && (forall i, j :: 0 <= i < j < |log| ==> log[i].txn != log[j].txn)
  }

  ghost predicate Safe(opening: map<AccountId, Row>, log: seq<Served>, s: State) {
    Inv(s) && Refines(opening, log, s) && Answered(log, s) && ServedOnce(log, s)
  }

  /** A step moves one unfinished (or new) transaction and keeps its call. */
  ghost predicate Moves(s: State, s': State, t: TxnId) {
    && OnlyMoves(s, s', t)
    && (t in s.txns ==> !s.txns[t].phase.Done? && s'.txns[t].call == s.txns[t].call)
  }

  lemma InLogGrows(log: seq<Served>, more: seq<Served>, t: TxnId, call: Call, o: Outcome)
    requires InLog(log, t, call, o)
    ensures InLog(log + more, t, call, o)
  {
    var i :| 0 <= i < |log| && log[i].txn == t && log[i].call == call && log[i].outcome == o;
    assert (log + more)[i] == log[i];
  }

  /** Log keeping for a step that serves nobody. */
  lemma UnservedStep(log: seq<Served>, s: State, s': State, t: TxnId)
    requires Answered(log, s) && ServedOnce(log, s) && Moves(s, s', t)
    requires s'.txns[t].phase.Done? ==> s'.txns[t].phase.outcome == Refused(ErrUnavailable)
    ensures Answered(log, s') && ServedOnce(log, s')
  {
    forall u | u in s'.txns && s'.txns[u].phase.Done? && s'.txns[u].phase.outcome != Refused(ErrUnavailable)
      ensures InLog(log, u, s'.txns[u].call, s'.txns[u].phase.outcome)
    {
      assert u in s.txns && s'.txns[u] == s.txns[u];
    }
  }

  /** Log keeping for a step that serves t. */
  lemma ServedStep(log: seq<Served>, s: State, s': State, e: Served)
    requires Answered(log, s) && ServedOnce(log, s) && Moves(s, s', e.txn)
    requires s'.txns[e.txn].phase.Done? && s'.txns[e.txn].call == e.call
    requires s'.txns[e.txn].phase.outcome == e.outcome || s'.txns[e.txn].phase.outcome == Refused(ErrUnavailable)
    ensures Answered(log + [e], s') && ServedOnce(log + [e], s')
  {
    var log' := log + [e];
    assert log'[|log|] == e;
    forall u | u in s'.txns && s'.txns[u].phase.Done? && s'.txns[u].phase.outcome != Refused(ErrUnavailable)
      ensures InLog(log', u, s'.txns[u].call, s'.txns[u].phase.outcome)
    {
      if u != e.txn {
        assert u in s.txns && s'.txns[u] == s.txns[u];
        InLogGrows(log, [e], u, s.txns[u].call, s.txns[u].phase.outcome);
      }
    }
    forall i | 0 <= i < |log'|
      ensures log'[i].txn in s'.txns && s'.txns[log'[i].txn].phase.Done? && s'.txns[log'[i].txn].call == log'[i].call
      ensures i < |log| ==> log'[i].txn != e.txn
    {
      if i < |log| {
        assert log'[i] == log[i];
      }
    }
  }

  /** Log keeping for steps that log exactly the refusals they end with. */
  lemma EndedStep(log: seq<Served>, s: State, s': State, t: TxnId)
    requires Answered(log, s) && ServedOnce(log, s) && Moves(s, s', t)
    ensures Answered(log + Ended(s', t), s') && ServedOnce(log + Ended(s', t), s')
  {
    if s'.txns[t].phase.Done? {
      ServedStep(log, s, s', Ended(s', t)[0]);
    } else {
      assert log + [] == log;
      UnservedStep(log, s, s', t);
    }
  }

  // ------------------------------------------------------------------ every event

  /** The committed balances are never negative, so SAVE and APPEND pass their CHECKs. */
  lemma NoOverdraft(opening: map<AccountId, Row>, log: seq<Served>, s: State)
    requires OpeningOk(opening) && Refines(opening, log, s)
    ensures forall a :: a in s.accounts ==> 0 <= s.accounts[a].balance
  {
    ReplayedOk(opening, log);
  }

  /** A step that neither publishes nor ends its transaction. */
  lemma QuietSafe(opening: map<AccountId, Row>, log: seq<Served>, s: State, s': State, t: TxnId)
    requires Safe(opening, log, s) && Inv(s') && SameTables(s, s') && Moves(s, s', t)
    requires !s'.txns[t].phase.Done?
    ensures Safe(opening, log + Ended(s', t), s')
  {
    assert log + [] == log;
    QuietRefines(opening, log, s, s');
    UnservedStep(log, s, s', t);
  }

  // Each step function moves its transaction and publishes nothing.

  lemma PutMoves(s: State, t: TxnId, x: Txn)
    requires t in s.txns && !s.txns[t].phase.Done? && x.call == s.txns[t].call
    ensures var s' := Put(s, t, x); Moves(s, s', t) && SameTables(s, s')
  {
  }

  lemma FinishMoves(s: State, t: TxnId, o: Outcome)
    requires t in s.txns && !s.txns[t].phase.Done?
    ensures var s' := Finish(s, t, o); Moves(s, s', t) && SameTables(s, s')
  {
  }

  lemma CheckStepMoves(s: State, t: TxnId)
    requires t in s.txns && s.txns[t].phase.Locking?
    ensures var s' := CheckStep(s, t); Moves(s, s', t) && SameTables(s, s')
  {
    var x := s.txns[t];
    if !IdsStorable(x.call.request) {
      FinishMoves(s, t, Refused(ErrUnstorable));
    } else {
      match DecideOn(x.copies, x.call)
      case Reject(e) => FinishMoves(s, t, Refused(e));
      case Accept(d) => PutMoves(s, t, x.(phase := Drafted(d)));
    }
  }

  lemma InsertRowMoves(s: State, t: TxnId, id: Uuid)
    requires t in s.txns && s.txns[t].phase.Drafted? && ParseKey(s.txns[t].call.key).Some?
    ensures var s' := InsertRow(s, t, id); Moves(s, s', t) && SameTables(s, s')
  {
    var x := s.txns[t];
    if KeyOf(x.call) in s.transfers {
      PutMoves(s, t, x.(phase := Conflicted(x.phase.draft)));
    } else if x.call.request.from !in s.accounts || x.call.request.to !in s.accounts {
      FinishMoves(s, t, Refused(ErrConstraint));
    } else {
      PutMoves(s, t, WithRow(x, id));
    }
  }

  lemma InsertStepMoves(s: State, t: TxnId, id: Uuid)
    requires t in s.txns && s.txns[t].phase.Drafted?
    ensures var s' := InsertStep(s, t, id); Moves(s, s', t) && SameTables(s, s')
  {
    var x := s.txns[t];
    if ParseKey(x.call.key).None? {
      FinishMoves(s, t, Refused(ErrInvalidTransfer));
    } else if !RowStorable(x.call) {
      FinishMoves(s, t, Refused(ErrUnstorable));
    } else if !TransferChecks(x.call.user, Stored(x.call, id, x.phase.draft).transfer) {
      FinishMoves(s, t, Refused(ErrConstraint));
    } else {
      InsertRowMoves(s, t, id);
    }
  }

  lemma LookupStepMoves(s: State, t: TxnId)
    requires t in s.txns && s.txns[t].phase.Conflicted?
    ensures var s' := LookupStep(s, t); Moves(s, s', t) && SameTables(s, s')
  {
    var x := s.txns[t];
    if ParseKey(x.call.key).None? || KeyOf(x.call) !in s.transfers {
      FinishMoves(s, t, Refused(ErrUnavailable));
    } else {
      match Replay(s.transfers[KeyOf(x.call)], x.call.request)
      case Refused(e) => FinishMoves(s, t, Refused(e));
      case Reply(found, _) => PutMoves(s, t, x.(phase := Replaying(x.phase.draft, found)));
    }
  }

  lemma SaveStepMoves(s: State, t: TxnId)
    requires t in s.txns && s.txns[t].phase.Inserted?
    ensures var s' := SaveStep(s, t); Moves(s, s', t) && SameTables(s, s')
  {
    var x := s.txns[t];
    var d, r := x.phase.draft, x.call.request;
    if d.source < 0 || d.destination < 0 {
      FinishMoves(s, t, Refused(ErrConstraint));
    } else if r.from !in s.accounts || r.to !in s.accounts || r.from == r.to {
      FinishMoves(s, t, Refused(ErrRowCount));
    } else {
      PutMoves(s, t, SaveStep(s, t).txns[t]);
    }
  }

  lemma AppendStepMoves(s: State, t: TxnId)
    requires Enabled(s, AppendRow(t))
    ensures var s' := AppendStep(s, t); Moves(s, s', t) && SameTables(s, s')
  {
    FinishMoves(s, t, Refused(ErrConstraint));
    assert t in AppendStep(s, t).txns;
    var x' := AppendStep(s, t).txns[t];
    if !x'.phase.Done? {
      PutMoves(s, t, x');
    }
  }

  // Each event moves one transaction, logs what it ends, and is safe.

  lemma SubmitMoves(s: State, t: TxnId, call: Call)
    requires Enabled(s, Submit(t, call))
    ensures var s' := Next(s, Submit(t, call));
            s' == SubmitStep(s, t, call) && Moves(s, s', t) && Serves(s, Submit(t, call)) == Ended(s', t)
  {
  }

  lemma SubmitSafe(opening: map<AccountId, Row>, log: seq<Served>, s: State, t: TxnId, call: Call)
    requires OpeningOk(opening) && Safe(opening, log, s) && Enabled(s, Submit(t, call))
    ensures Safe(opening, log + Serves(s, Submit(t, call)), Next(s, Submit(t, call)))
  {
    SubmitMoves(s, t, call);
    SubmitInv(s, t, call);
    SubmitRefines(opening, log, s, t, call);
    EndedStep(log, s, Next(s, Submit(t, call)), t);
  }

  lemma BeginMoves(s: State, t: TxnId)
    requires Enabled(s, Begin(t))
    ensures var s' := Next(s, Begin(t));
            && s' == Put(s, t, s.txns[t].(phase := Locking(0))).(free := s.free - 1)
            && Moves(s, s', t) && Serves(s, Begin(t)) == Ended(s', t)
            && SameTables(s, s') && !s'.txns[t].phase.Done?
  {
  }

  lemma BeginSafe(opening: map<AccountId, Row>, log: seq<Served>, s: State, t: TxnId)
    requires OpeningOk(opening) && Safe(opening, log, s) && Enabled(s, Begin(t))
    ensures Safe(opening, log + Serves(s, Begin(t)), Next(s, Begin(t)))
  {
    BeginMoves(s, t);
    BeginInv(s, t);
    QuietSafe(opening, log, s, Next(s, Begin(t)), t);
  }

  lemma LockMoves(s: State, t: TxnId)
    requires Enabled(s, LockRow(t))
    ensures var s' := Next(s, LockRow(t));
            && s' == LockStep(s, t) && Moves(s, s', t) && Serves(s, LockRow(t)) == Ended(s', t)
            && SameTables(s, s') && !s'.txns[t].phase.Done?
  {
  }

  lemma LockSafe(opening: map<AccountId, Row>, log: seq<Served>, s: State, t: TxnId)
    requires OpeningOk(opening) && Safe(opening, log, s) && Enabled(s, LockRow(t))
    ensures Safe(opening, log + Serves(s, LockRow(t)), Next(s, LockRow(t)))
  {
    LockMoves(s, t);
    LockInv(s, t);
    QuietSafe(opening, log, s, Next(s, LockRow(t)), t);
  }

  lemma CheckMoves(s: State, t: TxnId)
    requires Enabled(s, Check(t))
    ensures var s' := Next(s, Check(t));
            s' == CheckStep(s, t) && Moves(s, s', t) && Serves(s, Check(t)) == Ended(s', t) && SameTables(s, s')
  {
    CheckStepMoves(s, t);
  }

  lemma CheckSafe(opening: map<AccountId, Row>, log: seq<Served>, s: State, t: TxnId)
    requires OpeningOk(opening) && Safe(opening, log, s) && Enabled(s, Check(t))
    ensures Safe(opening, log + Serves(s, Check(t)), Next(s, Check(t)))
  {
    CheckMoves(s, t);
    CheckInv(s, t);
    CheckRefines(opening, log, s, t);
    EndedStep(log, s, Next(s, Check(t)), t);
  }

  lemma InsertMoves(s: State, t: TxnId, id: Uuid)
    requires Enabled(s, Insert(t, id))
    ensures var s' := Next(s, Insert(t, id));
            && s' == InsertStep(s, t, id) && Moves(s, s', t) && Serves(s, Insert(t, id)) == Ended(s', t)
            && SameTables(s, s')
  {
    InsertStepMoves(s, t, id);
  }

  lemma InsertSafe(opening: map<AccountId, Row>, log: seq<Served>, s: State, t: TxnId, id: Uuid)
    requires OpeningOk(opening) && Safe(opening, log, s) && Enabled(s, Insert(t, id))
    ensures Safe(opening, log + Serves(s, Insert(t, id)), Next(s, Insert(t, id)))
  {
    InsertMoves(s, t, id);
    InsertInv(s, t, id);
    InsertRefines(opening, log, s, t, id);
    EndedStep(log, s, Next(s, Insert(t, id)), t);
  }

  lemma LookupMoves(s: State, t: TxnId)
    requires Enabled(s, Lookup(t))
    ensures var s' := Next(s, Lookup(t));
            s' == LookupStep(s, t) && Moves(s, s', t) && Serves(s, Lookup(t)) == Ended(s', t) && SameTables(s, s')
  {
    LookupStepMoves(s, t);
  }

  lemma LookupSafe(opening: map<AccountId, Row>, log: seq<Served>, s: State, t: TxnId)
    requires OpeningOk(opening) && Safe(opening, log, s) && Enabled(s, Lookup(t))
    ensures Safe(opening, log + Serves(s, Lookup(t)), Next(s, Lookup(t)))
  {
    LookupMoves(s, t);
    LookupInv(s, t);
    LookupRefines(opening, log, s, t);
    EndedStep(log, s, Next(s, Lookup(t)), t);
  }

  lemma SaveMoves(s: State, t: TxnId)
    requires Enabled(s, Save(t))
    ensures var s' := Next(s, Save(t));
            s' == SaveStep(s, t) && Moves(s, s', t) && Serves(s, Save(t)) == Ended(s', t) && SameTables(s, s')
  {
    SaveStepMoves(s, t);
  }

  lemma SaveSafe(opening: map<AccountId, Row>, log: seq<Served>, s: State, t: TxnId)
    requires OpeningOk(opening) && Safe(opening, log, s) && Enabled(s, Save(t))
    ensures Safe(opening, log + Serves(s, Save(t)), Next(s, Save(t)))
  {
    SaveMoves(s, t);
    NoOverdraft(opening, log, s);
    SaveInv(s, t);
    QuietSafe(opening, log, s, Next(s, Save(t)), t);
  }

  lemma AppendMoves(s: State, t: TxnId)
    requires Enabled(s, AppendRow(t))
    ensures var s' := Next(s, AppendRow(t));
            s' == AppendStep(s, t) && Moves(s, s', t) && Serves(s, AppendRow(t)) == Ended(s', t) && SameTables(s, s')
  {
    AppendStepMoves(s, t);
  }

  lemma AppendSafe(opening: map<AccountId, Row>, log: seq<Served>, s: State, t: TxnId)
    requires OpeningOk(opening) && Safe(opening, log, s) && Enabled(s, AppendRow(t))
    ensures Safe(opening, log + Serves(s, AppendRow(t)), Next(s, AppendRow(t)))
  {
    AppendMoves(s, t);
    NoOverdraft(opening, log, s);
    AppendInv(s, t);
    QuietSafe(opening, log, s, Next(s, AppendRow(t)), t);
  }

  lemma CommitMoves(s: State, t: TxnId, acknowledged: bool)
    requires Enabled(s, Commit(t, acknowledged))
    ensures var s' := Next(s, Commit(t, acknowledged));
            && s' == CommitStep(s, t, acknowledged) && Moves(s, s', t)
            && Serves(s, Commit(t, acknowledged))
               == [Served(t, s.txns[t].call, CreatedId(s.txns[t].phase), Answer(s.txns[t]))]
            && Open(s.txns[t].phase) && s'.txns[t].call == s.txns[t].call
            && (s'.txns[t].phase == Done(Answer(s.txns[t])) || s'.txns[t].phase == Done(Refused(ErrUnavailable)))
  {
  }

  lemma CommitSafe(opening: map<AccountId, Row>, log: seq<Served>, s: State, t: TxnId, acknowledged: bool)
    requires OpeningOk(opening) && Safe(opening, log, s) && Enabled(s, Commit(t, acknowledged))
    ensures Safe(opening, log + Serves(s, Commit(t, acknowledged)), Next(s, Commit(t, acknowledged)))
  {
    CommitMoves(s, t, acknowledged);
    CommitInv(s, t, acknowledged);
    CommitRefines(opening, log, s, t, acknowledged);
    ServedStep(log, s, Next(s, Commit(t, acknowledged)), Serves(s, Commit(t, acknowledged))[0]);
  }

  lemma AbortMoves(s: State, t: TxnId)
    requires Enabled(s, Abort(t))
    ensures var s' := Next(s, Abort(t));
            && s' == Finish(s, t, Refused(ErrUnavailable)) && Moves(s, s', t) && Serves(s, Abort(t)) == []
            && SameTables(s, s') && s'.txns[t].phase == Done(Refused(ErrUnavailable))
  {
  }

  lemma AbortSafe(opening: map<AccountId, Row>, log: seq<Served>, s: State, t: TxnId)
    requires OpeningOk(opening) && Safe(opening, log, s) && Enabled(s, Abort(t))
    ensures Safe(opening, log + Serves(s, Abort(t)), Next(s, Abort(t)))
  {
    AbortMoves(s, t);
    FinishInv(s, t, Refused(ErrUnavailable));
    assert log + [] == log;
    QuietRefines(opening, log, s, Next(s, Abort(t)));
    UnservedStep(log, s, Next(s, Abort(t)), t);
  }

  /** Every event moves one transaction that has not ended. */
  lemma StepMoves(s: State, e: Event)
    requires Enabled(s, e)
    ensures Moves(s, Next(s, e), e.t)
  {
    match e
    case Submit(t, call) => SubmitMoves(s, t, call);
    case Begin(t) => BeginMoves(s, t);
    case LockRow(t) => LockMoves(s, t);
    case Check(t) => CheckMoves(s, t);
    case Insert(t, id) => InsertMoves(s, t, id);
    case Lookup(t) => LookupMoves(s, t);
    case Save(t) => SaveMoves(s, t);
    case AppendRow(t) => AppendMoves(s, t);
    case Commit(t, acknowledged) => CommitMoves(s, t, acknowledged);
    case Abort(t) => AbortMoves(s, t);
  }

  /** Every step keeps the invariant and extends the serial history by what it serves. */
  lemma SafeStep(opening: map<AccountId, Row>, log: seq<Served>, s: State, e: Event)
    requires OpeningOk(opening) && Safe(opening, log, s) && Enabled(s, e)
    ensures Safe(opening, log + Serves(s, e), Next(s, e))
  {
    match e
    case Submit(t, call) => SubmitSafe(opening, log, s, t, call);
    case Begin(t) => BeginSafe(opening, log, s, t);
    case LockRow(t) => LockSafe(opening, log, s, t);
    case Check(t) => CheckSafe(opening, log, s, t);
    case Insert(t, id) => InsertSafe(opening, log, s, t, id);
    case Lookup(t) => LookupSafe(opening, log, s, t);
    case Save(t) => SaveSafe(opening, log, s, t);
    case AppendRow(t) => AppendSafe(opening, log, s, t);
    case Commit(t, acknowledged) => CommitSafe(opening, log, s, t, acknowledged);
    case Abort(t) => AbortSafe(opening, log, s, t);
  }

  /** Every run, of any length and any interleaving, is safe. */
  lemma {:induction false} EveryRunIsSafe(s0: State, run: seq<Event>)
    requires Initial(s0) && Executes(s0, run)
    ensures Safe(s0.accounts, LogOf(s0, run), After(s0, run))
  {
    if run == [] {
      InitialInv(s0);
      forall a ensures Statement(s0, a) == ByAccount([], a) {
        ScanEmpty(a, s0.nextEntryId);
      }
    } else {
      var n := |run| - 1;
      EveryRunIsSafe(s0, run[..n]);
      SafeStep(s0.accounts, LogOf(s0, run[..n]), After(s0, run[..n]), run[n]);
    }
  }
}
