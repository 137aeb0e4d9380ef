/** No deadlock, and every call is eventually served. */
module Progress {
  import opened Domain
  import opened Validation
  import opened Transfers
  import opened Protocol
  import opened Invariant
  import opened Safety
  import opened Runs
  import opened Sums

  // ------------------------------------------------------------------ who waits for whom

  /** t wants a row u has locked. */
  ghost predicate WaitsForRow(s: State, t: TxnId, u: TxnId) {
    && t in s.txns && u in s.txns && t != u
    && var x := s.txns[t]; var plan := Plan(s.order, x.call.request);
       x.phase.Locking? && x.phase.next < |plan| && plan[x.phase.next] in s.txns[u].copies
  }

  /** t wants to insert a key u has inserted and not committed. */
  ghost predicate WaitsForKey(s: State, t: TxnId, u: TxnId) {
    && t in s.txns && u in s.txns && t != u
    && var x := s.txns[t];
       x.phase.Drafted? && Insertable(x.call) && KeyOf(x.call) in s.txns[u].writes.transfers
  }

  /** t wants a connection and u has one of them. */
  ghost predicate WaitsForConnection(s: State, t: TxnId, u: TxnId) {
    && t in s.txns && u in s.txns && t != u
    && s.txns[t].phase.Waiting? && s.free == 0 && Open(s.txns[u].phase)
  }

  ghost predicate WaitsFor(s: State, t: TxnId, u: TxnId) {
    WaitsForRow(s, t, u) || WaitsForKey(s, t, u) || WaitsForConnection(s, t, u)
  }

  /** An upper bound of a finite map's values. */
  ghost function Bound(m: map<AccountId, nat>): (b: nat)
    ensures forall a :: a in m ==> m[a] < b
    decreases |m|
  {
    if m == map[] then 0
    else
      var a :| a in m;
      var rest := Bound(m - {a});
      assert forall c :: c in m && c != a ==> c in m - {a};
      if m[a] < rest then rest else m[a] + 1
  }

  /** The rank of what a transaction is after: a connection, then rows by id, then its key. */
  ghost function Want(s: State, x: Txn): nat {
    var plan := Plan(s.order, x.call.request);
    if x.phase.Waiting? then 0
    else if x.phase.Locking? && x.phase.next < |plan| then 1 + s.order[plan[x.phase.next]]
    else 1 + Bound(s.order)
  }

  ghost predicate Stuck(s: State, t: TxnId) {
    exists u :: WaitsFor(s, t, u)
  }

  /** The rows still to be locked come after every row already held. */
  lemma PlanRises(s: State, x: Txn, a: AccountId)
    requires OrderOk(s) && TxnOk(s, x) && x.phase.Locking? && a in x.copies
    requires x.phase.next < |Plan(s.order, x.call.request)|
    ensures a in s.order && s.order[a] < s.order[Plan(s.order, x.call.request)[x.phase.next]]
  {
    var plan, n := Plan(s.order, x.call.request), x.phase.next;
    assert a in plan[..n];
  }

  lemma RowWaitRises(s: State, t: TxnId, u: TxnId)
    requires Inv(s) && WaitsForRow(s, t, u)
    ensures Want(s, s.txns[t]) < Want(s, s.txns[u])
  {
    var a, y := Plan(s.order, s.txns[t].call.request)[s.txns[t].phase.next], s.txns[u];
    assert TxnOk(s, y);
    if y.phase.Locking? && y.phase.next < |Plan(s.order, y.call.request)| {
      PlanRises(s, y, a);
    }
    assert a in s.order;
  }

  /** A key holder waits for nothing. */
  lemma KeyHolderIsFree(s: State, u: TxnId, k: Key)
    requires TxnsOk(s) && u in s.txns && k in s.txns[u].writes.transfers
    ensures !Stuck(s, u)
  {
    assert TxnOk(s, s.txns[u]);
  }

  lemma OpenWantsMore(s: State, u: TxnId)
    requires u in s.txns && Open(s.txns[u].phase)
    ensures Want(s, s.txns[u]) > 0
  {
  }

  /** Whoever blocks t either waits for nothing or waits for something of higher rank. */
  lemma WaitsRise(s: State, t: TxnId, u: TxnId)
    requires Inv(s) && WaitsFor(s, t, u) && Stuck(s, u)
    ensures Want(s, s.txns[t]) < Want(s, s.txns[u])
  {
    if WaitsForRow(s, t, u) {
      RowWaitRises(s, t, u);
    } else if WaitsForKey(s, t, u) {
      KeyHolderIsFree(s, u, KeyOf(s.txns[t].call));
    } else {
      OpenWantsMore(s, u);
    }
  }

  ghost predicate WaitPath(s: State, path: seq<TxnId>) {
    forall i :: 0 <= i < |path| - 1 ==> WaitsFor(s, path[i], path[i + 1])
  }

  /** Everyone on the path but the last is stuck, and the path without its last is a path. */
  lemma PathParts(s: State, path: seq<TxnId>)
    requires WaitPath(s, path) && |path| >= 2
    ensures WaitsFor(s, path[|path| - 2], path[|path| - 1])
    ensures Stuck(s, path[0]) && Stuck(s, path[|path| - 2])
    ensures WaitPath(s, path[..|path| - 1])
  {
    var n := |path| - 1;
    assert WaitsFor(s, path[0], path[1]) && WaitsFor(s, path[n - 1], path[n - 1 + 1]);
    forall i | 0 <= i < n - 1
      ensures WaitsFor(s, path[..n][i], path[..n][i + 1])
    {
      assert WaitsFor(s, path[i], path[i + 1]);
    }
  }

  /** Every wait leads to a higher rank. */
  ghost predicate Ranked(s: State) {
    forall t, u :: WaitsFor(s, t, u) && Stuck(s, u) ==> Want(s, s.txns[t]) < Want(s, s.txns[u])
  }

  lemma InvRanked(s: State)
    requires Inv(s)
    ensures Ranked(s)
  {
    forall t, u | WaitsFor(s, t, u) && Stuck(s, u)
      ensures Want(s, s.txns[t]) < Want(s, s.txns[u])
    {
      WaitsRise(s, t, u);
    }
  }

  lemma {:induction false} PathRises(s: State, path: seq<TxnId>)
    requires Ranked(s) && WaitPath(s, path) && |path| >= 2 && Stuck(s, path[|path| - 1])
    ensures path[0] in s.txns && path[|path| - 1] in s.txns
    ensures Want(s, s.txns[path[0]]) < Want(s, s.txns[path[|path| - 1]])
  {
    var n := |path| - 1;
    PathParts(s, path);
    if n > 1 {
      PathRises(s, path[..n]);
    }
  }

  /** No deadlock: the wait-for graph over rows, keys and connections has no cycle. */
  lemma NoDeadlock(s: State, path: seq<TxnId>)
    requires Inv(s) && WaitPath(s, path) && |path| >= 2
    ensures path[0] != path[|path| - 1]
  {
    if path[0] == path[|path| - 1] {
      InvRanked(s);
      PathParts(s, path);
      PathRises(s, path);
    }
  }

  // ------------------------------------------------------------------ some transaction can step

  /** An event that moves a call towards its answer. */
  predicate Useful(e: Event) {
    !e.Submit? && !e.Abort? && (e.Commit? ==> e.acknowledged)
  }

  lemma {:induction false} Above(ids: set<nat>) returns (n: nat)
    ensures forall i :: i in ids ==> i < n
  {
    if ids == {} {
      n := 0;
    } else {
      var i :| i in ids;
      var m := Above(ids - {i});
      n := if i < m then m else i + 1;
      assert forall j :: j in ids && j != i ==> j in ids - {i};
    }
  }

  /** There is always an unused transfer id. */
  lemma FreeIdExists(s: State) returns (id: Uuid)
    ensures IdFree(s, id)
  {
    var stored := set k | k in s.transfers :: s.transfers[k].transfer.id;
    var pending := set t, k | t in s.txns && k in s.txns[t].writes.transfers
                     :: s.txns[t].writes.transfers[k].transfer.id;
    id := Above(stored + pending);
    assert forall k :: k in s.transfers ==> s.transfers[k].transfer.id in stored;
    assert forall u, k :: u in s.txns && k in s.txns[u].writes.transfers ==>
             s.txns[u].writes.transfers[k].transfer.id in pending;
  }

  /** A transaction past its locks and its INSERT never waits again. */
  lemma HolderSteps(s: State, t: TxnId) returns (e: Event)
    requires t in s.txns && Open(s.txns[t].phase)
    requires !s.txns[t].phase.Locking? && !s.txns[t].phase.Drafted?
    requires s.txns[t].phase.Appending? ==> |s.txns[t].phase.entryIds| <= 2
    ensures Useful(e) && Enabled(s, e)
  {
    match s.txns[t].phase
    case Conflicted(_) => e := Lookup(t);
    case Replaying(_, _) => e := Commit(t, true);
    case Inserted(d, _) => e := if d.status == Completed then Save(t) else Commit(t, true);
    case Appending(_, _, ids) => e := if |ids| < 2 then AppendRow(t) else Commit(t, true);
  }

  /** The INSERT can run, or the transaction that holds its key can step. */
  lemma InsertOrHolder(s: State, t: TxnId) returns (e: Event)
    requires TxnsOk(s) && t in s.txns && s.txns[t].phase.Drafted?
    ensures Useful(e) && Enabled(s, e)
  {
    var x := s.txns[t];
    if !Insertable(x.call) {
      e := Insert(t, 0);
    } else if KeyFree(s, KeyOf(x.call)) {
      var id := FreeIdExists(s);
      e := Insert(t, id);
    } else {
      var u :| u in s.txns && KeyOf(x.call) in s.txns[u].writes.transfers;
      assert TxnOk(s, s.txns[u]);
      e := HolderSteps(s, u);
    }
  }

  /** The next row can be locked, or the checks run, or some u holds the row. */
  lemma LockOrWait(s: State, t: TxnId) returns (e: Option<Event>, u: TxnId)
    requires Inv(s) && t in s.txns && s.txns[t].phase.Locking?
    ensures e.Some? ==> Useful(e.value) && Enabled(s, e.value)
    ensures e.None? ==> WaitsForRow(s, t, u)
  {
    var x := s.txns[t];
    assert TxnOk(s, x);
    var plan, n := Plan(s.order, x.call.request), x.phase.next;
    u := t;
    if n == |plan| {
      e := Some(Check(t));
    } else if RowFree(s, plan[n]) {
      NextRowIsNotHeld(s, x);
      e := Some(LockRow(t));
    } else {
      e := None;
      u :| u in s.txns && plan[n] in s.txns[u].copies;
      NextRowIsNotHeld(s, x);
    }
  }

  lemma NextRowIsNotHeld(s: State, x: Txn)
    requires OrderOk(s) && TxnOk(s, x) && x.phase.Locking? && x.phase.next < |Plan(s.order, x.call.request)|
    ensures Plan(s.order, x.call.request)[x.phase.next] in s.accounts
    ensures Plan(s.order, x.call.request)[x.phase.next] !in x.copies
  {
    assert x.call.request.from != x.call.request.to;
    var plan, n := Plan(s.order, x.call.request), x.phase.next;
    assert plan[n] !in plan[..n];
  }

  /** Follow the waits from any open transaction; they end at one that can step. */
  lemma {:induction false} Unblock(s: State, t: TxnId) returns (e: Event)
    requires Inv(s) && t in s.txns && Open(s.txns[t].phase)
    ensures Useful(e) && Enabled(s, e)
    decreases 1 + Bound(s.order) - Want(s, s.txns[t])
  {
    if s.txns[t].phase.Locking? {
      var step, u := LockOrWait(s, t);
      if step.Some? {
        e := step.value;
      } else {
        e := Follow(s, t, u);
      }
    } else if s.txns[t].phase.Drafted? {
      e := InsertOrHolder(s, t);
    } else {
      assert TxnOk(s, s.txns[t]);
      e := HolderSteps(s, t);
    }
  }

  lemma Follow(s: State, t: TxnId, u: TxnId) returns (e: Event)
    requires Inv(s) && WaitsForRow(s, t, u)
    ensures Useful(e) && Enabled(s, e)
    decreases 1 + Bound(s.order) - Want(s, s.txns[t]), 0
  {
    RowWaitRises(s, t, u);
    RowHolderIsOpen(s, t, u);
    WantIsBounded(s, s.txns[u]);
    e := Unblock(s, u);
  }

  lemma RowHolderIsOpen(s: State, t: TxnId, u: TxnId)
    requires TxnsOk(s) && WaitsForRow(s, t, u)
    ensures Open(s.txns[u].phase)
  {
    assert TxnOk(s, s.txns[u]);
  }

  lemma WantIsBounded(s: State, x: Txn)
    ensures Want(s, x) <= 1 + Bound(s.order)
  {
  }

  /** While any call is unfinished, some transaction can take a useful step. */
  lemma SomeoneCanStep(s: State, t: TxnId) returns (e: Event)
    requires Inv(s) && t in s.txns && !s.txns[t].phase.Done?
    ensures Useful(e) && Enabled(s, e)
  {
    if Open(s.txns[t].phase) {
      e := Unblock(s, t);
    } else if s.free > 0 {
      e := Begin(t);
    } else {
      assert OpenSet(s) != {};
      var u :| u in OpenSet(s);
      e := Unblock(s, u);
    }
  }

  // ------------------------------------------------------------------ and they all finish

  /** Steps a transaction can still take. */
  function Remaining(p: Phase): nat {
    match p
    case Waiting => 11
    case Locking(n) => if n <= 2 then 10 - n else 8
    case Drafted(_) => 7
    case Conflicted(_) => 6
    case Replaying(_, _) => 5
    case Inserted(_, _) => 5
    case Appending(_, _, ids) => if |ids| <= 2 then 4 - |ids| else 2
    case Done(_) => 0
  }

  function Steps(s: State): map<TxnId, int> {
    map t | t in s.txns :: Remaining(s.txns[t].phase)
  }

  ghost function Work(s: State): int {
    SumOf(Steps(s))
  }

  /** t alone moved, to a phase with fewer steps left. */
  ghost predicate Advances(s: State, s': State, t: TxnId) {
    Moves(s, s', t) && t in s.txns && Remaining(s'.txns[t].phase) < Remaining(s.txns[t].phase)
  }

  lemma BeginAdvances(s: State, t: TxnId)
    requires Enabled(s, Begin(t))
    ensures Advances(s, Next(s, Begin(t)), t)
  {
    BeginMoves(s, t);
  }

  lemma LockAdvances(s: State, t: TxnId)
    requires Enabled(s, LockRow(t))
    ensures Advances(s, Next(s, LockRow(t)), t)
  {
    LockMoves(s, t);
  }

  lemma CheckAdvances(s: State, t: TxnId)
    requires Enabled(s, Check(t))
    ensures Advances(s, Next(s, Check(t)), t)
  {
    CheckMoves(s, t);
  }

  lemma InsertRowAdvances(s: State, t: TxnId, id: Uuid)
    requires t in s.txns && s.txns[t].phase.Drafted? && ParseKey(s.txns[t].call.key).Some?
    ensures var s' := InsertRow(s, t, id); t in s'.txns && Remaining(s'.txns[t].phase) < 7
  {
  }

  lemma InsertStepAdvances(s: State, t: TxnId, id: Uuid)
    requires t in s.txns && s.txns[t].phase.Drafted?
    ensures var s' := InsertStep(s, t, id); t in s'.txns && Remaining(s'.txns[t].phase) < 7
  {
    var x := s.txns[t];
    if Insertable(x.call) && TransferChecks(x.call.user, Stored(x.call, id, x.phase.draft).transfer) {
      InsertRowAdvances(s, t, id);
    }
  }

  lemma InsertAdvances(s: State, t: TxnId, id: Uuid)
    requires Enabled(s, Insert(t, id))
    ensures Advances(s, Next(s, Insert(t, id)), t)
  {
    InsertMoves(s, t, id);
    InsertStepAdvances(s, t, id);
  }

  lemma LookupAdvances(s: State, t: TxnId)
    requires Enabled(s, Lookup(t))
    ensures Advances(s, Next(s, Lookup(t)), t)
  {
    LookupMoves(s, t);
    LookupStepAdvances(s, t);
  }

  lemma LookupStepAdvances(s: State, t: TxnId)
    requires t in s.txns && s.txns[t].phase.Conflicted?
    ensures var s' := LookupStep(s, t); t in s'.txns && Remaining(s'.txns[t].phase) < 6
  {
  }

  lemma SaveAdvances(s: State, t: TxnId)
    requires Enabled(s, Save(t))
    ensures Advances(s, Next(s, Save(t)), t)
  {
    SaveMoves(s, t);
  }

  lemma AppendAdvances(s: State, t: TxnId)
    requires Enabled(s, AppendRow(t))
    ensures Advances(s, Next(s, AppendRow(t)), t)
  {
    AppendMoves(s, t);
  }

  lemma CommitAdvances(s: State, t: TxnId, acknowledged: bool)
    requires Enabled(s, Commit(t, acknowledged))
    ensures Advances(s, Next(s, Commit(t, acknowledged)), t)
  {
    CommitMoves(s, t, acknowledged);
  }

  lemma AbortAdvances(s: State, t: TxnId)
    requires Enabled(s, Abort(t))
    ensures Advances(s, Next(s, Abort(t)), t)
  {
    AbortMoves(s, t);
  }

  lemma PhaseAdvances(s: State, e: Event)
    requires Enabled(s, e) && !e.Submit?
    ensures Advances(s, Next(s, e), e.t)
  {
    match e
    case Begin(t) => BeginAdvances(s, t);
    case LockRow(t) => LockAdvances(s, t);
    case Check(t) => CheckAdvances(s, t);
    case Insert(t, id) => InsertAdvances(s, t, id);
    case Lookup(t) => LookupAdvances(s, t);
    case Save(t) => SaveAdvances(s, t);
    case AppendRow(t) => AppendAdvances(s, t);
    case Commit(t, acknowledged) => CommitAdvances(s, t, acknowledged);
    case Abort(t) => AbortAdvances(s, t);
  }

  lemma AdvanceShrinksWork(s: State, s': State, t: TxnId)
    requires Advances(s, s', t)
    ensures 0 <= Work(s') < Work(s)
  {
    var left := Remaining(s'.txns[t].phase);
    assert Steps(s') == Steps(s)[t := left];
    SumUpdate(Steps(s), t, left);
    SumNonNegative(Steps(s'));
  }

  lemma WorkShrinks(s: State, e: Event)
    requires Enabled(s, e) && !e.Submit?
    ensures 0 <= Work(Next(s, e)) < Work(s)
  {
    PhaseAdvances(s, e);
    AdvanceShrinksWork(s, Next(s, e), e.t);
  }

  ghost predicate NoSubmits(run: seq<Event>) {
    forall i :: 0 <= i < |run| ==> !run[i].Submit?
  }

  /** Without new calls every run ends, after at most this many steps. */
  lemma {:induction false} RunsAreBounded(s: State, run: seq<Event>)
    requires Executes(s, run) && NoSubmits(run)
    ensures |run| + Work(After(s, run)) <= Work(s)
  {
    if run != [] {
      var n := |run| - 1;
      RunsAreBounded(s, run[..n]);
      WorkShrinks(After(s, run[..n]), run[n]);
    }
  }

  ghost predicate AllDone(s: State) {
    forall t :: t in s.txns ==> s.txns[t].phase.Done?
  }

  lemma ExecutesSnoc(s0: State, run: seq<Event>, e: Event)
    requires Executes(s0, run) && Enabled(After(s0, run), e)
    ensures Executes(s0, run + [e]) && After(s0, run + [e]) == Next(After(s0, run), e)
  {
    assert (run + [e])[..|run|] == run;
  }

  /** A reachable state with an unfinished call can be taken one useful step further. */
  lemma OneMore(s0: State, run: seq<Event>) returns (e: Event)
    requires Initial(s0) && Executes(s0, run) && !AllDone(After(s0, run))
    ensures Useful(e) && Executes(s0, run + [e])
    ensures 0 <= Work(After(s0, run + [e])) < Work(After(s0, run))
  {
    var s := After(s0, run);
    EveryRunIsSafe(s0, run);
    var t :| t in s.txns && !s.txns[t].phase.Done?;
    e := SomeoneCanStep(s, t);
    WorkShrinks(s, e);
    ExecutesSnoc(s0, run, e);
  }

  lemma {:induction false} Completion(s0: State, run: seq<Event>) returns (full: seq<Event>)
    requires Initial(s0) && Executes(s0, run)
    ensures run <= full && forall i :: |run| <= i < |full| ==> Useful(full[i])
    ensures Executes(s0, full) && AllDone(After(s0, full))
    decreases Work(After(s0, run))
  {
    if AllDone(After(s0, run)) {
      full := run;
    } else {
      var e := OneMore(s0, run);
      full := Completion(s0, run + [e]);
      assert full[|run|] == e;
    }
  }

  /** Every run can be completed so that every call ends, and every call still open at the end of
      `run` gets a proper answer: no abort, no lost commit, no infrastructure error. */
  lemma EveryoneCanFinish(s0: State, run: seq<Event>) returns (full: seq<Event>)
    requires Initial(s0) && Executes(s0, run)
    ensures run <= full && forall i :: |run| <= i < |full| ==> Useful(full[i])
    ensures Executes(s0, full) && AllDone(After(s0, full))
    ensures forall t :: t in After(s0, run).txns && !After(s0, run).txns[t].phase.Done? ==>
              && t in After(s0, full).txns && After(s0, full).txns[t].call == After(s0, run).txns[t].call
              && After(s0, full).txns[t].phase.outcome != Refused(ErrUnavailable)
  {
    full := Completion(s0, run);
    forall t | t in After(s0, run).txns && !After(s0, run).txns[t].phase.Done?
      ensures t in After(s0, full).txns && After(s0, full).txns[t].call == After(s0, run).txns[t].call
      ensures After(s0, full).txns[t].phase.outcome != Refused(ErrUnavailable)
    {
      assert full[..|run|] == run;
      CallIsKept(s0, full, |run|, t);
      NoFaultYet(s0, run, full, t);
      UnavailableExactlyOnFaults(s0, full, t);
    }
  }

  /** A call open after `run` met no fault in it, and useful events are no faults. */
  lemma NoFaultYet(s0: State, run: seq<Event>, full: seq<Event>, t: TxnId)
    requires Executes(s0, run) && t in After(s0, run).txns && !After(s0, run).txns[t].phase.Done?
    requires run <= full && forall i :: |run| <= i < |full| ==> Useful(full[i])
    ensures !Faulted(full, t)
  {
    if Faulted(full, t) {
      var i :| 0 <= i < |full| && Faults(full[i], t);
      assert i < |run| && full[i] == run[i];
      FaultIsForever(s0, run, i, t);
    }
  }

  /** A run that no useful step can extend has ended every call, each with a proper answer unless it
      was aborted or its commit was not acknowledged. */
  lemma MaximalRunsAreDone(s0: State, run: seq<Event>)
    requires Initial(s0) && Executes(s0, run)
    requires forall e :: Useful(e) ==> !Enabled(After(s0, run), e)
    ensures AllDone(After(s0, run))
    ensures forall t :: t in After(s0, run).txns ==>
              (After(s0, run).txns[t].phase.outcome == Refused(ErrUnavailable) <==> Faulted(run, t))
  {
    EveryRunIsSafe(s0, run);
    if t :| t in After(s0, run).txns && !After(s0, run).txns[t].phase.Done? {
      var e := SomeoneCanStep(After(s0, run), t);
    }
    forall t | t in After(s0, run).txns
      ensures After(s0, run).txns[t].phase.outcome == Refused(ErrUnavailable) <==> Faulted(run, t)
    {
      UnavailableExactlyOnFaults(s0, run, t);
    }
  }
}
