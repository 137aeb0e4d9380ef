/** Prefixes of runs, what stays once a transaction has ended, and which transactions end with an
    infrastructure error. */
module Runs {
  import opened Domain
  import opened History
  import opened Protocol
  import opened Safety

  lemma {:induction false} RunPrefix(s0: State, run: seq<Event>, n: nat)
    requires Executes(s0, run) && n <= |run|
    ensures Executes(s0, run[..n]) && LogOf(s0, run[..n]) <= LogOf(s0, run)
    decreases |run|
  {
    if n == |run| {
      assert run[..n] == run;
    } else {
      var m := |run| - 1;
      assert run[..m][..n] == run[..n];
      RunPrefix(s0, run[..m], n);
    }
  }

  /** An event serves only the transaction it moves, and never one that has ended. */
  lemma ServesTheMover(s: State, e: Event)
    requires Enabled(s, e)
    ensures forall i :: 0 <= i < |Serves(s, e)| ==> Serves(s, e)[i].txn == e.t
    ensures e.t in s.txns ==> !s.txns[e.t].phase.Done?
  {
  }

  /** Once a transaction has ended its answer stands, and nothing more is served for it. */
  lemma {:induction false} DoneIsForever(s0: State, run: seq<Event>, n: nat, t: TxnId)
    requires Executes(s0, run) && n <= |run| && Executes(s0, run[..n])
    requires t in After(s0, run[..n]).txns && After(s0, run[..n]).txns[t].phase.Done?
    ensures t in After(s0, run).txns && After(s0, run).txns[t] == After(s0, run[..n]).txns[t]
    ensures LogOf(s0, run[..n]) <= LogOf(s0, run)
    ensures forall i :: |LogOf(s0, run[..n])| <= i < |LogOf(s0, run)| ==> LogOf(s0, run)[i].txn != t
    decreases |run|
  {
    if n == |run| {
      assert run[..n] == run;
    } else {
      var m := |run| - 1;
      assert run[..m][..n] == run[..n];
      DoneIsForever(s0, run[..m], n, t);
      var s := After(s0, run[..m]);
      ServesTheMover(s, run[m]);
      StepMoves(s, run[m]);
    }
  }

  /** A submitted call never disappears and never changes. */
  lemma {:induction false} CallIsKept(s0: State, run: seq<Event>, n: nat, t: TxnId)
    requires Executes(s0, run) && n <= |run| && Executes(s0, run[..n]) && t in After(s0, run[..n]).txns
    ensures t in After(s0, run).txns && After(s0, run).txns[t].call == After(s0, run[..n]).txns[t].call
    decreases |run|
  {
    if n == |run| {
      assert run[..n] == run;
    } else {
      var m := |run| - 1;
      assert run[..m][..n] == run[..n];
      CallIsKept(s0, run[..m], n, t);
      StepMoves(After(s0, run[..m]), run[m]);
    }
  }

  // ------------------------------------------------------------------ infrastructure errors

  /** The event takes t down, or loses the acknowledgement of its commit. */
  predicate Faults(e: Event, t: TxnId) {
    e == Abort(t) || e == Commit(t, false)
  }

  ghost predicate Faulted(run: seq<Event>, t: TxnId) {
    exists i :: 0 <= i < |run| && Faults(run[i], t)
  }

  /** Without a fault, the answer a transaction ends with is the one it is served. */
  lemma EndingIsServed(s: State, e: Event)
    requires Enabled(s, e) && !Faults(e, e.t)
    ensures var s' := Next(s, e);
            e.t in s'.txns
            && (s'.txns[e.t].phase.Done? ==>
                  |Serves(s, e)| == 1 && Serves(s, e)[0].outcome == s'.txns[e.t].phase.outcome)
  {
    StepMoves(s, e);
    if e.Commit? {
      CommitMoves(s, e.t, e.acknowledged);
    }
  }

  /** Nobody is served an infrastructure error. */
  lemma ServedIsAvailable(s0: State, run: seq<Event>)
    requires Initial(s0) && Executes(s0, run)
    ensures forall i :: 0 <= i < |LogOf(s0, run)| ==> LogOf(s0, run)[i].outcome != Refused(ErrUnavailable)
  {
    EveryRunIsSafe(s0, run);
    var log := LogOf(s0, run);
    forall i | 0 <= i < |log| && log[i].outcome.Refused?
      ensures log[i].outcome.error != ErrUnavailable
    {
      ExplainedRefusal(s0.accounts, log, i, log[i].outcome.error);
    }
  }

  lemma EndingIsAvailable(s0: State, run: seq<Event>)
    requires Initial(s0) && Executes(s0, run) && run != [] && !Faults(run[|run| - 1], run[|run| - 1].t)
    ensures var t, s := run[|run| - 1].t, After(s0, run);
            t in s.txns && (s.txns[t].phase.Done? ==> s.txns[t].phase.outcome != Refused(ErrUnavailable))
  {
    var n := |run| - 1;
    var s, e := After(s0, run[..n]), run[n];
    EndingIsServed(s, e);
    ServedIsAvailable(s0, run);
    if After(s0, run).txns[e.t].phase.Done? {
      assert LogOf(s0, run)[|LogOf(s0, run[..n])|] == Serves(s, e)[0];
    }
  }

  /** The last event of a run: an infrastructure error of t was there before, or is a fault of t. */
  lemma UnavailableNow(s0: State, run: seq<Event>, t: TxnId)
    requires Initial(s0) && Executes(s0, run) && run != [] && t in After(s0, run).txns
    requires After(s0, run).txns[t].phase == Done(Refused(ErrUnavailable))
    ensures var n := |run| - 1; var s := After(s0, run[..n]);
            Faults(run[n], t) || (t in s.txns && s.txns[t].phase == Done(Refused(ErrUnavailable)))
  {
    var n := |run| - 1;
    var s, e := After(s0, run[..n]), run[n];
    StepMoves(s, e);
    if e.t == t && !Faults(e, t) {
      EndingIsAvailable(s0, run);
    }
  }

  lemma {:induction false} OnlyFaultsAreUnavailable(s0: State, run: seq<Event>, t: TxnId)
    requires Initial(s0) && Executes(s0, run) && t in After(s0, run).txns
    requires After(s0, run).txns[t].phase == Done(Refused(ErrUnavailable))
    ensures Faulted(run, t)
  {
    var n := |run| - 1;
    UnavailableNow(s0, run, t);
    if !Faults(run[n], t) {
      OnlyFaultsAreUnavailable(s0, run[..n], t);
      var i :| 0 <= i < n && Faults(run[..n][i], t);
      assert Faults(run[i], t);
    }
  }

  lemma FaultEnds(s: State, e: Event, t: TxnId)
    requires Enabled(s, e) && Faults(e, t)
    ensures t in Next(s, e).txns && Next(s, e).txns[t].phase == Done(Refused(ErrUnavailable))
  {
  }

  /** After a fault at step i, t has ended with an infrastructure error, then and for ever. */
  lemma FaultIsForever(s0: State, run: seq<Event>, i: nat, t: TxnId)
    requires Executes(s0, run) && i < |run| && Faults(run[i], t)
    ensures t in After(s0, run).txns && After(s0, run).txns[t].phase == Done(Refused(ErrUnavailable))
  {
    RunPrefix(s0, run, i + 1);
    var upTo := run[..i + 1];
    assert upTo[..i] == run[..i] && upTo[i] == run[i];
    FaultEnds(After(s0, upTo[..i]), run[i], t);
    DoneIsForever(s0, run, i + 1, t);
  }

  /** A call ends with an infrastructure error exactly when it was aborted or its commit was not
      acknowledged. */
  lemma UnavailableExactlyOnFaults(s0: State, run: seq<Event>, t: TxnId)
    requires Initial(s0) && Executes(s0, run) && t in After(s0, run).txns
    ensures After(s0, run).txns[t].phase == Done(Refused(ErrUnavailable)) <==> Faulted(run, t)
  {
    if Faulted(run, t) {
      var i :| 0 <= i < |run| && Faults(run[i], t);
      FaultIsForever(s0, run, i, t);
    } else if After(s0, run).txns[t].phase == Done(Refused(ErrUnavailable)) {
      OnlyFaultsAreUnavailable(s0, run, t);
    }
  }
}
