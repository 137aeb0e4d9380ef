/** The status code of every response, on the rows and the stored transfer that decide it. */
module Responses {
  import opened Domain
  import opened Text
  import opened Validation
  import opened Transfers
  import opened History
  import opened Protocol
  import opened Runs
  import opened Guarantees
  import opened Http

  /** What each code tells about the outcome. */
  ghost predicate CodeOfOutcome(out: Outcome, code: int) {
    && (code == 201 <==> out.Reply? && out.created && out.transfer.status == Completed)
    && (code == 200 <==> out.Reply? && !out.created && out.transfer.status == Completed)
    && (code == 422 <==> || (out.Reply? && out.transfer.status == Failed)
                         || out == Refused(ErrDestinationNotFound)
                         || out == Refused(ErrCurrencyMismatch)
                         || out == Refused(ErrBalanceOverflow))
    && (code == 403 <==> out == Refused(ErrForbidden))
    && (code == 400 <==> out == Refused(ErrInvalidTransfer))
    && (code == 409 <==> out == Refused(ErrIdempotencyConflict))
    && (code == 500 <==> out == Refused(ErrUnavailable) || out == Refused(ErrUnstorable))
  }

  /** What each code tells about the call, the rows and what is stored under the caller's key. */
  ghost predicate CodeOnRows(db: Database, call: Call, code: int) {
    var r, received := call.request, Received(db.accounts, call);
    var taken := received && Taken(db, call);
    var same := taken && db.transfers[Key(call.user, call.key.value)].original == r;
    && (code == 201 <==> received && !taken && r.amount <= db.accounts[r.from].balance)
    && (code == 200 <==> same && db.transfers[Key(call.user, call.key.value)].transfer.status == Completed)
    && (code == 422 <==> || (Askable(call) && Owned(db.accounts, call) && !Acceptable(db.accounts, call))
                         || (same && db.transfers[Key(call.user, call.key.value)].transfer.status == Failed)
                         || (received && !taken && r.amount > db.accounts[r.from].balance))
    && (code == 403 <==> !HasVisible(call.user) || (Askable(call) && !Owned(db.accounts, call)))
    && (code == 400 <==> && HasVisible(call.user)
                         && (|| !ValidRequest(r)
                             || (Askable(call) && Acceptable(db.accounts, call) && !HasKey(call))))
    && (code == 409 <==> taken && !same)
    && (code == 500 <==> TextFails(db.accounts, call))
  }

  lemma AllowedOutcome(out: Outcome)
    requires out.Reply? ==> out.transfer.status == Completed || out.transfer.status == Failed
    requires out.Refused? ==> IsBusinessError(out.error) || out.error == ErrUnstorable || out.error == ErrUnavailable
    ensures CodeOfOutcome(out, StatusCode(out))
  {
  }

  /** A reply is about a completed or a failed transfer. */
  lemma ReplyIsFinal(opening: map<AccountId, Row>, db: Database, call: Call, id: Uuid)
    requires DatabaseOk(opening, db) && CreateAlone(db, call, id).1.Reply?
    ensures var t := CreateAlone(db, call, id).1.transfer; t.status == Completed || t.status == Failed
  {
    AnswerReasons(db, call, id);
    if CreateAlone(db, call, id).1.created {
      CreatedIsTheRequest(db, call, id);
    } else {
      var k := Key(call.user, call.key.value);
      assert TransferOk(db.accounts, k, db.transfers[k]);
    }
  }

  /** Served alone, a call gets the code its rows and its key give. */
  lemma ResponseAlone(opening: map<AccountId, Row>, db: Database, call: Call, id: Uuid)
    requires OpeningOk(opening) && DatabaseOk(opening, db)
    ensures var out := CreateAlone(db, call, id).1;
            CodeOfOutcome(out, StatusCode(out)) && CodeOnRows(db, call, StatusCode(out))
  {
    var out := CreateAlone(db, call, id).1;
    if out.Reply? {
      ReplyIsFinal(opening, db, call, id);
    } else {
      RefusalsAlone(db, call, id, out.error);
    }
    AllowedOutcome(out);
    RefusalReasons(db, call, id);
    AnswerReasons(db, call, id);
    TextFailsExactly(opening, db, call, id);
    if out.Reply? && out.created {
      CreatedIsTheRequest(db, call, id);
    }
    OutcomeToRows(db, call, out, StatusCode(out));
  }

  lemma OutcomeToRows(db: Database, call: Call, out: Outcome, code: int)
    requires CodeOfOutcome(out, code) && RefusedOnRows(db.accounts, call, out) && AnsweredOnKey(db, call, out)
    requires out == Refused(ErrUnstorable) <==> TextFails(db.accounts, call)
    requires out != Refused(ErrUnavailable)
    requires out.Reply? ==> out.transfer.status == Completed || out.transfer.status == Failed
    requires out.Reply? && out.created ==>
               && call.request.from in db.accounts
               && (out.transfer.status == Completed <==> call.request.amount <= db.accounts[call.request.from].balance)
    ensures CodeOnRows(db, call, code)
  {
  }

  /** In every run a call that met a fault is answered 500; any other gets the code of its outcome,
      which is the code its rows and its key give at its place i in the serial order. */
  lemma EveryResponse(s0: State, run: seq<Event>, t: TxnId) returns (i: nat)
    requires Initial(s0) && Executes(s0, run) && t in After(s0, run).txns && After(s0, run).txns[t].phase.Done?
    ensures var x := After(s0, run).txns[t];
            var code := StatusCode(x.phase.outcome);
            && CodeOfOutcome(x.phase.outcome, code)
            && if Faulted(run, t) then code == 500
               else
                 && i < |LogOf(s0, run)| && LogOf(s0, run)[i].txn == t
                 && CodeOnRows(Replayed(s0.accounts, LogOf(s0, run)[..i]), x.call, code)
  {
    UnavailableExactlyOnFaults(s0, run, t);
    i := 0;
    if Faulted(run, t) {
      AllowedOutcome(After(s0, run).txns[t].phase.outcome);
    } else {
      i := LogEntryOf(s0, run, t);
      ServedResponse(s0.accounts, LogOf(s0, run), i);
    }
  }

  lemma ServedResponse(opening: map<AccountId, Row>, log: seq<Served>, i: nat)
    requires OpeningOk(opening) && Explained(opening, log) && i < |log|
    ensures CodeOfOutcome(log[i].outcome, StatusCode(log[i].outcome))
    ensures CodeOnRows(Replayed(opening, log[..i]), log[i].call, StatusCode(log[i].outcome))
  {
    var db := Replayed(opening, log[..i]);
    ExplainedPrefix(opening, log, i);
    ReplayedOk(opening, log[..i]);
    assert Explains(db, log[i]);
    ResponseAlone(opening, db, log[i].call, log[i].id);
  }

  /** The same for the answers themselves: in every run a call without a fault is refused, replayed or
      created exactly for the reasons its place in the serial order gives. */
  lemma EveryAnswer(s0: State, run: seq<Event>, t: TxnId) returns (i: nat)
    requires Initial(s0) && Executes(s0, run) && t in After(s0, run).txns && After(s0, run).txns[t].phase.Done?
    requires !Faulted(run, t)
    ensures i < |LogOf(s0, run)| && LogOf(s0, run)[i].txn == t
    ensures var x, db := After(s0, run).txns[t], Replayed(s0.accounts, LogOf(s0, run)[..i]);
            RefusedOnRows(db.accounts, x.call, x.phase.outcome) && AnsweredOnKey(db, x.call, x.phase.outcome)
  {
    UnavailableExactlyOnFaults(s0, run, t);
    i := LogEntryOf(s0, run, t);
    ServedAnswer(s0.accounts, LogOf(s0, run), i);
  }

  lemma ServedAnswer(opening: map<AccountId, Row>, log: seq<Served>, i: nat)
    requires Explained(opening, log) && i < |log|
    ensures var db := Replayed(opening, log[..i]);
            RefusedOnRows(db.accounts, log[i].call, log[i].outcome) && AnsweredOnKey(db, log[i].call, log[i].outcome)
  {
    var db := Replayed(opening, log[..i]);
    assert Explains(db, log[i]);
    RefusalReasons(db, log[i].call, log[i].id);
    AnswerReasons(db, log[i].call, log[i].id);
  }
}
