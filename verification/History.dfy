/** Histories: calls served one at a time, in the order their transactions ended. Everything the
    service promises over a whole run is proved here of every history that Create explains. */
module History {
  import opened Domain
  import opened Ledger
  import opened Sums
  import opened Transfers

  /** One served call: the transaction that served it, the id its row drew, and what it answered. */
  datatype Served = Served(txn: nat, call: Call, id: Uuid, outcome: Outcome)

  /** The two calls have the same user and the same idempotency key. */
  predicate SameKey(x: Call, y: Call) {
    x.user == y.user && x.key == y.key
  }

  /** The database after the calls of the log have run alone, one after another. */
  function Replayed(opening: map<AccountId, Row>, log: seq<Served>): Database {
    if log == [] then Database(opening, map[], [])
    else
      var last := log[|log| - 1];
      CreateAlone(Replayed(opening, log[..|log| - 1]), last.call, last.id).0
  }

  /** The answer is the one Create gives on this database; a row that is created draws an unused id. */
  ghost predicate Explains(db: Database, e: Served) {
    && CreateAlone(db, e.call, e.id).1 == e.outcome
    && (Creates(db, e.call) ==> FreshId(db.transfers, e.id))
  }

  /** Every answer in the log is the one Create gives when run alone at that point. */
  ghost predicate Explained(opening: map<AccountId, Row>, log: seq<Served>) {
    forall i :: 0 <= i < |log| ==> Explains(Replayed(opening, log[..i]), log[i])
  }

  lemma ExplainedSnoc(opening: map<AccountId, Row>, log: seq<Served>, e: Served)
    requires Explained(opening, log) && Explains(Replayed(opening, log), e)
    ensures Explained(opening, log + [e])
    ensures Replayed(opening, log + [e]) == CreateAlone(Replayed(opening, log), e.call, e.id).0
  {
    var log' := log + [e];
    assert log'[..|log|] == log;
    forall i | 0 <= i < |log'|
      ensures Explains(Replayed(opening, log'[..i]), log'[i])
    {
      if i < |log| {
        assert log'[..i] == log[..i];
      }
    }
  }

  lemma ExplainedPrefix(opening: map<AccountId, Row>, log: seq<Served>, n: nat)
    requires Explained(opening, log) && n <= |log|
    ensures Explained(opening, log[..n])
  {
    forall i | 0 <= i < n
      ensures Explains(Replayed(opening, log[..n][..i]), log[..n][i])
    {
      assert log[..n][..i] == log[..i];
    }
  }

  /** One step of the replay, seen from index i. */
  lemma ReplayedStep(opening: map<AccountId, Row>, log: seq<Served>, i: nat)
    requires i < |log|
    ensures Replayed(opening, log[..i + 1]) == CreateAlone(Replayed(opening, log[..i]), log[i].call, log[i].id).0
  {
    assert log[..i + 1][..i] == log[..i];
  }

  /** The database invariant holds after every history. */
  lemma {:induction false} ReplayedOk(opening: map<AccountId, Row>, log: seq<Served>)
    requires OpeningOk(opening) && Explained(opening, log)
    ensures DatabaseOk(opening, Replayed(opening, log))
  {
    if log == [] {
      assert forall a :: ByAccount([], a) == [];
    } else {
      var n := |log| - 1;
      ExplainedPrefix(opening, log, n);
      ReplayedOk(opening, log[..n]);
      assert Explains(Replayed(opening, log[..n]), log[n]);
      CreateKeepsDatabaseOk(opening, Replayed(opening, log[..n]), log[n].call, log[n].id);
    }
  }

  lemma StoredByLast(opening: map<AccountId, Row>, log: seq<Served>, k: Key)
    requires log != [] && k in Replayed(opening, log[..|log| - 1]).transfers
    ensures k in Replayed(opening, log).transfers
    ensures Replayed(opening, log).transfers[k] == Replayed(opening, log[..|log| - 1]).transfers[k]
  {
    var m := |log| - 1;
    HistoryIsImmutable(Replayed(opening, log[..m]), log[m].call, log[m].id);
  }

  /** What is stored after a prefix is still stored, unaltered, after the whole log. */
  lemma {:induction false} StoredForever(opening: map<AccountId, Row>, log: seq<Served>, n: nat, k: Key)
    requires n <= |log| && k in Replayed(opening, log[..n]).transfers
    ensures k in Replayed(opening, log).transfers
    ensures Replayed(opening, log).transfers[k] == Replayed(opening, log[..n]).transfers[k]
    decreases |log|
  {
    if n == |log| {
      assert log[..n] == log;
    } else {
      var shorter := log[..|log| - 1];
      assert shorter[..n] == log[..n];
      StoredForever(opening, shorter, n, k);
      StoredByLast(opening, log, k);
    }
  }

  /** Every reply names the transfer stored under its key, whenever it is given. */
  lemma RepliesNameTheStoredTransfer(opening: map<AccountId, Row>, log: seq<Served>, i: nat)
    requires Explained(opening, log) && i < |log| && log[i].outcome.Reply?
    ensures HasKey(log[i].call)
    ensures var k, db := Key(log[i].call.user, log[i].call.key.value), Replayed(opening, log);
            && k in db.transfers
            && db.transfers[k].transfer == log[i].outcome.transfer
            && db.transfers[k].original == log[i].call.request
  {
    var db, e := Replayed(opening, log[..i]), log[i];
    assert Explains(db, e);
    OnlyCreatesChange(db, e.call, e.id);
    ReplayedStep(opening, log, i);
    StoredForever(opening, log, i + 1, KeyOf(e.call));
  }

  /** Exactly once: among all calls with one key, at most one creates. */
  lemma CreatedOnce(opening: map<AccountId, Row>, log: seq<Served>, i: nat, j: nat)
    requires Explained(opening, log) && i < |log| && j < |log|
    requires log[i].outcome.Reply? && log[i].outcome.created
    requires log[j].outcome.Reply? && log[j].outcome.created
    requires SameKey(log[i].call, log[j].call)
    ensures i == j
  {
    if i < j {
      CreatedBefore(opening, log, i, j);
    } else if j < i {
      CreatedBefore(opening, log, j, i);
    }
  }

  lemma CreatedBefore(opening: map<AccountId, Row>, log: seq<Served>, i: nat, j: nat)
    requires Explained(opening, log) && i < j < |log|
    requires log[i].outcome.Reply? && SameKey(log[i].call, log[j].call)
    ensures !(log[j].outcome.Reply? && log[j].outcome.created)
  {
    ExplainedPrefix(opening, log, j);
    assert log[..j][i] == log[i];
    RepliesNameTheStoredTransfer(opening, log[..j], i);
    assert Explains(Replayed(opening, log[..j]), log[j]);
    OnlyCreatesChange(Replayed(opening, log[..j]), log[j].call, log[j].id);
  }

  /** After a reply, every later call with the key and the same request gets that transfer back with
      created = false, except exactly when its credit check overflows; any other request is refused. */
  lemma LaterCallsAreRetries(opening: map<AccountId, Row>, log: seq<Served>, i: nat, j: nat)
    requires OpeningOk(opening) && Explained(opening, log) && i < j < |log|
    requires log[i].outcome.Reply? && SameKey(log[i].call, log[j].call)
    ensures var accounts, r := Replayed(opening, log[..j]).accounts, log[j].call.request;
            if r == log[i].call.request then
              && r.from in accounts && r.to in accounts
              && log[j].outcome == if CreditOverflows(accounts, r) then Refused(ErrBalanceOverflow)
                                   else Reply(log[i].outcome.transfer, false)
            else log[j].outcome.Refused?
  {
    var db := Replayed(opening, log[..j]);
    ExplainedPrefix(opening, log, j);
    assert log[..j][i] == log[i];
    RepliesNameTheStoredTransfer(opening, log[..j], i);
    ReplayedOk(opening, log[..j]);
    assert Explains(db, log[j]);
    RetryIsStable(opening, db, log[j].call, log[j].id);
  }

  /** e answers the call that put this row under this key. */
  ghost predicate Originates(e: Served, k: Key, st: StoredTransfer) {
    && e.call.user == k.user && e.call.key == Some(k.uuid)
    && e.call.request == st.original && e.outcome == Reply(st.transfer, true)
  }

  /** What is stored under a user's UUID was created by a call of that user with that UUID. */
  lemma {:induction false} StoredHasOrigin(opening: map<AccountId, Row>, log: seq<Served>, k: Key) returns (j: nat)
    requires Explained(opening, log) && k in Replayed(opening, log).transfers
    ensures j < |log| && Originates(log[j], k, Replayed(opening, log).transfers[k])
  {
    var n := |log| - 1;
    var db, e := Replayed(opening, log[..n]), log[n];
    ExplainedPrefix(opening, log, n);
    assert log[..n] + [e] == log && Explains(db, e);
    OnlyCreatesChange(db, e.call, e.id);
    if Creates(db, e.call) {
      CreatedIsTheRequest(db, e.call, e.id);
    }
    if k in db.transfers {
      StoredByLast(opening, log, k);
      j := StoredHasOrigin(opening, log[..n], k);
    } else {
      j := n;
    }
  }

  /** A conflict or a replay has an origin: an earlier call of the same user with the same key that
      created the transfer, with another request for a conflict and the same one for a replay. */
  lemma RetriesHaveAnOrigin(opening: map<AccountId, Row>, log: seq<Served>, i: nat) returns (j: nat)
    requires Explained(opening, log) && i < |log|
    requires log[i].outcome == Refused(ErrIdempotencyConflict) || (log[i].outcome.Reply? && !log[i].outcome.created)
    ensures j < i && SameKey(log[i].call, log[j].call)
    ensures log[j].outcome.Reply? && log[j].outcome.created
    ensures if log[i].outcome.Reply? then
              log[j].call.request == log[i].call.request && log[j].outcome.transfer == log[i].outcome.transfer
            else log[j].call.request != log[i].call.request
  {
    var db, e := Replayed(opening, log[..i]), log[i];
    ExplainedPrefix(opening, log, i);
    assert Explains(db, e);
    AnswerReasons(db, e.call, e.id);
    j := StoredHasOrigin(opening, log[..i], Key(e.call.user, e.call.key.value));
  }

  lemma ExplainedRefusal(opening: map<AccountId, Row>, log: seq<Served>, i: nat, e: Error)
    requires Explained(opening, log) && i < |log| && log[i].outcome == Refused(e)
    ensures IsBusinessError(e) || e == ErrUnstorable
  {
    var db := Replayed(opening, log[..i]);
    assert Explains(db, log[i]);
    RefusalsAlone(db, log[i].call, log[i].id, e);
  }

  // ------------------------------------------------------------------ conservation

  function Share(row: Row, currency: string): int {
    if row.currency == currency then row.balance else 0
  }

  function Shares(rows: map<AccountId, Row>, currency: string): map<AccountId, int> {
    map a | a in rows :: Share(rows[a], currency)
  }

  /** All the money held in one currency. */
  ghost function Total(rows: map<AccountId, Row>, currency: string): int {
    SumOf(Shares(rows, currency))
  }

  lemma TotalSet(rows: map<AccountId, Row>, currency: string, a: AccountId, balance: int64)
    requires a in rows
    ensures Total(SetBalance(rows, a, balance), currency)
         == Total(rows, currency) + (if rows[a].currency == currency then balance - rows[a].balance else 0)
  {
    var share := Share(rows[a].(balance := balance), currency);
    SumUpdate(Shares(rows, currency), a, share);
    assert Shares(SetBalance(rows, a, balance), currency) == Shares(rows, currency)[a := share];
  }

  /** A transfer neither makes nor loses money in any currency. */
  lemma CreateConserves(db: Database, call: Call, id: Uuid, currency: string)
    ensures Total(CreateAlone(db, call, id).0.accounts, currency) == Total(db.accounts, currency)
  {
    OnlyCreatesChange(db, call, id);
    if Creates(db, call) {
      var r, d := call.request, DecideOn(db.accounts, call).draft;
      AcceptedIsSound(db.accounts, call, d);
      TotalSet(db.accounts, currency, r.from, d.source);
      TotalSet(SetBalance(db.accounts, r.from, d.source), currency, r.to, d.destination);
    }
  }

  /** Conservation over every history. */
  lemma {:induction false} HistoryConserves(opening: map<AccountId, Row>, log: seq<Served>, currency: string)
    ensures Total(Replayed(opening, log).accounts, currency) == Total(opening, currency)
  {
    if log != [] {
      var n := |log| - 1;
      HistoryConserves(opening, log[..n], currency);
      CreateConserves(Replayed(opening, log[..n]), log[n].call, log[n].id, currency);
    }
  }

  // ------------------------------------------------------------------ draining an account

  function Where(transfers: map<Key, StoredTransfer>, p: StoredTransfer -> bool): set<Key> {
    set k | k in transfers && p(transfers[k])
  }

  function From(transfers: map<Key, StoredTransfer>, a: AccountId): set<Key> {
    Where(transfers, (st: StoredTransfer) => st.transfer.from == a)
  }

  function CompletedFrom(transfers: map<Key, StoredTransfer>, a: AccountId): set<Key> {
    Where(transfers, (st: StoredTransfer) => st.transfer.from == a && st.transfer.status == Completed)
  }

  /** All transfers out of `a` are for `amount`, and none into it completed. */
  ghost predicate OnlyDrained(transfers: map<Key, StoredTransfer>, a: AccountId, amount: int) {
    forall k :: k in transfers ==>
      && (transfers[k].transfer.from == a ==> transfers[k].transfer.amount == amount)
      && (transfers[k].transfer.to == a ==> transfers[k].transfer.status != Completed)
  }

  function Min(x: int, y: int): int { if x < y then x else y }

  lemma {:induction false} ProductOrder(x: int, y: int, m: int)
    requires x <= y && m >= 0
    ensures x * m <= y * m
    decreases y - x
  {
    if x < y {
      ProductOrder(x + 1, y, m);
      assert (x + 1) * m == x * m + m;
    }
  }

  /** Another payment fits exactly when the quotient has not been reached. */
  lemma QuotientNotReached(balance: int, amount: int, c: nat)
    requires balance >= 0 && amount > 0
    ensures balance - c * amount >= amount <==> c < balance / amount
  {
    var q := balance / amount;
    assert q * amount <= balance < q * amount + amount;
    if c < q {
      ProductOrder(c + 1, q, amount);
      assert (c + 1) * amount == c * amount + amount;
    } else {
      ProductOrder(q, c, amount);
    }
  }

  ghost predicate Drained(balance: int, transfers: map<Key, StoredTransfer>, a: AccountId, opening: int, amount: int)
    requires amount > 0
  {
    var c := |CompletedFrom(transfers, a)|;
    && balance == opening - c * amount
    && c == Min(|From(transfers, a)|, opening / amount)
  }

  lemma WhereAdd(transfers: map<Key, StoredTransfer>, key: Key, st: StoredTransfer, p: StoredTransfer -> bool)
    requires key !in transfers
    ensures Where(transfers[key := st], p) == Where(transfers, p) + (if p(st) then {key} else {})
  {
    var transfers' := transfers[key := st];
    forall k
      ensures k in Where(transfers', p) <==> k in Where(transfers, p) || (k == key && p(st))
    {
      assert k != key && k in transfers ==> transfers'[k] == transfers[k];
    }
  }

  /** How storing one more transfer changes a count. */
  lemma CountAdd(transfers: map<Key, StoredTransfer>, key: Key, st: StoredTransfer, p: StoredTransfer -> bool)
    requires key !in transfers
    ensures |Where(transfers[key := st], p)| == |Where(transfers, p)| + (if p(st) then 1 else 0)
  {
    WhereAdd(transfers, key, st, p);
    assert key !in Where(transfers, p);
  }

  lemma CountsAdd(transfers: map<Key, StoredTransfer>, key: Key, st: StoredTransfer, a: AccountId)
    requires key !in transfers
    ensures |From(transfers[key := st], a)| == |From(transfers, a)| + (if st.transfer.from == a then 1 else 0)
    ensures |CompletedFrom(transfers[key := st], a)|
         == |CompletedFrom(transfers, a)|
            + (if st.transfer.from == a && st.transfer.status == Completed then 1 else 0)
  {
    CountAdd(transfers, key, st, (x: StoredTransfer) => x.transfer.from == a);
    CountAdd(transfers, key, st, (x: StoredTransfer) => x.transfer.from == a && x.transfer.status == Completed);
  }

  lemma DrainArithmetic(opening: int, amount: int, c: nat, n: nat)
    requires opening >= 0 && amount > 0 && c == Min(n, opening / amount)
    ensures opening - c * amount >= amount ==> c + 1 == Min(n + 1, opening / amount)
    ensures opening - c * amount < amount ==> c == Min(n + 1, opening / amount)
    ensures (c + 1) * amount == c * amount + amount
  {
    QuotientNotReached(opening, amount, c);
  }

  lemma DrainStep(db: Database, call: Call, id: Uuid, d: Draft, a: AccountId, opening: int, amount: int)
    requires opening >= 0 && amount > 0
    requires Sound(db.accounts, call, d) && a in db.accounts
    requires ParseKey(call.key).Some? && KeyOf(call) !in db.transfers
    requires Drained(db.accounts[a].balance, db.transfers, a, opening, amount)
    requires call.request.from == a ==> call.request.amount == amount
    requires call.request.to == a ==> d.status != Completed
    ensures var db' := Settle(db, call, id, d);
            Drained(db'.accounts[a].balance, db'.transfers, a, opening, amount)
  {
    var st := Stored(call, id, d);
    CountsAdd(db.transfers, KeyOf(call), st, a);
    DrainArithmetic(opening, amount, |CompletedFrom(db.transfers, a)|, |From(db.transfers, a)|);
    assert st.transfer.from == call.request.from && st.transfer.status == d.status;
  }

  /** Racing to drain an account: of n stored transfers of one amount, exactly as many complete as
      the opening balance can pay for, and the rest fail. */
  lemma {:induction false} DrainBound(opening: map<AccountId, Row>, log: seq<Served>, a: AccountId, amount: int)
    requires OpeningOk(opening) && Explained(opening, log) && a in opening && amount > 0
    requires OnlyDrained(Replayed(opening, log).transfers, a, amount)
    ensures a in Replayed(opening, log).accounts
    ensures var db := Replayed(opening, log);
            Drained(db.accounts[a].balance, db.transfers, a, opening[a].balance, amount)
  {
    ReplayedOk(opening, log);
    if log != [] {
      var n := |log| - 1;
      var db, e := Replayed(opening, log[..n]), log[n];
      ExplainedPrefix(opening, log, n);
      ReplayedOk(opening, log[..n]);
      HistoryIsImmutable(db, e.call, e.id);
      DrainBound(opening, log[..n], a, amount);
      OnlyCreatesChange(db, e.call, e.id);
      if Creates(db, e.call) {
        var d := DecideOn(db.accounts, e.call).draft;
        AcceptedIsSound(db.accounts, e.call, d);
        assert Replayed(opening, log).transfers[KeyOf(e.call)] == Stored(e.call, e.id, d);
        DrainStep(db, e.call, e.id, d, a, opening[a].balance, amount);
      }
    }
  }
}
