/** Views of the ledger: the entries of one account or of one transfer, in order, and what it means
    for a list of entries to be a running balance. */
module Ledger {
  import opened Domain

  function ByAccount(s: seq<LedgerEntry>, a: AccountId): seq<LedgerEntry> {
    if s == [] then []
    else
      var last := s[|s| - 1];
      ByAccount(s[..|s| - 1], a) + (if last.accountId == a then [last] else [])
  }

  function ByTransfer(s: seq<LedgerEntry>, id: Uuid): seq<LedgerEntry> {
    if s == [] then []
    else
      var last := s[|s| - 1];
      ByTransfer(s[..|s| - 1], id) + (if last.transferId == id then [last] else [])
  }

  function Sum(s: seq<LedgerEntry>): int {
    if s == [] then 0 else Sum(s[..|s| - 1]) + s[|s| - 1].amount
  }

  /** The balance the list ends at. */
  function Closing(opening: int, s: seq<LedgerEntry>): int {
    if s == [] then opening else s[|s| - 1].balanceAfter
  }

  /** Every entry records the balance before it plus its own amount. */
  ghost predicate Chained(opening: int, s: seq<LedgerEntry>) {
    forall i :: 0 <= i < |s| ==> s[i].balanceAfter == Closing(opening, s[..i]) + s[i].amount
  }

  lemma ByAccountSnoc(s: seq<LedgerEntry>, e: LedgerEntry, a: AccountId)
    ensures ByAccount(s + [e], a) == ByAccount(s, a) + (if e.accountId == a then [e] else [])
  {
    assert (s + [e])[..|s|] == s;
  }

  lemma ByTransferSnoc(s: seq<LedgerEntry>, e: LedgerEntry, id: Uuid)
    ensures ByTransfer(s + [e], id) == ByTransfer(s, id) + (if e.transferId == id then [e] else [])
  {
    assert (s + [e])[..|s|] == s;
  }

  lemma ChainedSnoc(opening: int, s: seq<LedgerEntry>, e: LedgerEntry)
    requires Chained(opening, s)
    requires e.balanceAfter == Closing(opening, s) + e.amount
    ensures Chained(opening, s + [e])
  {
    var t := s + [e];
    forall i | 0 <= i < |t|
      ensures t[i].balanceAfter == Closing(opening, t[..i]) + t[i].amount
    {
      if i == |s| {
        assert t[..i] == s;
      } else {
        assert t[..i] == s[..i];
      }
    }
  }

  /** A chained list closes at its opening balance plus the sum of its amounts. */
  lemma {:induction false} ChainedSum(opening: int, s: seq<LedgerEntry>)
    requires Chained(opening, s)
    ensures Closing(opening, s) == opening + Sum(s)
  {
    if s != [] {
      var prefix := s[..|s| - 1];
      forall i | 0 <= i < |prefix|
        ensures prefix[i].balanceAfter == Closing(opening, prefix[..i]) + prefix[i].amount
      {
        assert prefix[..i] == s[..i];
      }
      ChainedSum(opening, prefix);
    }
  }

  lemma {:induction false} ByTransferMember(s: seq<LedgerEntry>, id: Uuid, e: LedgerEntry)
    ensures e in ByTransfer(s, id) <==> e in s && e.transferId == id
  {
    if s != [] {
      ByTransferMember(s[..|s| - 1], id, e);
      assert s == s[..|s| - 1] + [s[|s| - 1]];
    }
  }

  lemma {:induction false} ByAccountMember(s: seq<LedgerEntry>, a: AccountId, e: LedgerEntry)
    ensures e in ByAccount(s, a) <==> e in s && e.accountId == a
  {
    if s != [] {
      ByAccountMember(s[..|s| - 1], a, e);
      assert s == s[..|s| - 1] + [s[|s| - 1]];
    }
  }

  /** The two projections commute, so entries of one transfer can be read off account by account. */
  lemma {:induction false} ProjectionsCommute(s: seq<LedgerEntry>, a: AccountId, id: Uuid)
    ensures ByTransfer(ByAccount(s, a), id) == ByAccount(ByTransfer(s, id), a)
  {
    if s != [] {
      var prefix, last := s[..|s| - 1], s[|s| - 1];
      ProjectionsCommute(prefix, a, id);
      ByTransferSnoc(ByAccount(prefix, a), last, id);
      ByAccountSnoc(ByTransfer(prefix, id), last, a);
      assert ByAccount(prefix, a) + [] == ByAccount(prefix, a);
      assert ByTransfer(prefix, id) + [] == ByTransfer(prefix, id);
    }
  }
}
