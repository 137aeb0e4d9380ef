/** The id list LockForTransfer builds: cloned, sorted, compacted. */
module LockPlan {
  import opened Utf8

  /** Byte order of strings, as slices.Sort uses it. */
  predicate Less(a: string, b: string) {
    b != [] && (a == [] || a[0] < b[0] || (a[0] == b[0] && Less(a[1..], b[1..])))
  }

  lemma {:induction false} LessTotal(a: string, b: string)
    ensures a == b || Less(a, b) || Less(b, a)
  {
    if a != [] && b != [] && a[0] == b[0] {
      LessTotal(a[1..], b[1..]);
      assert a == [a[0]] + a[1..] && b == [b[0]] + b[1..];
    }
  }

  lemma {:induction false} LessIrreflexive(a: string)
    ensures !Less(a, a)
  {
    if a != [] {
      LessIrreflexive(a[1..]);
    }
  }

  lemma {:induction false} LessTransitive(a: string, b: string, c: string)
    requires Less(a, b) && Less(b, c)
    ensures Less(a, c)
  {
    if a != [] && a[0] == b[0] && b[0] == c[0] {
      LessTransitive(a[1..], b[1..], c[1..]);
    }
  }

  /** a is a proper prefix of b of length k, or has the smaller character at their first difference k. */
  predicate SmallerAt(a: string, b: string, k: nat) {
    k <= |a| && k < |b| && a[..k] == b[..k] && (k == |a| || a[k] < b[k])
  }

  lemma LessMeaning(a: string, b: string)
    ensures Less(a, b) <==> exists k: nat :: SmallerAt(a, b, k)
  {
    if Less(a, b) {
      var k := FirstDifference(a, b);
    }
    forall k: nat | SmallerAt(a, b, k)
      ensures Less(a, b)
    {
      SmallerIsLess(a, b, k);
    }
  }

  lemma {:induction false} FirstDifference(a: string, b: string) returns (k: nat)
    requires Less(a, b)
    ensures SmallerAt(a, b, k)
  {
    if a == [] || a[0] < b[0] {
      k := 0;
    } else {
      var j := FirstDifference(a[1..], b[1..]);
      k := j + 1;
      assert a[..k] == [a[0]] + a[1..][..j] && b[..k] == [b[0]] + b[1..][..j];
    }
  }

  lemma {:induction false} SmallerIsLess(a: string, b: string, k: nat)
    requires SmallerAt(a, b, k)
    ensures Less(a, b)
  {
    if k > 0 {
      assert a[0] == a[..k][0] && b[0] == b[..k][0];
      assert a[1..][..k - 1] == a[..k][1..] && b[1..][..k - 1] == b[..k][1..];
      SmallerIsLess(a[1..], b[1..], k - 1);
    }
  }

  /** The order of the characters is the order of their bytes in UTF-8. */
  lemma LessIsByteOrder(a: string, b: string)
    ensures Less(a, b) <==> Before(Encode(a), Encode(b))
  {
    LessTotal(a, b);
    if Less(a, b) {
      LessGoesFirst(a, b);
    } else {
      if a != b {
        LessGoesFirst(b, a);
        BeforeIsAsymmetric(Encode(b), Encode(a));
      }
    }
  }

  lemma {:induction false} LessGoesFirst(a: string, b: string)
    requires Less(a, b)
    ensures Before(Encode(a), Encode(b))
  {
    if a == [] {
      EncodedEmpty(b);
      assert DifferAt(Encode(a), Encode(b), 0);
    } else if a[0] < b[0] {
      SmallerFirst(a[0], b[0], Encode(a[1..]), Encode(b[1..]));
    } else {
      LessGoesFirst(a[1..], b[1..]);
      SharedPrefix(EncodeChar(a[0]), Encode(a[1..]), Encode(b[1..]));
    }
  }

  predicate AtMost(a: string, b: string) {
    a == b || Less(a, b)
  }

  ghost predicate Sorted(s: seq<string>) {
    forall i, j :: 0 <= i < j < |s| ==> AtMost(s[i], s[j])
  }

  ghost predicate Ascending(s: seq<string>) {
    forall i, j :: 0 <= i < j < |s| ==> Less(s[i], s[j])
  }

  /** Where x goes: after everything below it and before everything else. */
  method Position(s: seq<string>, x: string) returns (p: nat)
    requires Sorted(s)
    ensures p <= |s|
    ensures forall i :: 0 <= i < p ==> AtMost(s[i], x)
    ensures forall i :: p <= i < |s| ==> AtMost(x, s[i])
  {
    p := 0;
    while p < |s| && Less(s[p], x)
      invariant p <= |s|
      invariant forall i :: 0 <= i < p ==> AtMost(s[i], x)
    {
      p := p + 1;
    }
    forall i | p <= i < |s|
      ensures AtMost(x, s[i])
    {
      LessTotal(x, s[p]);
      if i > p && x != s[p] && s[p] != s[i] {
        LessTransitive(x, s[p], s[i]);
      }
    }
  }

  lemma InsertedSorted(s: seq<string>, x: string, p: nat)
    requires Sorted(s) && p <= |s|
    requires forall i :: 0 <= i < p ==> AtMost(s[i], x)
    requires forall i :: p <= i < |s| ==> AtMost(x, s[i])
    ensures Sorted(s[..p] + [x] + s[p..])
    ensures multiset(s[..p] + [x] + s[p..]) == multiset(s) + multiset{x}
  {
    assert s == s[..p] + s[p..];
  }

  /** slices.Sort: ascending, with the same elements as often. */
  method Sort(ids: seq<string>) returns (s: seq<string>)
    ensures Sorted(s) && multiset(s) == multiset(ids)
  {
    s := [];
    for n := 0 to |ids|
      invariant Sorted(s) && multiset(s) == multiset(ids[..n])
    {
      var p := Position(s, ids[n]);
      InsertedSorted(s, ids[n], p);
      s := s[..p] + [ids[n]] + s[p..];
      assert ids[..n + 1] == ids[..n] + [ids[n]];
    }
    assert ids[..|ids|] == ids;
  }

  /** slices.Compact on a sorted list: every element once, strictly ascending. */
  method Compact(s: seq<string>) returns (plan: seq<string>)
    requires Sorted(s)
    ensures Ascending(plan)
    ensures forall x :: x in plan <==> x in s
  {
    plan := [];
    for n := 0 to |s|
      invariant Ascending(plan)
      invariant forall x :: x in plan <==> x in s[..n]
      invariant n == 0 ==> plan == []
      invariant n > 0 ==> plan != [] && plan[|plan| - 1] == s[n - 1]
    {
      assert s[..n + 1] == s[..n] + [s[n]];
      if n == 0 || plan[|plan| - 1] != s[n] {
        assert n > 0 ==> AtMost(s[n - 1], s[n]);
        AscendingSnoc(plan, s[n], if n == 0 then s[n] else s[n - 1]);
        plan := plan + [s[n]];
      }
    }
    assert s[..|s|] == s;
  }

  lemma AscendingSnoc(plan: seq<string>, x: string, last: string)
    requires Ascending(plan)
    requires plan != [] ==> plan[|plan| - 1] == last && Less(last, x)
    ensures Ascending(plan + [x])
  {
    forall i | 0 <= i < |plan|
      ensures Less(plan[i], x)
    {
      if i < |plan| - 1 {
        LessTransitive(plan[i], last, x);
      }
    }
  }

  /** A strictly ascending list is determined by its elements, so the plan does not depend on the
      order in which the caller names the accounts. */
  lemma {:induction false} AscendingUnique(p: seq<string>, q: seq<string>)
    requires Ascending(p) && Ascending(q)
    requires forall x :: x in p <==> x in q
    ensures p == q
  {
    SameEmptiness(p, q);
    if p != [] {
      assert p[0] in q && q[0] in p;
      FirstIsLeast(p, q[0]);
      FirstIsLeast(q, p[0]);
      if p[0] != q[0] {
        LessTransitive(p[0], q[0], p[0]);
        LessIrreflexive(p[0]);
      }
      TailElements(p, q);
      AscendingUnique(p[1..], q[1..]);
    }
  }

  lemma SameEmptiness(p: seq<string>, q: seq<string>)
    requires forall x :: x in p <==> x in q
    ensures p == [] <==> q == []
  {
    if p != [] {
      assert p[0] in q;
    }
    if q != [] {
      assert q[0] in p;
    }
  }

  lemma FirstIsLeast(p: seq<string>, x: string)
    requires Ascending(p) && x in p
    ensures AtMost(p[0], x)
  {
    var i :| 0 <= i < |p| && p[i] == x;
  }

  lemma TailElements(p: seq<string>, q: seq<string>)
    requires Ascending(p) && Ascending(q) && p != [] && q != [] && p[0] == q[0]
    requires forall x :: x in p <==> x in q
    ensures forall x :: x in p[1..] <==> x in q[1..]
  {
    forall x
      ensures x in p[1..] <==> x in q[1..]
    {
      TailMember(p, x);
      TailMember(q, x);
    }
  }

  lemma TailMember(p: seq<string>, x: string)
    requires Ascending(p) && p != []
    ensures x in p[1..] <==> x in p && x != p[0]
  {
    LessIrreflexive(p[0]);
    assert p == [p[0]] + p[1..];
  }
}
