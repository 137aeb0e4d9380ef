/** UTF-8 (section 3 of RFC 3629), which is how Go holds strings: what len counts and what
    comparing two strings compares. */
module Utf8 {
  import opened Text

  type Byte = b: int | 0 <= b < 0x100

  function EncodeChar(c: char): seq<Byte> {
    var n := c as int;
    if n < 0x80 then [n]
    else if n < 0x800 then [0xC0 + n / 0x40, 0x80 + n % 0x40]
    else if n < 0x1_0000 then [0xE0 + n / 0x1000, 0x80 + n / 0x40 % 0x40, 0x80 + n % 0x40]
    else [0xF0 + n / 0x4_0000, 0x80 + n / 0x1000 % 0x40, 0x80 + n / 0x40 % 0x40, 0x80 + n % 0x40]
  }

  function Encode(s: string): seq<Byte> {
    if s == [] then [] else EncodeChar(s[0]) + Encode(s[1..])
  }

  // ------------------------------------------------------------------ one character

  /** How many bytes a sequence that starts with this byte has; 0 for a byte that starts none. */
  function Announced(lead: Byte): nat {
    if lead < 0x80 then 1
    else if 0xC0 <= lead < 0xE0 then 2
    else if 0xE0 <= lead < 0xF0 then 3
    else if 0xF0 <= lead < 0xF8 then 4
    else 0
  }

  /** A leading byte and as many continuation bytes as it announces. */
  predicate Framed(bs: seq<Byte>) {
    bs != [] && |bs| == Announced(bs[0]) && forall i :: 1 <= i < |bs| ==> 0x80 <= bs[i] < 0xC0
  }

  /** The bits the leading byte carries. */
  function LeadBits(lead: Byte): nat
    requires Announced(lead) > 0
  {
    match Announced(lead)
    case 1 => lead
    case 2 => lead - 0xC0
    case 3 => lead - 0xE0
    case _ => lead - 0xF0
  }

  /** The number a framed sequence spells: the leading bits, then six bits a byte. */
  function Spelled(bs: seq<Byte>): int
    requires Framed(bs)
  {
    var v := LeadBits(bs[0]);
    if |bs| == 1 then v
    else if |bs| == 2 then v * 0x40 + (bs[1] - 0x80)
    else if |bs| == 3 then (v * 0x40 + (bs[1] - 0x80)) * 0x40 + (bs[2] - 0x80)
    else ((v * 0x40 + (bs[1] - 0x80)) * 0x40 + (bs[2] - 0x80)) * 0x40 + (bs[3] - 0x80)
  }

  /** A number is its leading part and its digits to the base 64. */
  lemma Digits(n: nat)
    ensures n / 0x1000 == n / 0x40 / 0x40 && n / 0x4_0000 == n / 0x1000 / 0x40
    ensures n == n / 0x40 * 0x40 + n % 0x40
    ensures n / 0x40 == n / 0x1000 * 0x40 + n / 0x40 % 0x40
    ensures n / 0x1000 == n / 0x4_0000 * 0x40 + n / 0x1000 % 0x40
  {
  }

  lemma CharIsFramed(c: char)
    ensures Framed(EncodeChar(c)) && Spelled(EncodeChar(c)) == c as int
    ensures |EncodeChar(c)| == Width(c)
  {
    var n, bs := c as int, EncodeChar(c);
    Digits(n);
    if n < 0x80 {
      assert bs == [n];
    } else if n < 0x800 {
      assert Announced(bs[0]) == 2 && LeadBits(bs[0]) == n / 0x40;
    } else if n < 0x1_0000 {
      assert Announced(bs[0]) == 3 && LeadBits(bs[0]) == n / 0x1000;
    } else {
      assert Announced(bs[0]) == 4 && LeadBits(bs[0]) == n / 0x4_0000;
    }
  }

  /** The encoding of c is the shortest framed sequence that spells it, and the only one that short. */
  lemma CharIsShortest(c: char, bs: seq<Byte>)
    requires Framed(bs) && Spelled(bs) == c as int
    ensures |EncodeChar(c)| <= |bs|
    ensures |EncodeChar(c)| == |bs| ==> EncodeChar(c) == bs
  {
    CharIsFramed(c);
    if |EncodeChar(c)| == |bs| {
      SpelledOnce(EncodeChar(c), bs);
    }
  }

  lemma SpelledOnce(bs: seq<Byte>, cs: seq<Byte>)
    requires Framed(bs) && Framed(cs) && |bs| == |cs| && Spelled(bs) == Spelled(cs)
    ensures bs == cs
  {
    assert bs[0] == cs[0];
  }

  // ------------------------------------------------------------------ strings

  lemma {:induction false} LengthIsEncoded(s: string)
    ensures ByteLength(s) == |Encode(s)|
  {
    if s != [] {
      CharIsFramed(s[0]);
      LengthIsEncoded(s[1..]);
    }
  }

  lemma {:induction false} ByteLengthAppend(s: string, t: string)
    ensures ByteLength(s + t) == ByteLength(s) + ByteLength(t)
  {
    if s == [] {
      assert s + t == t;
    } else {
      ByteLengthAppend(s[1..], t);
      assert (s + t)[1..] == s[1..] + t;
    }
  }

  /** Bytes and characters agree in number exactly for ASCII text. */
  lemma {:induction false} ByteLengthAscii(s: string)
    ensures |s| <= ByteLength(s) <= 4 * |s|
    ensures ByteLength(s) == |s| <==> forall i :: 0 <= i < |s| ==> s[i] as int < 0x80
  {
    if s != [] {
      ByteLengthAscii(s[1..]);
      assert forall i :: 0 < i < |s| ==> s[i] == s[1..][i - 1];
    }
  }

  lemma SameLead(c: char, d: char, x: seq<Byte>, y: seq<Byte>)
    requires EncodeChar(c) + x == EncodeChar(d) + y
    ensures c == d && x == y
  {
    var cs, ds := EncodeChar(c), EncodeChar(d);
    CharIsFramed(c);
    CharIsFramed(d);
    assert (cs + x)[0] == cs[0] && (ds + y)[0] == ds[0];
    assert cs == (cs + x)[..|cs|] && ds == (ds + y)[..|ds|];
    assert x == (cs + x)[|cs|..] && y == (ds + y)[|ds|..];
  }

  lemma EncodedEmpty(s: string)
    ensures Encode(s) == [] <==> s == []
  {
    if s != [] {
      CharIsFramed(s[0]);
    }
  }

  /** Different strings have different bytes. */
  lemma {:induction false} EncodeInjective(s: string, t: string)
    requires Encode(s) == Encode(t)
    ensures s == t
  {
    if s != [] && t != [] {
      SameLead(s[0], t[0], Encode(s[1..]), Encode(t[1..]));
      EncodeInjective(s[1..], t[1..]);
      assert s == [s[0]] + s[1..] && t == [t[0]] + t[1..];
    } else {
      EncodedEmpty(s);
      EncodedEmpty(t);
    }
  }

  // ------------------------------------------------------------------ order

  /** x is a proper prefix of y, or the smaller at their first difference, which is at k. */
  predicate DifferAt(x: seq<Byte>, y: seq<Byte>, k: nat) {
    k <= |x| && k < |y| && x[..k] == y[..k] && (k == |x| || x[k] < y[k])
  }

  /** Byte order, as Go compares strings. */
  ghost predicate Before(x: seq<Byte>, y: seq<Byte>) {
    exists k: nat :: DifferAt(x, y, k)
  }

  lemma PrefixAgrees(x: seq<Byte>, y: seq<Byte>, k: nat, j: nat)
    requires j < k <= |x| && k <= |y| && x[..k] == y[..k]
    ensures x[j] == y[j]
  {
    assert x[j] == x[..k][j] && y[j] == y[..k][j];
  }

  lemma BeforeIsAsymmetric(x: seq<Byte>, y: seq<Byte>)
    requires Before(x, y)
    ensures !Before(y, x)
  {
    var k: nat :| DifferAt(x, y, k);
    forall j: nat
      ensures !DifferAt(y, x, j)
    {
      if j < k {
        PrefixAgrees(x, y, k, j);
      } else if k < j <= |x| && j <= |y| && x[..j] == y[..j] {
        PrefixAgrees(x, y, j, k);
      }
    }
  }

  /** A smaller number has a smaller byte where the spellings first differ, if they are as short as
      they can be. */
  lemma SpelledOrder(x: seq<Byte>, y: seq<Byte>) returns (k: nat)
    requires Framed(x) && Framed(y) && |x| <= |y|
    requires |x| == |y| ==> Spelled(x) < Spelled(y)
    ensures k < |x| && DifferAt(x, y, k)
  {
    if x[0] != y[0] {
      k := 0;
    } else if x[1] != y[1] {
      k := 1;
    } else if x[2] != y[2] {
      k := 2;
    } else {
      k := 3;
    }
  }

  lemma {:induction false} SharedPrefix(p: seq<Byte>, x: seq<Byte>, y: seq<Byte>)
    requires Before(x, y)
    ensures Before(p + x, p + y)
  {
    var k: nat :| DifferAt(x, y, k);
    assert (p + x)[..|p| + k] == p + x[..k] && (p + y)[..|p| + k] == p + y[..k];
    assert DifferAt(p + x, p + y, |p| + k);
  }

  lemma SmallerFirst(c: char, d: char, x: seq<Byte>, y: seq<Byte>)
    requires c < d
    ensures Before(EncodeChar(c) + x, EncodeChar(d) + y)
  {
    var cs, ds := EncodeChar(c), EncodeChar(d);
    CharIsFramed(c);
    CharIsFramed(d);
    var k := SpelledOrder(cs, ds);
    assert (cs + x)[..k] == cs[..k] && (ds + y)[..k] == ds[..k];
    assert DifferAt(cs + x, ds + y, k);
  }
}
