/** String tests of the Go code and of the SQL schema, and how they relate. */
module Text {

  /** The characters strings.TrimSpace removes (Unicode White_Space). */
  predicate IsSpace(c: char) {
    var n := c as int;
    9 <= n <= 13 || n == 0x20 || n == 0x85 || n == 0xA0 || n == 0x1680 || 0x2000 <= n <= 0x200A
    || n == 0x2028 || n == 0x2029 || n == 0x202F || n == 0x205F || n == 0x3000
  }

  /** The only character the SQL function btrim removes. */
  predicate IsBlank(c: char) {
    c == ' '
  }

  predicate IsUpper(c: char) {
    'A' <= c <= 'Z'
  }

  function TrimLeft(s: string, cut: char -> bool): string {
    if s != [] && cut(s[0]) then TrimLeft(s[1..], cut) else s
  }

  function TrimRight(s: string, cut: char -> bool): string {
    if s != [] && cut(s[|s| - 1]) then TrimRight(s[..|s| - 1], cut) else s
  }

  function Trim(s: string, cut: char -> bool): string {
    TrimRight(TrimLeft(s, cut), cut)
  }

  /** Bytes of one character in UTF-8; Go's len counts these. */
  function Width(c: char): nat {
    var n := c as int;
    if n < 0x80 then 1 else if n < 0x800 then 2 else if n < 0x1_0000 then 3 else 4
  }

  function ByteLength(s: string): nat {
    if s == [] then 0 else Width(s[0]) + ByteLength(s[1..])
  }

  // What the tests above are to mean, in terms that do not use them.

  /** The Unicode characters with property White_Space. */
  const WHITE_SPACE: string :=
    "\t\n\U{B}\U{C}\r \U{85}\U{A0}\U{1680}\U{2000}\U{2001}\U{2002}\U{2003}\U{2004}\U{2005}\U{2006}\U{2007}"
    + "\U{2008}\U{2009}\U{200A}\U{2028}\U{2029}\U{202F}\U{205F}\U{3000}"

  const CAPITALS: string := "ABCDEFGHIJKLMNOPQRSTUVWXYZ"

  ghost predicate HasVisible(s: string) {
    exists i :: 0 <= i < |s| && s[i] !in WHITE_SPACE
  }

  ghost predicate HasNul(s: string) {
    exists i :: 0 <= i < |s| && s[i] as int == 0
  }

  lemma SpaceExactly(c: char)
    ensures IsSpace(c) <==> c in WHITE_SPACE
  {
  }

  lemma UpperExactly(c: char)
    ensures IsUpper(c) <==> c in CAPITALS
  {
  }

  lemma {:induction false} TrimLeftEmpty(s: string, cut: char -> bool)
    ensures TrimLeft(s, cut) == [] <==> forall c :: c in s ==> cut(c)
    ensures TrimLeft(s, cut) != [] ==> !cut(TrimLeft(s, cut)[0])
  {
    if s != [] && cut(s[0]) {
      TrimLeftEmpty(s[1..], cut);
      assert s == [s[0]] + s[1..];
    }
  }

  lemma {:induction false} TrimRightKeepsHead(s: string, cut: char -> bool)
    requires s != [] && !cut(s[0])
    ensures TrimRight(s, cut) != []
  {
    if cut(s[|s| - 1]) {
      TrimRightKeepsHead(s[..|s| - 1], cut);
    }
  }

  /** Trimming leaves nothing exactly when every character is in the cut set. */
  lemma TrimEmpty(s: string, cut: char -> bool)
    ensures Trim(s, cut) == [] <==> forall c :: c in s ==> cut(c)
  {
    TrimLeftEmpty(s, cut);
    if TrimLeft(s, cut) != [] {
      TrimRightKeepsHead(TrimLeft(s, cut), cut);
    }
  }

  /** What strings.TrimSpace keeps, btrim keeps too: the Go test implies the SQL CHECK. */
  lemma TrimSpaceImpliesBtrim(s: string)
    requires Trim(s, IsSpace) != []
    ensures Trim(s, IsBlank) != []
  {
    TrimEmpty(s, IsSpace);
    TrimEmpty(s, IsBlank);
    var c :| c in s && !IsSpace(c);
    assert !IsBlank(c);
  }

  /** ASCII text has as many bytes as characters. */
  lemma {:induction false} ByteLengthUpper(s: string)
    requires forall c :: c in s ==> IsUpper(c)
    ensures ByteLength(s) == |s|
  {
    if s != [] {
      assert IsUpper(s[0]);
      ByteLengthUpper(s[1..]);
    }
  }
}

/** CreateTransfer.Validate and the CHECKs of the transfers table. */
module Validation {
  import opened Domain
  import opened Text
  import opened Utf8

  datatype Problem =
    | AccountsRequired
    | SameAccount
    | AmountNotPositive
    | BadCurrency
    | DescriptionTooLong

  function Validate(r: CreateTransfer): Option<Problem> {
    if Trim(r.from, IsSpace) == [] || Trim(r.to, IsSpace) == [] then Some(AccountsRequired)
    else if r.from == r.to then Some(SameAccount)
    else if r.amount <= 0 then Some(AmountNotPositive)
    else if ByteLength(r.currency) != 3 || Trim(r.currency, IsUpper) != [] then Some(BadCurrency)
    else if ByteLength(r.description) > 255 then Some(DescriptionTooLong)
    else None
  }

  /** The SQL pattern ^[A-Z]{3}$. */
  predicate IsCurrencyCode(s: string) {
    |s| == 3 && IsUpper(s[0]) && IsUpper(s[1]) && IsUpper(s[2])
  }


  /** A request the service takes on: two different accounts, each with a character that shows, a
      positive amount, three capitals, and a description of at most 255 bytes. */
  ghost predicate ValidRequest(r: CreateTransfer) {
    && HasVisible(r.from) && HasVisible(r.to) && r.from != r.to
    && r.amount > 0
    && |r.currency| == 3 && (forall i :: 0 <= i < 3 ==> r.currency[i] in CAPITALS)
    && |Encode(r.description)| <= 255
  }

  /** Validate accepts exactly the valid requests and names the first thing wrong with any other. */
  lemma ValidateMeaning(r: CreateTransfer)
    ensures Validate(r).None? <==> ValidRequest(r)
    ensures var shown := HasVisible(r.from) && HasVisible(r.to);
            var apart := shown && r.from != r.to;
            var paid := apart && r.amount > 0;
            var coded := paid && |r.currency| == 3 && forall i :: 0 <= i < 3 ==> r.currency[i] in CAPITALS;
            && (Validate(r) == Some(AccountsRequired) <==> !shown)
            && (Validate(r) == Some(SameAccount) <==> shown && !apart)
            && (Validate(r) == Some(AmountNotPositive) <==> apart && !paid)
            && (Validate(r) == Some(BadCurrency) <==> paid && !coded)
            && (Validate(r) == Some(DescriptionTooLong) <==> coded && |Encode(r.description)| > 255)
  {
    TrimSpaceMeaning(r.from);
    TrimSpaceMeaning(r.to);
    CurrencyTestsAgree(r.currency);
    CurrencyMeaning(r.currency);
    LengthIsEncoded(r.description);
  }

  lemma TrimSpaceMeaning(s: string)
    ensures Trim(s, IsSpace) == [] <==> !HasVisible(s)
  {
    TrimEmpty(s, IsSpace);
    forall c
      ensures IsSpace(c) <==> c in WHITE_SPACE
    {
      SpaceExactly(c);
    }
    assert forall i :: 0 <= i < |s| ==> s[i] in s;
  }

  lemma CurrencyMeaning(s: string)
    ensures IsCurrencyCode(s) <==> |s| == 3 && forall i :: 0 <= i < 3 ==> s[i] in CAPITALS
  {
    forall i | 0 <= i < |s|
      ensures IsUpper(s[i]) <==> s[i] in CAPITALS
    {
      UpperExactly(s[i]);
    }
  }

  lemma CurrencyTestsAgree(s: string)
    ensures (ByteLength(s) == 3 && Trim(s, IsUpper) == []) <==> IsCurrencyCode(s)
  {
    TrimEmpty(s, IsUpper);
    if forall c :: c in s ==> IsUpper(c) {
      ByteLengthUpper(s);
    } else if |s| == 3 {
      var c :| c in s && !IsUpper(c);
      assert c == s[0] || c == s[1] || c == s[2];
    }
    if IsCurrencyCode(s) {
      assert s == [s[0], s[1], s[2]];
      assert forall c :: c in s ==> IsUpper(c);
    }
  }

  /** The row CHECKs of the transfers table; status and request shape hold by type. */
  predicate TransferChecks(user: UserId, t: Transfer) {
    && Trim(user, IsBlank) != []
    && Trim(t.from, IsBlank) != [] && Trim(t.to, IsBlank) != []
    && t.amount > 0
    && IsCurrencyCode(t.currency)
    && t.from != t.to
  }

  /** A call worth opening a transaction for. */
  predicate CallOk(call: Call) {
    Trim(call.user, IsSpace) != [] && Validate(call.request).None?
  }

  /** PostgreSQL refuses the character U+0000 in any text or JSON value it is sent. Decoded JSON
      strings are valid UTF-8, so no other character is refused. */
  predicate Storable(s: string) {
    '\0' !in s
  }

  /** The ids that SELECT ... FOR UPDATE is sent. */
  predicate IdsStorable(r: CreateTransfer) {
    Storable(r.from) && Storable(r.to)
  }

  /** The other free text that the INSERT of the transfer is sent. */
  predicate RowStorable(call: Call) {
    Storable(call.user) && Storable(call.request.description)
  }

  /** The record CreateIdempotent inserts. */
  function NewRecord(r: CreateTransfer, key: Uuid, id: Uuid, status: Status, reason: FailureReason): Transfer {
    Transfer(id, key, r.from, r.to, r.amount, r.currency, r.description, status, reason)
  }

  /** The CHECKs in terms of characters. */
  lemma ChecksMeaning(user: UserId, t: Transfer)
    ensures TransferChecks(user, t) <==>
            && (exists i :: 0 <= i < |user| && user[i] != ' ')
            && (exists i :: 0 <= i < |t.from| && t.from[i] != ' ')
            && (exists i :: 0 <= i < |t.to| && t.to[i] != ' ')
            && t.amount > 0 && t.from != t.to
            && |t.currency| == 3 && (forall i :: 0 <= i < 3 ==> t.currency[i] in CAPITALS)
  {
    BtrimMeaning(user);
    BtrimMeaning(t.from);
    BtrimMeaning(t.to);
    CurrencyMeaning(t.currency);
  }

  lemma BtrimMeaning(s: string)
    ensures Trim(s, IsBlank) != [] <==> exists i :: 0 <= i < |s| && s[i] != ' '
  {
    TrimEmpty(s, IsBlank);
    assert forall i :: 0 <= i < |s| ==> s[i] in s;
  }

  /** A call the service opens a transaction for, in terms of characters. */
  ghost predicate ValidCall(call: Call) {
    HasVisible(call.user) && ValidRequest(call.request)
  }

  lemma CallOkMeaning(call: Call)
    ensures CallOk(call) <==> ValidCall(call)
  {
    TrimSpaceMeaning(call.user);
    ValidateMeaning(call.request);
  }

  lemma StorableMeaning(s: string)
    ensures Storable(s) <==> !HasNul(s)
  {
    assert forall i :: 0 <= i < |s| ==> s[i] in s;
  }

  /** The Go checks imply every CHECK on the row they lead to. */
  lemma ValidCallPassesChecks(call: Call, key: Uuid, id: Uuid, status: Status, reason: FailureReason)
    requires CallOk(call)
    ensures TransferChecks(call.user, NewRecord(call.request, key, id, status, reason))
  {
    CurrencyTestsAgree(call.request.currency);
    TrimSpaceImpliesBtrim(call.user);
    TrimSpaceImpliesBtrim(call.request.from);
    TrimSpaceImpliesBtrim(call.request.to);
  }
}
