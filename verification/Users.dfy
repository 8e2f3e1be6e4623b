/** The `user` table, and who a session token still lets in. */
module Users {
  import opened Base
  import opened Session
  import Codec = EncryptionKey

  /** A row; its id is its position, and rows are never deleted. */
  datatype User = User(email: string, epoch: int)

  // ------------------------------------------------------------- addresses

  function TrimStart(s: string): (r: string)
    ensures |r| <= |s|
  {
    if s != "" && Codec.IsWhitespace(s[0]) then TrimStart(s[1..]) else s
  }

  function TrimEnd(s: string): (r: string)
    ensures |r| <= |s|
  {
    if s != "" && Codec.IsWhitespace(s[|s| - 1]) then TrimEnd(s[..|s| - 1]) else s
  }

  function LowerChar(c: char): char {
    if 'A' <= c <= 'Z' then (c as int + 32) as char else c
  }

  function Lower(s: string): (r: string)
    ensures |r| == |s| && forall i :: 0 <= i < |s| ==> r[i] == LowerChar(s[i])
  {
    if s == "" then "" else [LowerChar(s[0])] + Lower(s[1..])
  }

  predicate HasWhitespace(s: string) {
    s != "" && (Codec.IsWhitespace(s[0]) || HasWhitespace(s[1..]))
  }

  function FirstAt(s: string): (i: nat)
    ensures i <= |s| && (forall j :: 0 <= j < i ==> s[j] != '@') && (i < |s| ==> s[i] == '@')
  {
    if s == "" || s[0] == '@' then 0 else 1 + FirstAt(s[1..])
  }

  /** One `@`, something before it, something with a dot after it. */
  predicate CanBeReal(s: string) {
    var at := FirstAt(s);
    at < |s| && at > 0 && s[at + 1..] != "" && '.' in s[at + 1..] && '@' !in s[at + 1..]
  }

  function NormalizeEmail(raw: string): Option<string> {
    var trimmed := Lower(TrimEnd(TrimStart(raw)));
    if trimmed == "" || HasWhitespace(trimmed) || !CanBeReal(trimmed) then None else Some(trimmed)
  }

  lemma {:induction false} NothingToTrim(s: string)
    requires !HasWhitespace(s)
    ensures TrimStart(s) == s && TrimEnd(s) == s
  {
    if s != "" { NoWhitespaceAtEnd(s); }
  }

  lemma {:induction false} NoWhitespaceAtEnd(s: string)
    requires s != "" && !HasWhitespace(s)
    ensures !Codec.IsWhitespace(s[|s| - 1])
  {
    if |s| > 1 { NoWhitespaceAtEnd(s[1..]); }
  }

  lemma LowerTwice(s: string)
    ensures Lower(Lower(s)) == Lower(s)
  {}

  /** A stored address is found again under itself, and under any spelling of it. */
  lemma NormalizeTwice(raw: string)
    ensures NormalizeEmail(raw).Some? ==> NormalizeEmail(NormalizeEmail(raw).value) == NormalizeEmail(raw)
  {
    var email := Lower(TrimEnd(TrimStart(raw)));
    LowerTwice(TrimEnd(TrimStart(raw)));
    if NormalizeEmail(raw).Some? {
      NothingToTrim(email);
    }
  }

  /** The same letter, in whichever case. */
  predicate SameLetter(a: char, b: char) {
    || a == b
    || ('A' <= a <= 'Z' && b as int == a as int + 32)
    || ('A' <= b <= 'Z' && a as int == b as int + 32)
  }

  predicate SpeltAlike(a: string, b: string) {
    |a| == |b| && forall i :: 0 <= i < |a| ==> SameLetter(a[i], b[i])
  }

  lemma {:induction false} TrimAlike(a: string, b: string)
    requires SpeltAlike(a, b)
    ensures SpeltAlike(TrimStart(a), TrimStart(b)) && SpeltAlike(TrimEnd(a), TrimEnd(b))
    decreases |a|
  {
    if a != "" {
      assert Codec.IsWhitespace(a[0]) <==> Codec.IsWhitespace(b[0]);
      assert Codec.IsWhitespace(a[|a| - 1]) <==> Codec.IsWhitespace(b[|b| - 1]);
      TrimAlike(a[1..], b[1..]);
      TrimAlike(a[..|a| - 1], b[..|b| - 1]);
    }
  }

  lemma LowerAlike(a: string, b: string)
    requires SpeltAlike(a, b)
    ensures Lower(a) == Lower(b)
  {
    forall i | 0 <= i < |a| ensures Lower(a)[i] == Lower(b)[i] { assert SameLetter(a[i], b[i]); }
  }

  predicate Blank(s: string) {
    forall c :: c in s ==> Codec.IsWhitespace(c)
  }

  lemma {:induction false} TrimStartPadded(pad: string, s: string)
    requires Blank(pad)
    ensures TrimStart(pad + s) == TrimStart(s)
  {
    if pad == "" {
      assert pad + s == s;
    } else {
      assert (pad + s)[1..] == pad[1..] + s;
      TrimStartPadded(pad[1..], s);
    }
  }

  lemma {:induction false} TrimEndPadded(s: string, pad: string)
    requires Blank(pad)
    ensures TrimEnd(s + pad) == TrimEnd(s)
    decreases |pad|
  {
    if pad == "" {
      assert s + pad == s;
    } else {
      assert (s + pad)[..|s + pad| - 1] == s + pad[..|pad| - 1];
      assert (s + pad)[|s + pad| - 1] == pad[|pad| - 1];
      TrimEndPadded(s, pad[..|pad| - 1]);
    }
  }

  lemma {:induction false} TrimStartBeforePad(s: string, pad: string)
    requires Blank(pad)
    ensures TrimEnd(TrimStart(s + pad)) == TrimEnd(TrimStart(s))
  {
    if s == "" {
      assert s + pad == pad + "";
      TrimStartPadded(pad, "");
    } else if Codec.IsWhitespace(s[0]) {
      assert (s + pad)[1..] == s[1..] + pad;
      TrimStartBeforePad(s[1..], pad);
    } else {
      TrimEndPadded(s, pad);
    }
  }

  lemma NormalizeAlike(a: string, b: string)
    requires SpeltAlike(a, b)
    ensures NormalizeEmail(a) == NormalizeEmail(b)
  {
    TrimAlike(a, b);
    TrimAlike(TrimStart(a), TrimStart(b));
    LowerAlike(TrimEnd(TrimStart(a)), TrimEnd(TrimStart(b)));
  }

  /** Capitals do not matter, nor blanks around. */
  lemma SpellingDoesNotMatter(before: string, a: string, behind: string, b: string)
    requires Blank(before) && Blank(behind) && SpeltAlike(a, b)
    ensures NormalizeEmail(before + a + behind) == NormalizeEmail(b)
  {
    PaddingIsTrimmed(before, a, behind);
    TrimmedDecides(before + a + behind, a);
    NormalizeAlike(a, b);
  }

  lemma PaddingIsTrimmed(before: string, a: string, behind: string)
    requires Blank(before) && Blank(behind)
    ensures TrimEnd(TrimStart(before + a + behind)) == TrimEnd(TrimStart(a))
  {
    assert before + a + behind == before + (a + behind);
    TrimStartPadded(before, a + behind);
    TrimStartBeforePad(a, behind);
  }

  lemma TrimmedDecides(a: string, b: string)
    requires TrimEnd(TrimStart(a)) == TrimEnd(TrimStart(b))
    ensures NormalizeEmail(a) == NormalizeEmail(b)
  {}

  /** One part before the only `@`, and a part with a dot in it behind. */
  ghost predicate IsAddress(s: string) {
    exists local: string, domain: string :: s == local + "@" + domain && local != "" && '@' !in local
                                            && '@' !in domain && '.' in domain
  }

  lemma CanBeRealIff(s: string)
    ensures CanBeReal(s) <==> IsAddress(s)
  {
    var at := FirstAt(s);
    if CanBeReal(s) {
      assert s == s[..at] + "@" + s[at + 1..];
      assert '@' !in s[..at];
    }
    if local: string, domain: string :| s == local + "@" + domain && local != "" && '@' !in local
                                        && '@' !in domain && '.' in domain {
      assert s[|local|] == '@' && forall j :: 0 <= j < |local| ==> s[j] == local[j];
      assert s[|local| + 1..] == domain;
      assert at == |local|;
    }
  }

  /** What an address is stored as, and which texts are addresses at all. */
  lemma NormalizeIff(raw: string, email: string)
    ensures NormalizeEmail(raw) == Some(email) <==>
            email == Lower(TrimEnd(TrimStart(raw))) && !HasWhitespace(email) && IsAddress(email)
  {
    CanBeRealIff(Lower(TrimEnd(TrimStart(raw))));
  }

  // ------------------------------------------------------------- the table

  function FindRow(rows: seq<User>, email: string): (r: Option<nat>)
    ensures r.Some? ==> r.value < |rows| && rows[r.value].email == email
    ensures r.None? ==> forall i :: 0 <= i < |rows| ==> rows[i].email != email
  {
    if rows == [] then None
    else if rows[|rows| - 1].email == email then Some(|rows| - 1)
    else FindRow(rows[..|rows| - 1], email)
  }

  function FindByEmail(rows: seq<User>, email: string): Option<nat> {
    match NormalizeEmail(email)
    case None => None
    case Some(normalized) => FindRow(rows, normalized)
  }

  datatype Op = SignsIn(email: string) | Bumps(id: nat)

  function After(rows: seq<User>, op: Op): seq<User> {
    match op
    case SignsIn(email) =>
      (match NormalizeEmail(email)
       case None => rows
       case Some(normalized) => if FindRow(rows, normalized).Some? then rows else rows + [User(normalized, 0)])
    case Bumps(id) => if id < |rows| then rows[id := rows[id].(epoch := rows[id].epoch + 1)] else rows
  }

  function AfterAll(rows: seq<User>, ops: seq<Op>): seq<User> {
    if ops == [] then rows else After(AfterAll(rows, ops[..|ops| - 1]), ops[|ops| - 1])
  }

  ghost predicate UsersInv(rows: seq<User>) {
    && (forall i, j :: 0 <= i < j < |rows| ==> rows[i].email != rows[j].email)
    && forall i :: 0 <= i < |rows| ==> NormalizeEmail(rows[i].email) == Some(rows[i].email)
  }

  class UserTable {
    var rows: seq<User>

    constructor ()
      ensures rows == [] && UsersInv(rows)
    {
      rows := [];
    }

    /** The account of an address, made on first use. */
    method FindOrCreate(email: string) returns (r: Option<nat>)
      requires UsersInv(rows)
      modifies this
      ensures rows == After(old(rows), SignsIn(email)) && UsersInv(rows)
      ensures r == FindByEmail(rows, email) && (r.Some? <==> NormalizeEmail(email).Some?)
    {
      OpKeepsInv(rows, SignsIn(email));
      var normalized := NormalizeEmail(email);
      if normalized.None? {
        return None;
      }
      var found := FindRow(rows, normalized.value);
      if found.Some? {
        return found;
      }
      rows := rows + [User(normalized.value, 0)];
      r := Some(|rows| - 1);
    }

    method BumpEpoch(id: nat)
      requires UsersInv(rows)
      modifies this
      ensures rows == After(old(rows), Bumps(id)) && UsersInv(rows)
    {
      OpKeepsInv(rows, Bumps(id));
      if id < |rows| {
        rows := rows[id := rows[id].(epoch := rows[id].epoch + 1)];
      }
    }
  }

  lemma OpKeepsInv(rows: seq<User>, op: Op)
    requires UsersInv(rows)
    ensures UsersInv(After(rows, op))
  {
    match op
    case SignsIn(email) => SignInKeepsInv(rows, email);
    case Bumps(_) => SameAddressesKeepInv(rows, After(rows, op));
  }

  lemma SignInKeepsInv(rows: seq<User>, email: string)
    requires UsersInv(rows)
    ensures UsersInv(After(rows, SignsIn(email)))
  {
    NormalizeTwice(email);
    if NormalizeEmail(email).Some? && FindRow(rows, NormalizeEmail(email).value).None? {
      NewRowKeepsInv(rows, NormalizeEmail(email).value);
    }
  }

  lemma NewRowKeepsInv(rows: seq<User>, email: string)
    requires UsersInv(rows) && NormalizeEmail(email) == Some(email)
    requires forall i :: 0 <= i < |rows| ==> rows[i].email != email
    ensures UsersInv(rows + [User(email, 0)])
  {}

  lemma SameAddressesKeepInv(a: seq<User>, b: seq<User>)
    requires UsersInv(a) && |b| == |a| && forall i :: 0 <= i < |a| ==> b[i].email == a[i].email
    ensures UsersInv(b)
  {
    forall i | 0 <= i < |b| ensures NormalizeEmail(b[i].email) == Some(b[i].email) {
      assert NormalizeEmail(a[i].email) == Some(a[i].email);
    }
  }

  lemma SignedInIsFound(rows: seq<User>, email: string)
    requires NormalizeEmail(email).Some?
    ensures FindRow(After(rows, SignsIn(email)), NormalizeEmail(email).value).Some?
  {
    var normalized := NormalizeEmail(email).value;
    var later := After(rows, SignsIn(email));
    if FindRow(rows, normalized).None? {
      assert later[|later| - 1].email == normalized;
    }
  }

  /** Two spellings of one address are one account. */
  lemma OneAccountPerAddress(rows: seq<User>, a: string, b: string)
    requires NormalizeEmail(a).Some? && NormalizeEmail(b) == NormalizeEmail(a)
    ensures After(After(rows, SignsIn(a)), SignsIn(b)) == After(rows, SignsIn(a))
    ensures FindByEmail(After(rows, SignsIn(a)), b) == FindByEmail(After(rows, SignsIn(a)), a)
  {
    SignedInIsFound(rows, a);
  }

  /** However an address is spelt, with capitals or blanks around, it is the account it was first seen as. */
  lemma SpellingsAreOneAccount(rows: seq<User>, before: string, a: string, behind: string, b: string)
    requires Blank(before) && Blank(behind) && SpeltAlike(a, b) && NormalizeEmail(b).Some?
    ensures After(After(rows, SignsIn(b)), SignsIn(before + a + behind)) == After(rows, SignsIn(b))
    ensures FindByEmail(After(rows, SignsIn(b)), before + a + behind) == FindByEmail(After(rows, SignsIn(b)), b)
  {
    SpellingDoesNotMatter(before, a, behind, b);
    OneAccountPerAddress(rows, b, before + a + behind);
  }

  // ------------------------------------------------------------ revocation

  /** `require_user`: the epoch in the token has to be the row's. */
  function RequireUser(rows: seq<User>, claims: Result<Claims, SessionError>): Option<nat> {
    if claims.Err? then None
    else
      match FindByEmail(rows, claims.value.email)
      case None => None
      case Some(id) => if rows[id].epoch == claims.value.epoch then Some(id) else None
  }

  function Count(ops: seq<Op>, op: Op): nat {
    if ops == [] then 0 else Count(ops[..|ops| - 1], op) + if ops[|ops| - 1] == op then 1 else 0
  }

  lemma {:induction false} RunKeepsInv(rows: seq<User>, ops: seq<Op>)
    requires UsersInv(rows)
    ensures UsersInv(AfterAll(rows, ops))
  {
    if ops != [] {
      RunKeepsInv(rows, ops[..|ops| - 1]);
      OpKeepsInv(AfterAll(rows, ops[..|ops| - 1]), ops[|ops| - 1]);
    }
  }

  /** Rows stay where they are, under their address; each bump adds one. */
  lemma {:induction false} RowsOnlyAge(rows: seq<User>, ops: seq<Op>)
    ensures var later := AfterAll(rows, ops);
      && |later| >= |rows|
      && forall id :: 0 <= id < |rows| ==> later[id] == User(rows[id].email, rows[id].epoch + Count(ops, Bumps(id)))
  {
    if ops != [] {
      RowsOnlyAge(rows, ops[..|ops| - 1]);
      OpOnlyAges(AfterAll(rows, ops[..|ops| - 1]), ops[|ops| - 1]);
    }
  }

  lemma OpOnlyAges(rows: seq<User>, op: Op)
    ensures var later := After(rows, op);
      && |later| >= |rows|
      && forall id :: 0 <= id < |rows| ==>
           later[id] == User(rows[id].email, rows[id].epoch + if op == Bumps(id) then 1 else 0)
  {}

  lemma FoundById(rows: seq<User>, id: nat, email: string)
    requires UsersInv(rows) && id < |rows| && NormalizeEmail(email) == Some(rows[id].email)
    ensures FindByEmail(rows, email) == Some(id)
  {
    var r := FindRow(rows, rows[id].email);
    assert r.value == id;
  }

  lemma {:induction false} CountIsZero(ops: seq<Op>, op: Op)
    ensures Count(ops, op) == 0 <==> op !in ops
  {
    if ops != [] {
      CountIsZero(ops[..|ops| - 1], op);
      assert ops == ops[..|ops| - 1] + [ops[|ops| - 1]];
    }
  }

  /** A token lets its user in from issue to expiry until the epoch is bumped, and never anybody else. */
  lemma TokenLives(mac: Mac, rows: seq<User>, id: nat, issued: int, ops: seq<Op>, now: int, key: Bytes)
    requires UsersInv(rows) && id < |rows|
    requires Decimal.InI64(rows[id].epoch) && Decimal.InI64(issued) && Decimal.InI64(issued + MAX_AGE_SECONDS)
    ensures var token := IssueAt(mac, rows[id].email, rows[id].epoch, issued, key);
      RequireUser(AfterAll(rows, ops), VerifyAt(mac, token, now, key)) ==
        if issued - 5 <= now < issued + 30 * 24 * 60 * 60 && Bumps(id) !in ops then Some(id) else None
  {
    var email, epoch := rows[id].email, rows[id].epoch;
    VerifyOfIssue(mac, email, epoch, issued, now, key);
    RowsOnlyAge(rows, ops);
    RunKeepsInv(rows, ops);
    FoundById(AfterAll(rows, ops), id, email);
    CountIsZero(ops, Bumps(id));
  }

  /** After a bump no token of an earlier epoch is ever let in again, however it spells the address. */
  lemma RevokedForGood(mac: Mac, rows: seq<User>, id: nat, email: string, epoch: int, issued: int,
                       ops: seq<Op>, now: int, key: Bytes)
    requires UsersInv(rows) && id < |rows| && NormalizeEmail(email) == Some(rows[id].email)
    requires epoch < rows[id].epoch
    requires Decimal.InI64(epoch) && Decimal.InI64(issued) && Decimal.InI64(issued + MAX_AGE_SECONDS)
    ensures RequireUser(AfterAll(rows, ops), VerifyAt(mac, IssueAt(mac, email, epoch, issued, key), now, key)) == None
  {
    VerifyOfIssue(mac, email, epoch, issued, now, key);
    RowsOnlyAge(rows, ops);
    RunKeepsInv(rows, ops);
    FoundById(AfterAll(rows, ops), id, email);
  }
}
