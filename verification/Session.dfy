/**
 The session cookie's token. The MAC is a parameter: any function of a text and
 a key. Issuing and verifying are given the time.
 */
module Session {
  import opened Base
  import opened Decimal
  import Base64Url
  import Dotted
  import Hex
  import Utf8

  /** Any keyed function from a text to a tag. */
  type Mac = (string, Bytes) -> Bytes

  datatype Claims = Claims(email: string, epoch: int)

  datatype SessionError = Malformed | BadSignature | Expired | InFuture

  const MAX_AGE_SECONDS := 30 * 24 * 60 * 60
  const SKEW_TOLERANCE_SECS := 5
  const VERSION := "v1"

  function Sign(mac: Mac, payload: string, key: Bytes): (tag: string)
    ensures '.' !in tag
  {
    Hex.Encode(mac(payload, key))
  }

  // -------------------------------------------------- constant-time equality

  function Xor(a: nat, b: nat): nat {
    if a == 0 && b == 0 then 0 else (if a % 2 == b % 2 then 0 else 1) + 2 * Xor(a / 2, b / 2)
  }

  function Or(a: nat, b: nat): nat {
    if a == 0 && b == 0 then 0 else (if a % 2 == 0 && b % 2 == 0 then 0 else 1) + 2 * Or(a / 2, b / 2)
  }

  function Differences(acc: nat, a: Bytes, b: Bytes): nat
    requires |a| == |b|
    decreases |a|
  {
    if a == [] then acc else Differences(Or(acc, Xor(a[0], b[0])), a[1..], b[1..])
  }

  function ConstantTimeEq(a: Bytes, b: Bytes): bool {
    |a| == |b| && Differences(0, a, b) == 0
  }

  lemma {:induction false} XorIsZero(a: nat, b: nat)
    ensures Xor(a, b) == 0 <==> a == b
  {
    if a != 0 || b != 0 { XorIsZero(a / 2, b / 2); }
  }

  lemma {:induction false} OrIsZero(a: nat, b: nat)
    ensures Or(a, b) == 0 <==> a == 0 && b == 0
  {
    if a != 0 || b != 0 { OrIsZero(a / 2, b / 2); }
  }

  lemma {:induction false} DifferencesAreZero(acc: nat, a: Bytes, b: Bytes)
    requires |a| == |b|
    ensures Differences(acc, a, b) == 0 <==> acc == 0 && a == b
    decreases |a|
  {
    if a != [] {
      XorIsZero(a[0], b[0]);
      OrIsZero(acc, Xor(a[0], b[0]));
      DifferencesAreZero(Or(acc, Xor(a[0], b[0])), a[1..], b[1..]);
      assert a == b <==> a[0] == b[0] && a[1..] == b[1..] by {
        assert a == [a[0]] + a[1..] && b == [b[0]] + b[1..];
      }
    }
  }

  /** The folded comparison is equality, nothing weaker. */
  lemma ConstantTimeEqIsEq(a: Bytes, b: Bytes)
    ensures ConstantTimeEq(a, b) <==> a == b
  {
    if |a| == |b| { DifferencesAreZero(0, a, b); }
  }

  lemma SameTextSameBytes(a: string, b: string)
    ensures ConstantTimeEq(Utf8.Encode(a), Utf8.Encode(b)) <==> a == b
  {
    ConstantTimeEqIsEq(Utf8.Encode(a), Utf8.Encode(b));
    Utf8.DecodeOfEncode(a);
    Utf8.DecodeOfEncode(b);
  }

  // ------------------------------------------------------------- the token

  function Fields(email: string, epoch: int, now: int): (fields: seq<string>)
    ensures |fields| == 5 && Dotted.DotFree(fields)
  {
    [VERSION, Base64Url.Encode(Utf8.Encode(email)), Print(now), Print(now + MAX_AGE_SECONDS), Print(epoch)]
  }

  function IssueAt(mac: Mac, email: string, epoch: int, now: int, key: Bytes): string {
    var payload := Dotted.Join(Fields(email, epoch, now));
    payload + "." + Sign(mac, payload, key)
  }

  function ReadEmail(field: string): Option<string> {
    match Base64Url.Decode(field)
    case None => None
    case Some(bytes) => Utf8.Decode(bytes)
  }

  function VerifyAt(mac: Mac, raw: string, now: int, key: Bytes): Result<Claims, SessionError> {
    var parts := Dotted.Split(raw);
    if |parts| != 6 || parts[0] != VERSION then Err(Malformed)
    else
      match (Parse(parts[2]), Parse(parts[3]), Parse(parts[4]))
      case (Some(issued), Some(expires), Some(epoch)) =>
        var payload := Dotted.Join(parts[..5]);
        if !ConstantTimeEq(Utf8.Encode(Sign(mac, payload, key)), Utf8.Encode(parts[5])) then Err(BadSignature)
        else if issued > now + SKEW_TOLERANCE_SECS then Err(InFuture)
        else if now >= expires then Err(Expired)
        else
          (match ReadEmail(parts[1])
           case None => Err(Malformed)
           case Some(email) => Ok(Claims(email, epoch)))
      case _ => Err(Malformed)
  }

  /** What a token issued at `issued` deserves at `now`. */
  function Deserved(email: string, epoch: int, issued: int, now: int): Result<Claims, SessionError> {
    if issued > now + SKEW_TOLERANCE_SECS then Err(InFuture)
    else if now >= issued + MAX_AGE_SECONDS then Err(Expired)
    else Ok(Claims(email, epoch))
  }

  lemma {:induction false} JoinLast(parts: seq<string>, last: string)
    requires |parts| >= 1
    ensures Dotted.Join(parts + [last]) == Dotted.Join(parts) + "." + last
  {
    if |parts| > 1 {
      JoinLast(parts[1..], last);
      assert (parts + [last])[1..] == parts[1..] + [last];
    } else {
      assert (parts + [last])[1..] == [last];
    }
  }

  lemma SplitOfIssue(mac: Mac, email: string, epoch: int, now: int, key: Bytes)
    ensures var fields := Fields(email, epoch, now);
      Dotted.Split(IssueAt(mac, email, epoch, now, key)) == fields + [Sign(mac, Dotted.Join(fields), key)]
  {
    SplitOfSigned(mac, Fields(email, epoch, now), key);
  }

  lemma ReadEmailOfEncoded(email: string)
    ensures ReadEmail(Base64Url.Encode(Utf8.Encode(email))) == Some(email)
  {
    Base64Url.DecodeOfEncode(Utf8.Encode(email));
    Utf8.DecodeOfEncode(email);
  }

  /** A token reads back as what it was issued for exactly from five seconds before it to thirty days after. */
  lemma VerifyOfIssue(mac: Mac, email: string, epoch: int, issued: int, now: int, key: Bytes)
    requires InI64(epoch) && InI64(issued) && InI64(issued + MAX_AGE_SECONDS)
    ensures VerifyAt(mac, IssueAt(mac, email, epoch, issued, key), now, key) == Deserved(email, epoch, issued, now)
  {
    var fields := Fields(email, epoch, issued);
    var raw := IssueAt(mac, email, epoch, issued, key);
    SplitOfIssue(mac, email, epoch, issued, key);
    assert Dotted.Split(raw)[..5] == fields;
    ParseOfPrint(issued);
    ParseOfPrint(issued + MAX_AGE_SECONDS);
    ParseOfPrint(epoch);
    ReadEmailOfEncoded(email);
    SameTextSameBytes(Sign(mac, Dotted.Join(fields), key), Sign(mac, Dotted.Join(fields), key));
  }

  datatype Times = Times(issued: int, expires: int)

  /** What five signed fields say: for whom, which epoch, and from when to when. */
  predicate Says(fields: seq<string>, claims: Claims, times: Times) {
    && |fields| == 5 && Dotted.DotFree(fields) && fields[0] == VERSION
    && ReadEmail(fields[1]) == Some(claims.email)
    && Parse(fields[2]) == Some(times.issued) && Parse(fields[3]) == Some(times.expires)
    && Parse(fields[4]) == Some(claims.epoch)
  }

  /** Not from the future, but for a little skew, and not over. */
  predicate Lasts(times: Times, now: int) {
    times.issued <= now + SKEW_TOLERANCE_SECS && now < times.expires
  }

  function Signed(mac: Mac, fields: seq<string>, key: Bytes): string
    requires |fields| == 5
  {
    Dotted.Join(fields) + "." + Sign(mac, Dotted.Join(fields), key)
  }

  lemma SplitOfSigned(mac: Mac, fields: seq<string>, key: Bytes)
    requires |fields| == 5 && Dotted.DotFree(fields)
    ensures Dotted.Split(Signed(mac, fields, key)) == fields + [Sign(mac, Dotted.Join(fields), key)]
  {
    var tag := Sign(mac, Dotted.Join(fields), key);
    JoinLast(fields, tag);
    Dotted.SplitOfJoin(fields + [tag]);
  }

  /** Every accepted token is its own first five fields, dot, and their tag, and the answer is what those fields say. */
  lemma AcceptedIsSigned(mac: Mac, raw: string, now: int, key: Bytes) returns (fields: seq<string>, times: Times)
    requires VerifyAt(mac, raw, now, key).Ok?
    ensures Says(fields, VerifyAt(mac, raw, now, key).value, times) && Lasts(times, now)
    ensures raw == Signed(mac, fields, key)
  {
    var parts := Dotted.Split(raw);
    fields := parts[..5];
    times := Times(Parse(parts[2]).value, Parse(parts[3]).value);
    SameTextSameBytes(Sign(mac, Dotted.Join(fields), key), parts[5]);
    JoinLast(fields, parts[5]);
    Dotted.JoinOfSplit(raw);
    assert fields + [parts[5]] == parts;
  }

  /** Signed fields that last are accepted, and for what they say. */
  lemma SignedIsAccepted(mac: Mac, fields: seq<string>, claims: Claims, times: Times, now: int, key: Bytes)
    requires Says(fields, claims, times) && Lasts(times, now)
    ensures VerifyAt(mac, Signed(mac, fields, key), now, key) == Ok(claims)
  {
    SplitOfSigned(mac, fields, key);
    var parts := Dotted.Split(Signed(mac, fields, key));
    assert parts[..5] == fields;
    SameTextSameBytes(parts[5], parts[5]);
  }

  /** Accepted for some claims exactly when it is signed fields that say so, at a time between theirs. */
  lemma AcceptedIff(mac: Mac, raw: string, claims: Claims, now: int, key: Bytes)
    ensures VerifyAt(mac, raw, now, key) == Ok(claims) <==>
            exists fields, times :: Says(fields, claims, times) && Lasts(times, now) && raw == Signed(mac, fields, key)
  {
    if VerifyAt(mac, raw, now, key) == Ok(claims) {
      var fields, times := AcceptedIsSigned(mac, raw, now, key);
    }
    if fields, times :| Says(fields, claims, times) && Lasts(times, now) && raw == Signed(mac, fields, key) {
      SignedIsAccepted(mac, fields, claims, times, now, key);
    }
  }

  /** Fields that can be read, with some tag behind them. */
  function WithTag(fields: seq<string>, tag: Bytes): string
    requires |fields| == 5
  {
    Dotted.Join(fields) + "." + Hex.Encode(tag)
  }

  /** Readable fields pass exactly under the tag that the keyed function gives of those very fields and this key. */
  lemma TagDecides(mac: Mac, fields: seq<string>, claims: Claims, times: Times, tag: Bytes, now: int, key: Bytes)
    requires Says(fields, claims, times)
    ensures VerifyAt(mac, WithTag(fields, tag), now, key) ==
      if tag != mac(Dotted.Join(fields), key) then Err(BadSignature)
      else if times.issued > now + SKEW_TOLERANCE_SECS then Err(InFuture)
      else if now >= times.expires then Err(Expired)
      else Ok(claims)
  {
    JoinLast(fields, Hex.Encode(tag));
    Dotted.SplitOfJoin(fields + [Hex.Encode(tag)]);
    var parts := Dotted.Split(WithTag(fields, tag));
    assert parts[..5] == fields;
    SameTextSameBytes(Sign(mac, Dotted.Join(fields), key), parts[5]);
    Hex.EncodeIsInjective(mac(Dotted.Join(fields), key), tag);
  }

  /** A tag made for other fields, or under another key, is refused unless the keyed function cannot tell them apart. */
  lemma BorrowedTag(mac: Mac, fields: seq<string>, claims: Claims, times: Times,
                    others: seq<string>, otherKey: Bytes, now: int, key: Bytes)
    requires Says(fields, claims, times) && |others| == 5
    ensures VerifyAt(mac, WithTag(fields, mac(Dotted.Join(others), otherKey)), now, key) == Err(BadSignature)
       <==> mac(Dotted.Join(others), otherKey) != mac(Dotted.Join(fields), key)
  {
    TagDecides(mac, fields, claims, times, mac(Dotted.Join(others), otherKey), now, key);
  }

  /** A token is those fields with that tag; the version, both times, the epoch and the address are what was asked for. */
  lemma IssuedText(mac: Mac, email: string, epoch: int, now: int, key: Bytes)
    ensures var fields := ["v1", Base64Url.Encode(Utf8.Encode(email)), Print(now), Print(now + 2592000), Print(epoch)];
            IssueAt(mac, email, epoch, now, key) == WithTag(fields, mac(Dotted.Join(fields), key))
  {}

  /** What was signed says who for, which epoch and when: no two issues share a payload. */
  lemma PayloadsAreInjective(email: string, epoch: int, issued: int, email': string, epoch': int, issued': int)
    requires InI64(epoch) && InI64(issued) && InI64(epoch') && InI64(issued')
    requires Dotted.Join(Fields(email, epoch, issued)) == Dotted.Join(Fields(email', epoch', issued'))
    ensures email == email' && epoch == epoch' && issued == issued'
  {
    var a, b := Fields(email, epoch, issued), Fields(email', epoch', issued');
    Dotted.SplitOfJoin(a);
    Dotted.SplitOfJoin(b);
    assert a[1] == b[1] && a[2] == b[2] && a[4] == b[4];
    ParseOfPrint(issued);
    ParseOfPrint(issued');
    ParseOfPrint(epoch);
    ParseOfPrint(epoch');
    ReadEmailOfEncoded(email);
    ReadEmailOfEncoded(email');
  }
}
