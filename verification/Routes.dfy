/** Which of the stored wraps a ceremony tries to open. */
module Routes {
  import opened Base
  import opened Crypto
  import opened Accounts

  /** A wrap row as the browser receives it: every column as text or bytes. */
  datatype WrapDto = WrapDto(kind: string, cred: Option<CredId>, blob: Blob, kdf: string, wrapAlg: string)

  datatype Route = Route(kind: WrapKind, cred: Option<CredId>, blob: Blob)

  function ToDto(row: WrapRow): WrapDto {
    WrapDto(KindText(row.kind), row.cred, row.blob, row.kdf, row.wrapAlg)
  }

  /** The route a row offers to somebody asking with `cred`, if this build can use it. */
  function Offered(wrap: WrapDto, cred: Option<CredId>): Option<Route> {
    match ParseKind(wrap.kind)
    case None => None
    case Some(kind) =>
      if wrap.kdf != KDF_HKDF_SHA256 || wrap.wrapAlg != WRAP_ALG_AESKW256 then None
      else
        var selected := match kind
          case Passkey => cred.Some? && wrap.cred == cred
          case EncryptionKey => cred.None?;
        if selected then Some(Route(kind, wrap.cred, wrap.blob)) else None
  }

  function ChooseRoute(wraps: seq<WrapDto>, cred: Option<CredId>): (r: Option<Route>)
    ensures r.Some? <==> exists i :: 0 <= i < |wraps| && Offered(wraps[i], cred).Some?
    ensures r.Some? ==> exists i :: 0 <= i < |wraps| && Offered(wraps[i], cred) == r
  {
    if wraps == [] then None
    else
      match Offered(wraps[0], cred)
      case Some(route) => Some(route)
      case None => ChooseRoute(wraps[1..], cred)
  }

  /** The rows of one user, each once, in an order the database is free to choose. */
  ghost predicate IsListing(db: Db, user: Account, order: seq<nat>) {
    && (forall i, j :: 0 <= i < j < |order| ==> order[i] != order[j])
    && (forall id :: id in order <==> id in db.wraps && db.wraps[id].user == user)
  }

  function Listing(db: Db, order: seq<nat>): (wraps: seq<WrapDto>)
    requires forall id :: id in order ==> id in db.wraps
    ensures |wraps| == |order|
    ensures forall i :: 0 <= i < |order| ==> wraps[i] == ToDto(db.wraps[order[i]])
  {
    seq(|order|, i requires 0 <= i < |order| => ToDto(db.wraps[order[i]]))
  }

  /** The stored row that a request with `cred` is about. */
  ghost predicate IsAskedRow(row: WrapRow, user: Account, cred: Option<CredId>) {
    row.user == user && (if cred.Some? then row.kind.Passkey? && row.cred == cred else row.kind.EncryptionKey?)
  }

  lemma OfferedIffAsked(db: Db, user: Account, id: nat, cred: Option<CredId>)
    requires AccountInv(db) && id in db.wraps && db.wraps[id].user == user
    ensures Offered(ToDto(db.wraps[id]), cred).Some? <==> IsAskedRow(db.wraps[id], user, cred)
  {
    var row := db.wraps[id];
    assert KindText(Passkey) != KindText(EncryptionKey);
    assert ParseKind(KindText(row.kind)) == Some(row.kind);
  }

  lemma AskedRowIsUnique(db: Db, user: Account, i: nat, j: nat, cred: Option<CredId>)
    requires AccountInv(db) && i in db.wraps && j in db.wraps
    requires IsAskedRow(db.wraps[i], user, cred) && IsAskedRow(db.wraps[j], user, cred)
    ensures i == j
  {
    assert Clash(db.wraps[i], db.wraps[j]);
  }

  /** A route is found exactly when the asked row exists, and it is that row's. */
  lemma ChooseRouteFindsTheRow(db: Db, user: Account, order: seq<nat>, cred: Option<CredId>)
    requires AccountInv(db) && IsListing(db, user, order)
    ensures ChooseRoute(Listing(db, order), cred).Some?
       <==> exists id :: id in db.wraps && IsAskedRow(db.wraps[id], user, cred)
    ensures forall id :: id in db.wraps && IsAskedRow(db.wraps[id], user, cred) ==>
       ChooseRoute(Listing(db, order), cred) == Some(Route(db.wraps[id].kind, db.wraps[id].cred, db.wraps[id].blob))
  {
    var wraps := Listing(db, order);
    if ChooseRoute(wraps, cred).Some? {
      var i :| 0 <= i < |wraps| && Offered(wraps[i], cred).Some?;
      assert order[i] in order;
      OfferedIffAsked(db, user, order[i], cred);
    }
    forall id | id in db.wraps && IsAskedRow(db.wraps[id], user, cred)
      ensures ChooseRoute(wraps, cred) == Some(Route(db.wraps[id].kind, db.wraps[id].cred, db.wraps[id].blob))
    {
      AskedRowIsFound(db, user, order, cred, id);
    }
  }

  lemma AskedRowIsFound(db: Db, user: Account, order: seq<nat>, cred: Option<CredId>, id: nat)
    requires AccountInv(db) && IsListing(db, user, order) && id in db.wraps && IsAskedRow(db.wraps[id], user, cred)
    ensures ChooseRoute(Listing(db, order), cred)
         == Some(Route(db.wraps[id].kind, db.wraps[id].cred, db.wraps[id].blob))
  {
    var wraps := Listing(db, order);
    assert id in order;
    var i :| 0 <= i < |order| && order[i] == id;
    OfferedIffAsked(db, user, id, cred);
    assert Offered(wraps[i], cred).Some?;
    assert ChooseRoute(wraps, cred).Some?;
    var j :| 0 <= j < |wraps| && Offered(wraps[j], cred) == ChooseRoute(wraps, cred);
    assert order[j] in order;
    OfferedIffAsked(db, user, order[j], cred);
    AskedRowIsUnique(db, user, id, order[j], cred);
  }

  /** The order the rows arrive in does not matter. */
  lemma ChooseRouteIgnoresOrder(db: Db, user: Account, a: seq<nat>, b: seq<nat>, cred: Option<CredId>)
    requires AccountInv(db) && IsListing(db, user, a) && IsListing(db, user, b)
    ensures ChooseRoute(Listing(db, a), cred) == ChooseRoute(Listing(db, b), cred)
  {
    ChooseRouteFindsTheRow(db, user, a, cred);
    ChooseRouteFindsTheRow(db, user, b, cred);
  }

  /** Rows this build cannot use neither hide a usable route nor stand in for one. */
  lemma {:induction false} UnusableRowsAreSkipped(before: seq<WrapDto>, odd: WrapDto, rest: seq<WrapDto>, cred: Option<CredId>)
    requires ParseKind(odd.kind).None? || odd.kdf != KDF_HKDF_SHA256 || odd.wrapAlg != WRAP_ALG_AESKW256
    ensures ChooseRoute(before + [odd] + rest, cred) == ChooseRoute(before + rest, cred)
  {
    var all := before + [odd] + rest;
    if before == [] {
      assert all[1..] == rest && before + rest == rest;
    } else {
      UnusableRowsAreSkipped(before[1..], odd, rest, cred);
      assert all[1..] == before[1..] + [odd] + rest && (before + rest)[1..] == before[1..] + rest;
    }
  }
}
