/**
 The server's account tables and the endpoints that change them, one account
 call at a time. `Db` is the value the endpoints are specified on; `Database`
 is the store they update in place.
 */
module Accounts {
  import opened Base
  import opened Crypto

  type Account = nat
  type CredId = Bytes
  type Day = int

  /** A row of `entry_key_wrap`. */
  datatype WrapRow = WrapRow(user: Account, kind: WrapKind, cred: Option<CredId>, blob: Blob,
                             kdf: string, wrapAlg: string)

  /** A row of `passkey_credential`. */
  datatype Credential = Credential(user: Account, cred: CredId)

  datatype Db = Db(encrypted: set<Account>, wraps: map<nat, WrapRow>, nextWrap: nat,
                   creds: map<nat, Credential>, entries: map<(Account, Day), Body>)

  datatype PasskeyWrap = PasskeyWrap(cred: CredId, blob: Blob)

  datatype Call =
    | Enable(passkey: Option<PasskeyWrap>, keyBlob: Blob)
    | AddPasskeyWrap(cred: CredId, blob: Blob)
    | ReplaceKeyWrap(blob: Blob)
    | RegisterPasskey(id: nat, cred: CredId)
    | DeletePasskey(id: nat)
    | SaveEntry(day: Day, body: Body, size: nat)

  datatype Refusal = WrongSize | AlreadyEnabled | NotYourPasskey | NotEncrypted | AlreadyKeyed
                   | NoSuchPasskey | LastRoute | SetUpEncryption | TooLarge

  datatype Reply = Done | Refused(why: Refusal) | InternalError

  const MAX_BODY_BYTES := 256 * 1024

  const EmptyDb := Db({}, map[], 0, map[], map[])

  // ------------------------------------------------------- the wrap table

  /** The two partial unique indexes: one encryption key per user, one wrap per credential. */
  predicate Clash(a: WrapRow, b: WrapRow) {
    && a.user == b.user
    && ((a.kind.EncryptionKey? && b.kind.EncryptionKey?) || (a.cred.Some? && a.cred == b.cred))
  }

  function NewRow(user: Account, kind: WrapKind, cred: Option<CredId>, blob: Blob): WrapRow {
    WrapRow(user, kind, cred, blob, KDF_HKDF_SHA256, WRAP_ALG_AESKW256)
  }

  /** Inserts a row, or reports that a unique index refused it. */
  function InsertRow(db: Db, row: WrapRow): Option<Db> {
    if exists i :: i in db.wraps && Clash(db.wraps[i], row) then None
    else Some(db.(wraps := db.wraps[db.nextWrap := row], nextWrap := db.nextWrap + 1))
  }

  predicate IsKeyRow(row: WrapRow, user: Account) {
    row.user == user && row.kind.EncryptionKey?
  }

  predicate IsPasskeyRow(row: WrapRow, user: Account) {
    row.user == user && row.kind.Passkey?
  }

  predicate IsFiledUnder(row: WrapRow, user: Account, cred: CredId) {
    row.user == user && row.cred == Some(cred)
  }

  predicate HoldsKeyBlob(db: Db, user: Account, blob: Blob) {
    exists i :: i in db.wraps && IsKeyRow(db.wraps[i], user) && db.wraps[i].blob == blob
  }

  function DeleteKeyRows(db: Db, user: Account): Db {
    db.(wraps := map i | i in db.wraps && !IsKeyRow(db.wraps[i], user) :: db.wraps[i])
  }

  function DeleteRowsFor(db: Db, user: Account, cred: CredId): Db {
    db.(wraps := map i | i in db.wraps && !IsFiledUnder(db.wraps[i], user, cred) :: db.wraps[i])
  }

  /** Read, compare, delete, insert: all of one transaction. */
  function ReplaceKeyRow(db: Db, user: Account, blob: Blob): Option<Db> {
    if HoldsKeyBlob(db, user, blob) then Some(db)
    else InsertRow(DeleteKeyRows(db, user), NewRow(user, EncryptionKey, None, blob))
  }

  function PasskeyRowIds(db: Db, user: Account): set<nat> {
    set i | i in db.wraps && IsPasskeyRow(db.wraps[i], user)
  }

  // ------------------------------------------------------------- endpoints

  function EnableWraps(db: Db, me: Account, passkey: Option<PasskeyWrap>, keyBlob: Blob): Option<Db> {
    var marked := db.(encrypted := db.encrypted + {me});
    var withPasskey := match passkey
      case None => Some(marked)
      case Some(p) => InsertRow(marked, NewRow(me, Passkey, Some(p.cred), p.blob));
    match withPasskey
    case None => None
    case Some(db1) => InsertRow(db1, NewRow(me, EncryptionKey, None, keyBlob))
  }

  function OwnerOf(db: Db, cred: CredId): (owners: set<Account>)
    ensures forall id :: id in db.creds && db.creds[id].cred == cred ==> db.creds[id].user in owners
  {
    set id | id in db.creds && db.creds[id].cred == cred :: db.creds[id].user
  }

  predicate Enrolled(db: Db, user: Account, cred: CredId) {
    exists id :: id in db.creds && db.creds[id] == Credential(user, cred)
  }

  /** One endpoint call by `me`, as a single transaction. */
  function Apply(db: Db, me: Account, call: Call): (Db, Reply) {
    match call
    case Enable(passkey, keyBlob) =>
      if BlobLen(keyBlob) != WRAPPED_KEY_LEN then (db, Refused(WrongSize))
      else if passkey.Some? && BlobLen(passkey.value.blob) != WRAPPED_KEY_LEN then (db, Refused(WrongSize))
      else if me in db.encrypted then (db, Refused(AlreadyEnabled))
      else
        (match EnableWraps(db, me, passkey, keyBlob)
         case None => (db, InternalError)
         case Some(after) => (after, Done))
    case AddPasskeyWrap(cred, blob) =>
      (match AddRefused(db, me, cred, blob)
       case Some(why) => (db, Refused(why))
       case None => AddInserted(db, me, cred, blob))
    case ReplaceKeyWrap(blob) =>
      if BlobLen(blob) != WRAPPED_KEY_LEN then (db, Refused(WrongSize))
      else
        (match ReplaceKeyRow(db, me, blob)
         case None => (db, InternalError)
         case Some(after) => (after, Done))
    case RegisterPasskey(id, cred) =>
      if id in db.creds || OwnerOf(db, cred) != {} then (db, InternalError)
      else (db.(creds := db.creds[id := Credential(me, cred)]), Done)
    case DeletePasskey(id) =>
      if id !in db.creds || db.creds[id].user != me then (db, Refused(NoSuchPasskey))
      else
        var cred := db.creds[id].cred;
        if && me in db.encrypted
           && (exists i :: i in db.wraps && IsPasskeyRow(db.wraps[i], me) && db.wraps[i].cred == Some(cred))
           && |PasskeyRowIds(db, me)| <= 1
        then (db, Refused(LastRoute))
        else (DeleteRowsFor(db.(creds := db.creds - {id}), me, cred), Done)
    case SaveEntry(day, body, size) =>
      if size > MAX_BODY_BYTES then (db, Refused(TooLarge))
      else if me !in db.encrypted then (db, Refused(SetUpEncryption))
      else (db.(entries := db.entries[(me, day) := body]), Done)
  }

  /** An accepted save: what is posted is under its own day, and every other day and account is as it was. */
  lemma SaveLeaves(db: Db, me: Account, day: Day, body: Body, size: nat, user: Account, other: Day)
    ensures Answer(db, me, SaveEntry(day, body, size)) == Done <==> size <= 262144 && me in db.encrypted
    ensures var after := After(db, me, SaveEntry(day, body, size));
      && after == db.(entries := after.entries)
      && (Answer(db, me, SaveEntry(day, body, size)) == Done ==> (me, day) in after.entries && after.entries[(me, day)] == body)
      && ((user, other) != (me, day) ==>
            ((user, other) in after.entries <==> (user, other) in db.entries)
            && ((user, other) in db.entries ==> after.entries[(user, other)] == db.entries[(user, other)]))
  {}

  // ------------------------------- adding a passkey, statement by statement

  /** Everything `encryption_add_passkey_wrap` looks up before it inserts. */
  function AddRefused(db: Db, me: Account, cred: CredId, blob: Blob): Option<Refusal> {
    if BlobLen(blob) != WRAPPED_KEY_LEN then Some(WrongSize)
    else if OwnerOf(db, cred) != {me} then Some(NotYourPasskey)
    else if me !in db.encrypted then Some(NotEncrypted)
    else if exists i :: i in db.wraps && IsFiledUnder(db.wraps[i], me, cred) then Some(AlreadyKeyed)
    else None
  }

  /** Its last statement, on the tables as they are by then. */
  function AddInserted(db: Db, me: Account, cred: CredId, blob: Blob): (Db, Reply) {
    match InsertRow(db, NewRow(me, Passkey, Some(cred), blob))
    case None => (db, InternalError)
    case Some(after) => (after, Done)
  }

  function After(db: Db, me: Account, call: Call): Db {
    Apply(db, me, call).0
  }

  function Answer(db: Db, me: Account, call: Call): Reply {
    Apply(db, me, call).1
  }

  /** Any sequence of calls by any accounts. */
  function AfterAll(db: Db, calls: seq<(Account, Call)>): Db
    decreases |calls|
  {
    if calls == [] then db
    else AfterAll(After(db, calls[0].0, calls[0].1), calls[1..])
  }

  // ------------------------------------------------------------ invariants

  ghost predicate RowsWellFormed(db: Db) {
    forall i :: i in db.wraps ==>
      && i < db.nextWrap
      && BlobLen(db.wraps[i].blob) == WRAPPED_KEY_LEN
      && (db.wraps[i].kind.Passkey? <==> db.wraps[i].cred.Some?)
      && db.wraps[i].kdf == KDF_HKDF_SHA256 && db.wraps[i].wrapAlg == WRAP_ALG_AESKW256
  }

  ghost predicate RowsUnique(db: Db) {
    forall i, j :: i in db.wraps && j in db.wraps && i != j ==> !Clash(db.wraps[i], db.wraps[j])
  }

  ghost predicate HasKeyRow(db: Db, user: Account) {
    exists i :: i in db.wraps && IsKeyRow(db.wraps[i], user)
  }

  ghost predicate HasPasskeyRow(db: Db, user: Account) {
    exists i :: i in db.wraps && IsPasskeyRow(db.wraps[i], user)
  }

  ghost predicate EncryptedHaveKeyRow(db: Db) {
    forall u :: u in db.encrypted ==> HasKeyRow(db, u)
  }

  ghost predicate EntriesOnlyWhenEncrypted(db: Db) {
    forall k :: k in db.entries ==> k.0 in db.encrypted
  }

  ghost predicate CredentialsUnique(db: Db) {
    forall i, j :: i in db.creds && j in db.creds && i != j ==> db.creds[i].cred != db.creds[j].cred
  }

  ghost predicate AccountInv(db: Db) {
    && RowsWellFormed(db) && RowsUnique(db) && EncryptedHaveKeyRow(db)
    && EntriesOnlyWhenEncrypted(db) && CredentialsUnique(db)
  }

  lemma InsertKeepsRows(db: Db, row: WrapRow)
    requires RowsWellFormed(db) && RowsUnique(db)
    requires BlobLen(row.blob) == WRAPPED_KEY_LEN && (row.kind.Passkey? <==> row.cred.Some?)
    requires row.kdf == KDF_HKDF_SHA256 && row.wrapAlg == WRAP_ALG_AESKW256
    ensures InsertRow(db, row).Some? ==>
      var after := InsertRow(db, row).value;
      && RowsWellFormed(after) && RowsUnique(after)
      && forall u :: HasKeyRow(after, u) <==> HasKeyRow(db, u) || IsKeyRow(row, u)
  {
    var r := InsertRow(db, row);
    if r.Some? {
      var after := r.value;
      assert db.nextWrap in after.wraps && after.wraps[db.nextWrap] == row;
      forall u ensures HasKeyRow(after, u) <==> HasKeyRow(db, u) || IsKeyRow(row, u) {
        if HasKeyRow(db, u) {
          var i :| i in db.wraps && IsKeyRow(db.wraps[i], u);
          assert i in after.wraps && IsKeyRow(after.wraps[i], u);
        }
      }
    }
  }

  lemma EnableKeepsInv(db: Db, me: Account, passkey: Option<PasskeyWrap>, keyBlob: Blob)
    requires AccountInv(db)
    ensures AccountInv(After(db, me, Enable(passkey, keyBlob)))
  {
    var marked := db.(encrypted := db.encrypted + {me});
    if passkey.Some? && BlobLen(passkey.value.blob) == WRAPPED_KEY_LEN && BlobLen(keyBlob) == WRAPPED_KEY_LEN {
      var row := NewRow(me, Passkey, Some(passkey.value.cred), passkey.value.blob);
      InsertKeepsRows(marked, row);
      if InsertRow(marked, row).Some? {
        InsertKeepsRows(InsertRow(marked, row).value, NewRow(me, EncryptionKey, None, keyBlob));
      }
    } else if passkey.None? && BlobLen(keyBlob) == WRAPPED_KEY_LEN {
      InsertKeepsRows(marked, NewRow(me, EncryptionKey, None, keyBlob));
    }
    MarkingKeepsKeyRows(db, marked);
  }

  lemma MarkingKeepsKeyRows(db: Db, marked: Db)
    requires marked.wraps == db.wraps
    ensures forall u :: HasKeyRow(marked, u) <==> HasKeyRow(db, u)
  {
    forall u ensures HasKeyRow(marked, u) <==> HasKeyRow(db, u) {
      if HasKeyRow(db, u) {
        var i :| i in db.wraps && IsKeyRow(db.wraps[i], u);
        assert i in marked.wraps && IsKeyRow(marked.wraps[i], u);
      }
    }
  }

  lemma ReplaceKeepsInv(db: Db, me: Account, blob: Blob)
    requires AccountInv(db)
    ensures AccountInv(After(db, me, ReplaceKeyWrap(blob)))
  {
    var cleared := DeleteKeyRows(db, me);
    var row := NewRow(me, EncryptionKey, None, blob);
    if BlobLen(blob) == WRAPPED_KEY_LEN {
      InsertKeepsRows(cleared, row);
    }
    if BlobLen(blob) == WRAPPED_KEY_LEN && !HoldsKeyBlob(db, me, blob) && InsertRow(cleared, row).Some? {
      var after := InsertRow(cleared, row).value;
      forall u | u in after.encrypted ensures HasKeyRow(after, u) {
        if u != me {
          var i :| i in db.wraps && IsKeyRow(db.wraps[i], u);
          assert i in cleared.wraps && IsKeyRow(cleared.wraps[i], u);
        }
      }
    }
  }

  lemma DeleteKeepsInv(db: Db, me: Account, id: nat)
    requires AccountInv(db)
    ensures AccountInv(After(db, me, DeletePasskey(id)))
  {
    var after := After(db, me, DeletePasskey(id));
    forall u | u in after.encrypted ensures HasKeyRow(after, u) {
      var i :| i in db.wraps && IsKeyRow(db.wraps[i], u);
      assert i in after.wraps && IsKeyRow(after.wraps[i], u);
    }
  }

  lemma SameRowsSameKeyRows(a: Db, b: Db)
    requires a.wraps == b.wraps
    ensures forall u :: HasKeyRow(a, u) <==> HasKeyRow(b, u)
  {
    forall u ensures HasKeyRow(a, u) <==> HasKeyRow(b, u) {
      if HasKeyRow(a, u) {
        var i :| i in a.wraps && IsKeyRow(a.wraps[i], u);
        assert i in b.wraps && IsKeyRow(b.wraps[i], u);
      }
      if HasKeyRow(b, u) {
        var i :| i in b.wraps && IsKeyRow(b.wraps[i], u);
        assert i in a.wraps && IsKeyRow(a.wraps[i], u);
      }
    }
  }

  /** Every endpoint keeps the account invariant, whatever a client posts. */
  lemma CallKeepsInv(db: Db, me: Account, call: Call)
    requires AccountInv(db)
    ensures AccountInv(After(db, me, call))
  {
    match call
    case Enable(passkey, keyBlob) => EnableKeepsInv(db, me, passkey, keyBlob);
    case ReplaceKeyWrap(blob) => ReplaceKeepsInv(db, me, blob);
    case DeletePasskey(id) => DeleteKeepsInv(db, me, id);
    case AddPasskeyWrap(cred, blob) =>
      if BlobLen(blob) == WRAPPED_KEY_LEN { InsertKeepsRows(db, NewRow(me, Passkey, Some(cred), blob)); }
    case RegisterPasskey(id, cred) =>
      var after := After(db, me, call);
      SameRowsSameKeyRows(db, after);
      if id !in db.creds && OwnerOf(db, cred) == {} {
        assert forall i :: i in db.creds ==> db.creds[i].cred != cred;
      }
    case SaveEntry(_, _, _) => SameRowsSameKeyRows(db, After(db, me, call));
  }

  lemma {:induction false} RunKeepsInv(db: Db, calls: seq<(Account, Call)>)
    requires AccountInv(db)
    ensures AccountInv(AfterAll(db, calls))
    decreases |calls|
  {
    if calls != [] {
      CallKeepsInv(db, calls[0].0, calls[0].1);
      RunKeepsInv(After(db, calls[0].0, calls[0].1), calls[1..]);
    }
  }

  lemma EncryptionIsNeverUndone(db: Db, user: Account, who: Account, call: Call)
    requires user in db.encrypted
    ensures user in After(db, who, call).encrypted
  {}

  /** Encryption, once on, is on for good. */
  lemma {:induction false} EncryptionStaysOn(db: Db, user: Account, calls: seq<(Account, Call)>)
    requires user in db.encrypted
    ensures user in AfterAll(db, calls).encrypted
    decreases |calls|
  {
    if calls != [] {
      EncryptionIsNeverUndone(db, user, calls[0].0, calls[0].1);
      EncryptionStaysOn(After(db, calls[0].0, calls[0].1), user, calls[1..]);
    }
  }

  /** The tables may change between the checks and the insert; the unique indexes still hold them sound. */
  lemma LateInsertKeepsInv(db: Db, me: Account, cred: CredId, blob: Blob)
    requires AccountInv(db) && BlobLen(blob) == WRAPPED_KEY_LEN
    ensures AccountInv(AddInserted(db, me, cred, blob).0)
  {
    InsertKeepsRows(db, NewRow(me, Passkey, Some(cred), blob));
  }

  // --------------------------------------------------- when enabling works

  /** Everything the caller could look up before calling `encryption_enable`. */
  ghost predicate EnableWillWork(db: Db, me: Account, passkey: Option<PasskeyWrap>, keyBlob: Blob) {
    && BlobLen(keyBlob) == WRAPPED_KEY_LEN
    && (passkey.Some? ==> BlobLen(passkey.value.blob) == WRAPPED_KEY_LEN)
    && me !in db.encrypted
    && !HasKeyRow(db, me)
    && (passkey.Some? ==> forall i :: i in db.wraps ==> !IsFiledUnder(db.wraps[i], me, passkey.value.cred))
  }

  /** Enabling goes through exactly then; otherwise nothing at all is changed. */
  lemma EnableWorksIff(db: Db, me: Account, passkey: Option<PasskeyWrap>, keyBlob: Blob)
    requires AccountInv(db)
    ensures Answer(db, me, Enable(passkey, keyBlob)) == Done <==> EnableWillWork(db, me, passkey, keyBlob)
    ensures Answer(db, me, Enable(passkey, keyBlob)) != Done ==> After(db, me, Enable(passkey, keyBlob)) == db
  {
    var marked := db.(encrypted := db.encrypted + {me});
    if passkey.None? {
      KeyInsertedIff(marked, me, keyBlob);
    } else {
      var row := NewRow(me, Passkey, Some(passkey.value.cred), passkey.value.blob);
      PasskeyInsertedIff(marked, me, passkey.value);
      if InsertRow(marked, row).Some? {
        KeyInsertedIff(InsertRow(marked, row).value, me, keyBlob);
        InsertKeepsKeyRows(marked, row, me);
      }
    }
    SameRowsSameKeyRows(db, marked);
  }

  lemma KeyInsertedIff(db: Db, me: Account, keyBlob: Blob)
    requires forall i :: i in db.wraps ==> (db.wraps[i].kind.Passkey? <==> db.wraps[i].cred.Some?)
    ensures InsertRow(db, NewRow(me, EncryptionKey, None, keyBlob)).Some? <==> !HasKeyRow(db, me)
  {
    if HasKeyRow(db, me) {
      var i :| i in db.wraps && IsKeyRow(db.wraps[i], me);
      assert Clash(db.wraps[i], NewRow(me, EncryptionKey, None, keyBlob));
    }
  }

  lemma PasskeyInsertedIff(db: Db, me: Account, p: PasskeyWrap)
    ensures InsertRow(db, NewRow(me, Passkey, Some(p.cred), p.blob)).Some?
       <==> forall i :: i in db.wraps ==> !IsFiledUnder(db.wraps[i], me, p.cred)
  {
    if i :| i in db.wraps && IsFiledUnder(db.wraps[i], me, p.cred) {
      assert Clash(db.wraps[i], NewRow(me, Passkey, Some(p.cred), p.blob));
    }
  }

  lemma InsertKeepsKeyRows(db: Db, row: WrapRow, user: Account)
    requires !IsKeyRow(row, user) && InsertRow(db, row).Some? && forall i :: i in db.wraps ==> i < db.nextWrap
    ensures HasKeyRow(InsertRow(db, row).value, user) <==> HasKeyRow(db, user)
  {
    var after := InsertRow(db, row).value;
    if i :| i in db.wraps && IsKeyRow(db.wraps[i], user) {
      assert i in after.wraps && IsKeyRow(after.wraps[i], user);
    }
  }

  /** A passkey gets a wrap exactly when the caller enrolled it, the account is encrypted and it has none yet. */
  lemma AddPasskeyWorksIff(db: Db, me: Account, cred: CredId, blob: Blob)
    requires AccountInv(db)
    ensures Answer(db, me, AddPasskeyWrap(cred, blob)) == Done <==>
            && BlobLen(blob) == WRAPPED_KEY_LEN && Enrolled(db, me, cred) && me in db.encrypted
            && forall i :: i in db.wraps ==> !IsFiledUnder(db.wraps[i], me, cred)
  {
    OwnerIsEnrolled(db, me, cred);
    PasskeyInsertedIff(db, me, PasskeyWrap(cred, blob));
  }

  lemma OwnerIsEnrolled(db: Db, me: Account, cred: CredId)
    requires CredentialsUnique(db)
    ensures OwnerOf(db, cred) == {me} <==> Enrolled(db, me, cred)
  {
    if OwnerOf(db, cred) == {me} {
      assert me in OwnerOf(db, cred);
      var id :| id in db.creds && db.creds[id].cred == cred && db.creds[id].user == me;
      assert db.creds[id] == Credential(me, cred);
    }
    if id :| id in db.creds && db.creds[id] == Credential(me, cred) {
      assert me in OwnerOf(db, cred);
      assert forall u :: u in OwnerOf(db, cred) ==> u == me;
    }
  }

  /** A call that is refused, or fails, leaves every table as it was. */
  lemma OnlyDoneChanges(db: Db, me: Account, call: Call)
    requires Answer(db, me, call) != Done
    ensures After(db, me, call) == db
  {}

  // ------------------------------------- wraps of accounts not encrypted

  ghost predicate NoStrayWraps(db: Db) {
    forall i :: i in db.wraps ==> db.wraps[i].user in db.encrypted
  }

  /** The one call that files a wrap for an account with no encryption. */
  predicate FilesStrayWrap(db: Db, me: Account, call: Call) {
    call.ReplaceKeyWrap? && BlobLen(call.blob) == WRAPPED_KEY_LEN && me !in db.encrypted
  }

  lemma StrayWrapIff(db: Db, me: Account, call: Call)
    requires AccountInv(db) && NoStrayWraps(db)
    ensures NoStrayWraps(After(db, me, call)) <==> !FilesStrayWrap(db, me, call)
  {
    var after := After(db, me, call);
    if FilesStrayWrap(db, me, call) {
      var cleared := DeleteKeyRows(db, me);
      assert !HoldsKeyBlob(db, me, call.blob);
      assert InsertRow(cleared, NewRow(me, EncryptionKey, None, call.blob)).Some?;
      assert db.nextWrap in after.wraps && after.wraps[db.nextWrap].user == me;
    }
  }

  /** Such a wrap is for ever: the account can then never be encrypted. */
  lemma {:induction false} StrayWrapBlocksEnabling(db: Db, user: Account, calls: seq<(Account, Call)>)
    requires AccountInv(db) && user !in db.encrypted && HasKeyRow(db, user)
    ensures user !in AfterAll(db, calls).encrypted && HasKeyRow(AfterAll(db, calls), user)
    decreases |calls|
  {
    if calls != [] {
      var me, call := calls[0].0, calls[0].1;
      CallKeepsInv(db, me, call);
      StrayWrapSurvives(db, user, me, call);
      StrayWrapBlocksEnabling(After(db, me, call), user, calls[1..]);
    }
  }

  /** A row goes only in a re-issue of its user's key, or with the passkey it is filed under. */
  lemma RowSurvives(db: Db, i: nat, me: Account, call: Call)
    requires AccountInv(db) && i in db.wraps
    requires !(call.ReplaceKeyWrap? && IsKeyRow(db.wraps[i], me))
    requires !(call.DeletePasskey? && call.id in db.creds && IsFiledUnder(db.wraps[i], me, db.creds[call.id].cred))
    ensures i in After(db, me, call).wraps && After(db, me, call).wraps[i] == db.wraps[i]
  {}

  lemma StrayWrapSurvives(db: Db, user: Account, me: Account, call: Call)
    requires AccountInv(db) && user !in db.encrypted && HasKeyRow(db, user)
    ensures user !in After(db, me, call).encrypted && HasKeyRow(After(db, me, call), user)
  {
    var after := After(db, me, call);
    var i :| i in db.wraps && IsKeyRow(db.wraps[i], user);
    if call.ReplaceKeyWrap? && me == user {
      ReplaceLeavesKeyRow(db, me, call.blob);
    } else {
      RowSurvives(db, i, me, call);
      assert IsKeyRow(after.wraps[i], user);
      if call.Enable? { EnableWorksIff(db, me, call.passkey, call.keyBlob); }
    }
  }

  lemma ReplaceLeavesKeyRow(db: Db, me: Account, blob: Blob)
    requires HasKeyRow(db, me)
    ensures HasKeyRow(After(db, me, ReplaceKeyWrap(blob)), me)
    ensures After(db, me, ReplaceKeyWrap(blob)).encrypted == db.encrypted
  {
    var after := After(db, me, ReplaceKeyWrap(blob));
    if after.wraps != db.wraps {
      assert db.nextWrap in after.wraps && IsKeyRow(after.wraps[db.nextWrap], me);
    } else {
      SameRowsSameKeyRows(db, after);
    }
  }

  /** The finding above, on an empty database. */
  lemma StrayWrapExample()
    ensures var blob := Junk(40);
            var db := After(EmptyDb, 7, ReplaceKeyWrap(blob));
            && !NoStrayWraps(db)
            && Answer(db, 7, Enable(None, blob)) == InternalError
  {
    var blob := Junk(40);
    var db := After(EmptyDb, 7, ReplaceKeyWrap(blob));
    assert 0 in db.wraps && db.wraps[0] == NewRow(7, EncryptionKey, None, blob);
    assert Clash(db.wraps[0], NewRow(7, EncryptionKey, None, blob));
  }

  // ------------------------------------------------------- the last route

  /** A passkey wrap, once an encrypted account has one, is never the last to go. */
  lemma PasskeyRowSurvives(db: Db, user: Account, me: Account, call: Call)
    requires AccountInv(db) && user in db.encrypted && HasPasskeyRow(db, user)
    ensures HasPasskeyRow(After(db, me, call), user)
  {
    var after := After(db, me, call);
    var i :| i in db.wraps && IsPasskeyRow(db.wraps[i], user);
    if call.DeletePasskey? && call.id in db.creds && IsFiledUnder(db.wraps[i], me, db.creds[call.id].cred) {
      DeleteLeavesARoute(db, user, i, call.id);
    } else {
      RowSurvives(db, i, me, call);
      assert IsPasskeyRow(after.wraps[i], user);
    }
  }

  lemma DeleteLeavesARoute(db: Db, user: Account, i: nat, id: nat)
    requires AccountInv(db) && user in db.encrypted && i in db.wraps && IsPasskeyRow(db.wraps[i], user)
    requires id in db.creds && IsFiledUnder(db.wraps[i], user, db.creds[id].cred)
    ensures HasPasskeyRow(After(db, user, DeletePasskey(id)), user)
  {
    var after := After(db, user, DeletePasskey(id));
    if Answer(db, user, DeletePasskey(id)).Done? {
      var j := OtherRoute(db, user, i);
      assert j in after.wraps && IsPasskeyRow(after.wraps[j], user);
    } else {
      assert i in after.wraps && IsPasskeyRow(after.wraps[i], user);
    }
  }

  /** More than one passkey row: besides this one there is one under another credential. */
  lemma OtherRoute(db: Db, user: Account, i: nat) returns (j: nat)
    requires AccountInv(db) && i in db.wraps && IsPasskeyRow(db.wraps[i], user) && |PasskeyRowIds(db, user)| > 1
    ensures j in db.wraps && IsPasskeyRow(db.wraps[j], user) && db.wraps[j].cred != db.wraps[i].cred
  {
    assert i in PasskeyRowIds(db, user);
    var others := PasskeyRowIds(db, user) - {i};
    assert |others| == |PasskeyRowIds(db, user)| - 1;
    j :| j in others;
    assert !Clash(db.wraps[i], db.wraps[j]);
  }

  /** Deleting one's passkey is refused exactly when an encrypted account would lose the last passkey that opens it. */
  lemma DeleteRefusedIff(db: Db, me: Account, id: nat)
    requires AccountInv(db) && id in db.creds && db.creds[id].user == me
    ensures Answer(db, me, DeletePasskey(id)) == Refused(LastRoute) <==>
            me in db.encrypted && HasPasskeyRow(db, me) && !HasPasskeyRow(DeleteRowsFor(db, me, db.creds[id].cred), me)
  {
    var left := DeleteRowsFor(db, me, db.creds[id].cred);
    if i :| i in db.wraps && IsPasskeyRow(db.wraps[i], me) && db.wraps[i].cred == Some(db.creds[id].cred) {
      if |PasskeyRowIds(db, me)| > 1 {
        var j := OtherRoute(db, me, i);
        assert j in left.wraps && IsPasskeyRow(left.wraps[j], me);
      } else {
        OnlyRoute(db, me, i);
      }
    } else if i :| i in db.wraps && IsPasskeyRow(db.wraps[i], me) {
      assert i in left.wraps && IsPasskeyRow(left.wraps[i], me);
    }
  }

  lemma OnlyRoute(db: Db, user: Account, i: nat)
    requires i in db.wraps && IsPasskeyRow(db.wraps[i], user) && |PasskeyRowIds(db, user)| <= 1
    ensures forall j :: j in db.wraps && IsPasskeyRow(db.wraps[j], user) ==> j == i
  {
    var ids := PasskeyRowIds(db, user);
    assert i in ids;
    forall j | j in db.wraps && IsPasskeyRow(db.wraps[j], user) ensures j == i {
      if j != i {
        assert {i, j} <= ids && |{i, j}| == 2;
        SubsetIsNoLarger({i, j}, ids);
      }
    }
  }

  lemma {:induction false} SubsetIsNoLarger(a: set<nat>, b: set<nat>)
    requires a <= b
    ensures |a| <= |b|
  {
    if a != {} {
      var x :| x in a;
      SubsetIsNoLarger(a - {x}, b - {x});
    }
  }

  lemma {:induction false} LastRouteNeverDeleted(db: Db, user: Account, calls: seq<(Account, Call)>)
    requires AccountInv(db) && user in db.encrypted && HasPasskeyRow(db, user)
    ensures user in AfterAll(db, calls).encrypted && HasPasskeyRow(AfterAll(db, calls), user)
    decreases |calls|
  {
    if calls != [] {
      CallKeepsInv(db, calls[0].0, calls[0].1);
      PasskeyRowSurvives(db, user, calls[0].0, calls[0].1);
      LastRouteNeverDeleted(After(db, calls[0].0, calls[0].1), user, calls[1..]);
    }
  }

  ghost predicate WrapsOwned(db: Db) {
    forall i :: i in db.wraps && db.wraps[i].cred.Some? ==>
      Enrolled(db, db.wraps[i].user, db.wraps[i].cred.value)
  }

  /** The one call that files a passkey wrap under a credential its user never enrolled. */
  ghost predicate EnablesUnenrolled(db: Db, me: Account, call: Call) {
    && call.Enable? && call.passkey.Some?
    && EnableWillWork(db, me, call.passkey, call.keyBlob)
    && !Enrolled(db, me, call.passkey.value.cred)
  }

  lemma OwnershipIff(db: Db, me: Account, call: Call)
    requires AccountInv(db) && WrapsOwned(db)
    ensures WrapsOwned(After(db, me, call)) <==> !EnablesUnenrolled(db, me, call)
  {
    var after := After(db, me, call);
    if call.Enable? {
      EnableWorksIff(db, me, call.passkey, call.keyBlob);
      if Answer(db, me, call) == Done && call.passkey.Some? {
        assert after.wraps[db.nextWrap] == NewRow(me, Passkey, Some(call.passkey.value.cred), call.passkey.value.blob);
      }
    }
    if !EnablesUnenrolled(db, me, call) {
      forall i | i in after.wraps && after.wraps[i].cred.Some?
        ensures Enrolled(after, after.wraps[i].user, after.wraps[i].cred.value)
      {
        StillEnrolled(db, me, call, i);
      }
    }
  }

  /** The case in point: an account enables with a passkey that nobody has. */
  lemma OwnershipExample()
    ensures var blob := Junk(40);
            var (db, reply) := Apply(EmptyDb, 7, Enable(Some(PasskeyWrap([1], blob)), blob));
            && AccountInv(EmptyDb) && WrapsOwned(EmptyDb)
            && reply == Done && !WrapsOwned(db)
  {
    var call := Enable(Some(PasskeyWrap([1], Junk(40))), Junk(40));
    assert !Enrolled(EmptyDb, 7, [1]);
    assert EnablesUnenrolled(EmptyDb, 7, call);
    EnableWorksIff(EmptyDb, 7, call.passkey, call.keyBlob);
    OwnershipIff(EmptyDb, 7, call);
  }

  lemma StillEnrolled(db: Db, me: Account, call: Call, i: nat)
    requires AccountInv(db) && WrapsOwned(db) && !EnablesUnenrolled(db, me, call)
    requires var after := After(db, me, call); i in after.wraps && after.wraps[i].cred.Some?
    ensures var row := After(db, me, call).wraps[i]; Enrolled(After(db, me, call), row.user, row.cred.value)
  {
    var row := After(db, me, call).wraps[i];
    WasEnrolled(db, me, call, i);
    if call.DeletePasskey? {
      DeleteKeepsEnrolled(db, me, call.id, i);
    } else {
      CallKeepsEnrolled(db, me, call, row.user, row.cred.value);
    }
  }

  /** Whoever has a passkey wrap after a call had enrolled the credential before it. */
  lemma WasEnrolled(db: Db, me: Account, call: Call, i: nat)
    requires AccountInv(db) && WrapsOwned(db) && !EnablesUnenrolled(db, me, call)
    requires var after := After(db, me, call); i in after.wraps && after.wraps[i].cred.Some?
    ensures var row := After(db, me, call).wraps[i]; Enrolled(db, row.user, row.cred.value)
  {
    match call
    case Enable(passkey, keyBlob) => EnableFilesEnrolled(db, me, passkey, keyBlob, i);
    case AddPasskeyWrap(cred, blob) => AddFilesEnrolled(db, me, cred, blob, i);
    case _ => OthersFileNoPasskey(db, me, call, i);
  }

  lemma EnableFilesEnrolled(db: Db, me: Account, passkey: Option<PasskeyWrap>, keyBlob: Blob, i: nat)
    requires AccountInv(db) && WrapsOwned(db) && !EnablesUnenrolled(db, me, Enable(passkey, keyBlob))
    requires var after := After(db, me, Enable(passkey, keyBlob)); i in after.wraps && after.wraps[i].cred.Some?
    ensures var row := After(db, me, Enable(passkey, keyBlob)).wraps[i]; Enrolled(db, row.user, row.cred.value)
  {
    EnableWorksIff(db, me, passkey, keyBlob);
  }

  lemma AddFilesEnrolled(db: Db, me: Account, cred: CredId, blob: Blob, i: nat)
    requires WrapsOwned(db)
    requires var after := After(db, me, AddPasskeyWrap(cred, blob)); i in after.wraps && after.wraps[i].cred.Some?
    ensures var row := After(db, me, AddPasskeyWrap(cred, blob)).wraps[i]; Enrolled(db, row.user, row.cred.value)
  {
    if AddRefused(db, me, cred, blob).None? { assert me in OwnerOf(db, cred); }
  }

  lemma OthersFileNoPasskey(db: Db, me: Account, call: Call, i: nat)
    requires WrapsOwned(db) && !call.Enable? && !call.AddPasskeyWrap?
    requires var after := After(db, me, call); i in after.wraps && after.wraps[i].cred.Some?
    ensures var row := After(db, me, call).wraps[i]; Enrolled(db, row.user, row.cred.value)
  {
    assert i in db.wraps && After(db, me, call).wraps[i] == db.wraps[i];
  }

  lemma CallKeepsEnrolled(db: Db, me: Account, call: Call, user: Account, cred: CredId)
    requires !call.DeletePasskey? && Enrolled(db, user, cred)
    ensures Enrolled(After(db, me, call), user, cred)
  {
    var id :| id in db.creds && db.creds[id] == Credential(user, cred);
    assert id in After(db, me, call).creds && After(db, me, call).creds[id] == Credential(user, cred);
  }

  lemma DeleteKeepsEnrolled(db: Db, me: Account, gone: nat, i: nat)
    requires AccountInv(db)
    requires var after := After(db, me, DeletePasskey(gone));
             i in after.wraps && after.wraps[i].cred.Some? && Enrolled(db, after.wraps[i].user, after.wraps[i].cred.value)
    ensures var after := After(db, me, DeletePasskey(gone));
            Enrolled(after, after.wraps[i].user, after.wraps[i].cred.value)
  {
    var after := After(db, me, DeletePasskey(gone));
    var row := after.wraps[i];
    var id :| id in db.creds && db.creds[id] == Credential(row.user, row.cred.value);
    assert id in after.creds && after.creds[id] == Credential(row.user, row.cred.value);
  }

  /** Checked once, inserted later: wraps stay owned exactly when the passkey is still enrolled by then. */
  lemma LateInsertOwnershipIff(db: Db, me: Account, cred: CredId, blob: Blob)
    requires AccountInv(db) && WrapsOwned(db)
    ensures WrapsOwned(AddInserted(db, me, cred, blob).0) <==> Enrolled(db, me, cred)
  {
    var (after, reply) := AddInserted(db, me, cred, blob);
    PasskeyInsertedIff(db, me, PasskeyWrap(cred, blob));
    if reply.Done? {
      assert after.wraps[db.nextWrap] == NewRow(me, Passkey, Some(cred), blob);
      assert forall u, c :: Enrolled(after, u, c) <==> Enrolled(db, u, c) by { SameCredentials(db, after); }
    }
  }

  lemma SameCredentials(a: Db, b: Db)
    requires a.creds == b.creds
    ensures forall u, c :: Enrolled(a, u, c) <==> Enrolled(b, u, c)
  {
    forall u, c ensures Enrolled(a, u, c) <==> Enrolled(b, u, c) {
      if id :| id in a.creds && a.creds[id] == Credential(u, c) { assert b.creds[id] == Credential(u, c); }
      if id :| id in b.creds && b.creds[id] == Credential(u, c) { assert a.creds[id] == Credential(u, c); }
    }
  }

  /** The case in point: a passkey deleted in between leaves a wrap that nobody's passkey is behind. */
  lemma LateInsertExample()
    ensures exists db: Db, cred: CredId, blob: Blob ::
      && AccountInv(db) && WrapsOwned(db) && AddRefused(db, 7, cred, blob).None?
      && var later := After(db, 7, DeletePasskey(0));
         AddInserted(later, 7, cred, blob).1 == Done && !WrapsOwned(AddInserted(later, 7, cred, blob).0)
  {
    var cred: CredId, blob := [1], Junk(40);
    var key := NewRow(7, EncryptionKey, None, blob);
    var db := Db({7}, map[0 := key], 1, map[0 := Credential(7, cred)], map[]);
    assert 0 in db.wraps && IsKeyRow(db.wraps[0], 7);
    assert db.creds[0] == Credential(7, cred);
    OwnerIsEnrolled(db, 7, cred);
    var later := After(db, 7, DeletePasskey(0));
    assert later.creds == map[] && later.wraps == db.wraps;
    assert AddInserted(later, 7, cred, blob).0.wraps[1] == NewRow(7, Passkey, Some(cred), blob);
  }
}
