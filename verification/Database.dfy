/**
 The tables as the server keeps them, updated in place. Every endpoint but one
 is one transaction: on an error the tables go back to what they were.
 */
module Database {
  import opened Base
  import opened Crypto
  import opened Accounts

  class Database {
    var encrypted: set<Account>
    var wraps: map<nat, WrapRow>
    var nextWrap: nat
    var creds: map<nat, Credential>
    var entries: map<(Account, Day), Body>

    ghost function View(): Db
      reads this
    {
      Db(encrypted, wraps, nextWrap, creds, entries)
    }

    constructor ()
      ensures View() == EmptyDb && AccountInv(View())
    {
      encrypted, wraps, nextWrap, creds, entries := {}, map[], 0, map[], map[];
    }

    /** `insert_row`: false when a unique index refuses the row. */
    method InsertRow(user: Account, kind: WrapKind, cred: Option<CredId>, blob: Blob) returns (ok: bool)
      modifies this`wraps, this`nextWrap
      ensures var r := Accounts.InsertRow(old(View()), NewRow(user, kind, cred, blob));
              ok == r.Some? && View() == if ok then r.value else old(View())
    {
      var row := NewRow(user, kind, cred, blob);
      if exists i :: i in wraps && Clash(wraps[i], row) {
        return false;
      }
      wraps := wraps[nextWrap := row];
      nextWrap := nextWrap + 1;
      ok := true;
    }

    method SetEncrypted(user: Account)
      modifies this`encrypted
      ensures View() == old(View()).(encrypted := old(encrypted) + {user})
    {
      encrypted := encrypted + {user};
    }

    method DeleteWrapForCredential(user: Account, cred: CredId)
      modifies this`wraps
      ensures View() == DeleteRowsFor(old(View()), user, cred)
    {
      wraps := map i | i in wraps && !IsFiledUnder(wraps[i], user, cred) :: wraps[i];
    }

    /** Idempotent for a given blob: the wrap already held is left alone. */
    method ReplaceEncryptionKeyWrap(user: Account, blob: Blob) returns (ok: bool)
      modifies this`wraps, this`nextWrap
      ensures var r := ReplaceKeyRow(old(View()), user, blob);
              ok == r.Some? && View() == if ok then r.value else old(View())
    {
      if exists i :: i in wraps && IsKeyRow(wraps[i], user) && wraps[i].blob == blob {
        return true;
      }
      var before := wraps;
      wraps := map i | i in wraps && !IsKeyRow(wraps[i], user) :: wraps[i];
      ok := InsertRow(user, EncryptionKey, None, blob);
      if !ok {
        wraps := before;
      }
    }

    method EncryptionEnable(me: Account, passkey: Option<PasskeyWrap>, keyBlob: Blob) returns (reply: Reply)
      requires AccountInv(View())
      modifies this
      ensures (View(), reply) == Apply(old(View()), me, Enable(passkey, keyBlob))
      ensures AccountInv(View())
    {
      EnableKeepsInv(View(), me, passkey, keyBlob);
      if BlobLen(keyBlob) != WRAPPED_KEY_LEN {
        return Refused(WrongSize);
      }
      if passkey.Some? && BlobLen(passkey.value.blob) != WRAPPED_KEY_LEN {
        return Refused(WrongSize);
      }
      if me in encrypted {
        return Refused(AlreadyEnabled);
      }
      var encrypted0, wraps0, nextWrap0 := encrypted, wraps, nextWrap;
      SetEncrypted(me);
      var ok := true;
      if passkey.Some? {
        ok := InsertRow(me, Passkey, Some(passkey.value.cred), passkey.value.blob);
      }
      if ok {
        ok := InsertRow(me, EncryptionKey, None, keyBlob);
      }
      if !ok {
        encrypted, wraps, nextWrap := encrypted0, wraps0, nextWrap0;
        return InternalError;
      }
      reply := Done;
    }

    /** The checks; there is no transaction around them and the insert. */
    method AddPasskeyWrapChecks(me: Account, cred: CredId, blob: Blob) returns (refused: Option<Refusal>)
      ensures refused == AddRefused(View(), me, cred, blob)
      ensures AccountInv(View()) && refused.None? ==> Enrolled(View(), me, cred) && me in encrypted
    {
      if AccountInv(View()) { OwnerIsEnrolled(View(), me, cred); }
      if BlobLen(blob) != WRAPPED_KEY_LEN {
        return Some(WrongSize);
      }
      var owner := set id | id in creds && creds[id].cred == cred :: creds[id].user;
      if owner != {me} {
        return Some(NotYourPasskey);
      }
      if me !in encrypted {
        return Some(NotEncrypted);
      }
      if exists i :: i in wraps && IsFiledUnder(wraps[i], me, cred) {
        return Some(AlreadyKeyed);
      }
      refused := None;
    }

    /** The insert, whatever has happened since the checks. */
    method AddPasskeyWrapInsert(me: Account, cred: CredId, blob: Blob) returns (reply: Reply)
      requires AccountInv(View()) && BlobLen(blob) == WRAPPED_KEY_LEN
      modifies this`wraps, this`nextWrap
      ensures (View(), reply) == AddInserted(old(View()), me, cred, blob)
      ensures AccountInv(View())
    {
      LateInsertKeepsInv(View(), me, cred, blob);
      var ok := InsertRow(me, Passkey, Some(cred), blob);
      reply := if ok then Done else InternalError;
    }

    /** Checks, then the insert, with whatever the server serves between the two. */
    method EncryptionAddPasskeyWrap(me: Account, cred: CredId, blob: Blob, meanwhile: seq<(Account, Call)>)
      returns (reply: Reply)
      requires AccountInv(View())
      modifies this
      ensures (View(), reply) ==
        match AddRefused(old(View()), me, cred, blob)
        case Some(why) => (old(View()), Refused(why))
        case None => AddInserted(AfterAll(old(View()), meanwhile), me, cred, blob)
      ensures AccountInv(View())
    {
      var refused := AddPasskeyWrapChecks(me, cred, blob);
      if refused.Some? {
        return Refused(refused.value);
      }
      ServeAll(meanwhile);
      reply := AddPasskeyWrapInsert(me, cred, blob);
    }

    /** One request. */
    method Serve(me: Account, call: Call) returns (reply: Reply)
      requires AccountInv(View())
      modifies this
      ensures (View(), reply) == Apply(old(View()), me, call)
      ensures AccountInv(View())
    {
      match call
      case Enable(passkey, keyBlob) => reply := EncryptionEnable(me, passkey, keyBlob);
      case AddPasskeyWrap(cred, blob) =>
        var refused := AddPasskeyWrapChecks(me, cred, blob);
        if refused.Some? {
          return Refused(refused.value);
        }
        reply := AddPasskeyWrapInsert(me, cred, blob);
      case ReplaceKeyWrap(blob) => reply := EncryptionReplaceKeyWrap(me, blob);
      case RegisterPasskey(id, cred) => reply := PasskeyRegisterFinish(me, id, cred);
      case DeletePasskey(id) => reply := PasskeyDelete(me, id);
      case SaveEntry(day, body, size) => reply := EntrySave(me, day, body, size);
    }

    method ServeAll(calls: seq<(Account, Call)>)
      requires AccountInv(View())
      modifies this
      ensures View() == AfterAll(old(View()), calls)
      ensures AccountInv(View())
    {
      for i := 0 to |calls|
        invariant AccountInv(View())
        invariant AfterAll(View(), calls[i..]) == AfterAll(old(View()), calls)
      {
        assert calls[i..][1..] == calls[i + 1..];
        var reply := Serve(calls[i].0, calls[i].1);
      }
    }

    method EncryptionReplaceKeyWrap(me: Account, blob: Blob) returns (reply: Reply)
      requires AccountInv(View())
      modifies this`wraps, this`nextWrap
      ensures (View(), reply) == Apply(old(View()), me, ReplaceKeyWrap(blob))
      ensures AccountInv(View())
    {
      ReplaceKeepsInv(View(), me, blob);
      if BlobLen(blob) != WRAPPED_KEY_LEN {
        return Refused(WrongSize);
      }
      var ok := ReplaceEncryptionKeyWrap(me, blob);
      reply := if ok then Done else InternalError;
    }

    method PasskeyRegisterFinish(me: Account, id: nat, cred: CredId) returns (reply: Reply)
      requires AccountInv(View())
      modifies this`creds
      ensures (View(), reply) == Apply(old(View()), me, RegisterPasskey(id, cred))
      ensures AccountInv(View())
    {
      CallKeepsInv(View(), me, RegisterPasskey(id, cred));
      var owner := set k | k in creds && creds[k].cred == cred :: creds[k].user;
      if id in creds || owner != {} {
        return InternalError;
      }
      creds := creds[id := Credential(me, cred)];
      reply := Done;
    }

    /** Never takes an encrypted account's only way in by passkey. */
    method PasskeyDelete(me: Account, id: nat) returns (reply: Reply)
      requires AccountInv(View())
      modifies this`creds, this`wraps
      ensures (View(), reply) == Apply(old(View()), me, DeletePasskey(id))
      ensures AccountInv(View())
    {
      DeleteKeepsInv(View(), me, id);
      if id !in creds || creds[id].user != me {
        return Refused(NoSuchPasskey);
      }
      var cred := creds[id].cred;
      var thisHasWrap := exists i :: i in wraps && IsPasskeyRow(wraps[i], me) && wraps[i].cred == Some(cred);
      var passkeyWraps := set i | i in wraps && IsPasskeyRow(wraps[i], me);
      assert passkeyWraps == PasskeyRowIds(View(), me);
      if me in encrypted && thisHasWrap && |passkeyWraps| <= 1 {
        return Refused(LastRoute);
      }
      creds := creds - {id};
      DeleteWrapForCredential(me, cred);
      reply := Done;
    }

    method EntrySave(me: Account, day: Day, body: Body, size: nat) returns (reply: Reply)
      requires AccountInv(View())
      modifies this`entries
      ensures (View(), reply) == Apply(old(View()), me, SaveEntry(day, body, size))
      ensures AccountInv(View())
    {
      CallKeepsInv(View(), me, SaveEntry(day, body, size));
      if size > MAX_BODY_BYTES {
        return Refused(TooLarge);
      }
      if me !in encrypted {
        return Refused(SetUpEncryption);
      }
      entries := entries[(me, day) := body];
      reply := Done;
    }
  }
}
