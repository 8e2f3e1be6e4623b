/**
 Re-issuing an encryption key and turning encryption on, over a network that
 may lose a request, lose its reply, or deliver copies late.
 */
module LostMessages {
  import opened Base
  import opened Crypto
  import opened Accounts
  import opened Ceremonies
  import opened Database

  /** What became of one call. The caller hears nothing in the first two cases. */
  datatype Fate = RequestLost | ReplyLost | Answered

  type Calls = seq<(Account, Call)>

  /** The account has exactly one encryption-key wrap, and it is `blob`. */
  ghost predicate KeyIs(db: Db, user: Account, blob: Blob) {
    exists i :: KeyRowIs(db, user, i, blob)
  }

  ghost predicate KeyRowIs(db: Db, user: Account, i: nat, blob: Blob) {
    && i in db.wraps && IsKeyRow(db.wraps[i], user) && db.wraps[i].blob == blob
    && forall j :: j in db.wraps && IsKeyRow(db.wraps[j], user) ==> j == i
  }

  // -------------------------------------------------------------- re-issue

  function Attempt(db: Db, me: Account, blob: Blob, fate: Fate): (Db, bool) {
    if fate.RequestLost? then (db, false)
    else (After(db, me, ReplaceKeyWrap(blob)), fate.Answered? && Answer(db, me, ReplaceKeyWrap(blob)).Done?)
  }

  /** Two attempts at the same bytes, with whatever else the server does between them. */
  function TwoAttempts(db: Db, me: Account, blob: Blob, first: Fate, between: Calls, second: Fate): (Db, bool) {
    var (db1, ok) := Attempt(db, me, blob, first);
    if ok then (db1, true) else Attempt(AfterAll(db1, between), me, blob, second)
  }

  method SendReplace(server: Database, me: Account, blob: Blob, fate: Fate) returns (ok: bool)
    requires AccountInv(server.View())
    modifies server
    ensures (server.View(), ok) == Attempt(old(server.View()), me, blob, fate)
    ensures AccountInv(server.View())
  {
    if fate.RequestLost? {
      return false;
    }
    var reply := server.EncryptionReplaceKeyWrap(me, blob);
    ok := fate.Answered? && reply.Done?;
  }

  /** `store_encryption_key_wrap`: one retry, then the wrap is declared unconfirmed. */
  method StoreEncryptionKeyWrap(server: Database, me: Account, blob: Blob, first: Fate, second: Fate) returns (ok: bool)
    requires AccountInv(server.View())
    modifies server
    ensures (server.View(), ok) == TwoAttempts(old(server.View()), me, blob, first, [], second)
    ensures AccountInv(server.View())
  {
    ok := SendReplace(server, me, blob, first);
    if !ok {
      ok := SendReplace(server, me, blob, second);
    }
  }

  /** Nobody re-issues this account's key to anything but `blob`. */
  ghost predicate OnlyReissuer(calls: Calls, me: Account, blob: Blob) {
    forall c :: c in calls && c.0 == me && c.1.ReplaceKeyWrap? ==> c.1.blob == blob
  }

  predicate Replaces(calls: Calls, me: Account, blob: Blob) {
    (me, ReplaceKeyWrap(blob)) in calls
  }

  lemma ReplaceSets(db: Db, me: Account, blob: Blob)
    requires AccountInv(db) && BlobLen(blob) == WRAPPED_KEY_LEN
    ensures Answer(db, me, ReplaceKeyWrap(blob)) == Done && KeyIs(After(db, me, ReplaceKeyWrap(blob)), me, blob)
  {
    var after := After(db, me, ReplaceKeyWrap(blob));
    var cleared, row := DeleteKeyRows(db, me), NewRow(me, EncryptionKey, None, blob);
    if HoldsKeyBlob(db, me, blob) {
      var i :| i in db.wraps && IsKeyRow(db.wraps[i], me) && db.wraps[i].blob == blob;
      assert forall j :: j in db.wraps && j != i ==> !Clash(db.wraps[i], db.wraps[j]);
      assert KeyRowIs(after, me, i, blob);
    } else {
      assert InsertRow(cleared, row).Some?;
      assert KeyRowIs(after, me, db.nextWrap, blob);
    }
  }

  /** Nothing but a re-issue by its owner touches an account's key wrap. */
  lemma OthersKeepKey(db: Db, user: Account, who: Account, call: Call, kept: Blob)
    requires AccountInv(db) && KeyIs(db, user, kept) && !(who == user && call.ReplaceKeyWrap?)
    ensures KeyIs(After(db, who, call), user, kept)
  {
    var i :| KeyRowIs(db, user, i, kept);
    var after := After(db, who, call);
    if call.Enable? { EnableWorksIff(db, who, call.passkey, call.keyBlob); }
    if call.Enable? && who == user {
      assert HasKeyRow(db, user);
    } else {
      assert KeyRowIs(after, user, i, kept);
    }
  }

  /** After any traffic at all, the key wrap is `blob` if a copy of ours was executed, and untouched if not. */
  lemma {:induction false} KeyAfterTraffic(db: Db, me: Account, blob: Blob, kept: Blob, calls: Calls)
    requires AccountInv(db) && KeyIs(db, me, kept) && BlobLen(blob) == WRAPPED_KEY_LEN && OnlyReissuer(calls, me, blob)
    ensures AccountInv(AfterAll(db, calls))
    ensures KeyIs(AfterAll(db, calls), me, if Replaces(calls, me, blob) then blob else kept)
    decreases |calls|
  {
    if calls != [] {
      var (who, call) := calls[0];
      var next := After(db, who, call);
      CallKeepsInv(db, who, call);
      assert calls == [calls[0]] + calls[1..];
      if who == me && call.ReplaceKeyWrap? {
        ReplaceSets(db, me, blob);
        KeyAfterTraffic(next, me, blob, blob, calls[1..]);
      } else {
        OthersKeepKey(db, me, who, call, kept);
        KeyAfterTraffic(next, me, blob, kept, calls[1..]);
      }
    }
  }

  lemma AttemptSets(db: Db, me: Account, blob: Blob, kept: Blob, fate: Fate)
    requires AccountInv(db) && KeyIs(db, me, kept) && BlobLen(blob) == WRAPPED_KEY_LEN
    ensures var (after, ok) := Attempt(db, me, blob, fate);
      && AccountInv(after) && ok == fate.Answered?
      && KeyIs(after, me, if fate.RequestLost? then kept else blob)
  {
    ReplaceSets(db, me, blob);
    ReplaceKeepsInv(db, me, blob);
  }

  /**
   Success means the stored wrap is the one whose key is about to be shown;
   unconfirmed means it is that one or the old one. Copies of either attempt
   may be delivered at any time, and anybody may do anything else meanwhile.
   */
  lemma ReissueSurvivesLoss(db: Db, me: Account, kept: Blob, blob: Blob, first: Fate, between: Calls, second: Fate, late: Calls)
    requires AccountInv(db) && KeyIs(db, me, kept) && BlobLen(blob) == WRAPPED_KEY_LEN
    requires OnlyReissuer(between, me, blob) && OnlyReissuer(late, me, blob)
    ensures var (stored, ok) := TwoAttempts(db, me, blob, first, between, second);
      var end := AfterAll(stored, late);
      && (ok <==> first.Answered? || second.Answered?)
      && (ok ==> KeyIs(end, me, blob))
      && (KeyIs(end, me, kept) || KeyIs(end, me, blob))
      && (first.RequestLost? && second.RequestLost? && !Replaces(between, me, blob) && !Replaces(late, me, blob) ==>
            KeyIs(end, me, kept))
  {
    AttemptSets(db, me, blob, kept, first);
    var db1 := Attempt(db, me, blob, first).0;
    var kept1 := if first.RequestLost? then kept else blob;
    if first.Answered? {
      KeyAfterTraffic(db1, me, blob, blob, late);
    } else {
      KeyAfterTraffic(db1, me, blob, kept1, between);
      var kept2 := if Replaces(between, me, blob) then blob else kept1;
      var db2 := AfterAll(db1, between);
      AttemptSets(db2, me, blob, kept2, second);
      KeyAfterTraffic(Attempt(db2, me, blob, second).0, me, blob, if second.RequestLost? then kept2 else blob, late);
    }
  }

  /** And the user is not locked out: one of the two keys in their hands opens the account. */
  lemma OneOfTheKeysOpens(db: Db, me: Account, existing: OpenedRoute, minted: Bytes,
                          first: Fate, between: Calls, second: Fate, late: Calls, i: nat)
    requires existing.KeyRoute? && |minted| == Ceremonies.Codec.KEY_BYTES && OpenWrap(existing).Ok?
    requires AccountInv(db) && KeyIs(db, me, existing.wrap)
    requires ReissueKey(existing, minted).Ok?
    requires var wrap := ReissueKey(existing, minted).value.wrap; OnlyReissuer(between, me, wrap) && OnlyReissuer(late, me, wrap)
    requires var end := AfterAll(TwoAttempts(db, me, ReissueKey(existing, minted).value.wrap, first, between, second).0, late);
             i in end.wraps && IsKeyRow(end.wraps[i], me)
    ensures var issued := ReissueKey(existing, minted).value;
      var (stored, ok) := TwoAttempts(db, me, issued.wrap, first, between, second);
      var blob := AfterAll(stored, late).wraps[i].blob;
      && (ok ==> OpenWrap(KeyRoute(issued.shown, blob)) == OpenWrap(existing))
      && (|| OpenWrap(KeyRoute(issued.shown, blob)) == OpenWrap(existing)
          || OpenWrap(KeyRoute(existing.text, blob)) == OpenWrap(existing))
  {
    var r := ReissueKey(existing, minted).value;
    ReissueSurvivesLoss(db, me, existing.wrap, r.wrap, first, between, second, late);
    ShownKeyOpens(existing, minted, r.shown);
  }

  // ---------------------------------------------------------------- enable

  /** The passkey of an enable, if it has one, is filed with the very wrap that was sent. */
  ghost predicate PasskeyFiled(db: Db, me: Account, passkey: Option<PasskeyWrap>) {
    passkey.Some? ==>
      exists i :: i in db.wraps && db.wraps[i] == NewRow(me, Passkey, Some(passkey.value.cred), passkey.value.blob)
  }

  datatype EnableFailure = ServerRefused(reply: Reply) | Silence

  /** `commit_enable`: a server refusal and silence are told apart. */
  method CommitEnable(server: Database, me: Account, pending: Enabled, fate: Fate)
    returns (outcome: Result<Dek, EnableFailure>)
    requires AccountInv(server.View())
    modifies server
    ensures AccountInv(server.View())
    ensures outcome.Ok? ==>
      && outcome.value == pending.dek && fate.Answered?
      && me !in old(server.View()).encrypted && me in server.View().encrypted
      && KeyIs(server.View(), me, pending.keyWrap) && PasskeyFiled(server.View(), me, pending.passkeyWrap)
    ensures outcome.Err? && outcome.error.ServerRefused? ==> server.View() == old(server.View()) && outcome.error.reply != Done
    ensures outcome.Err? && outcome.error.Silence? ==>
              || server.View() == old(server.View())
              || (KeyIs(server.View(), me, pending.keyWrap) && PasskeyFiled(server.View(), me, pending.passkeyWrap))
  {
    if fate.RequestLost? {
      return Err(Silence);
    }
    EnableSets(server.View(), me, pending.passkeyWrap, pending.keyWrap);
    var reply := server.EncryptionEnable(me, pending.passkeyWrap, pending.keyWrap);
    if fate.ReplyLost? {
      return Err(Silence);
    }
    outcome := if reply.Done? then Ok(pending.dek) else Err(ServerRefused(reply));
  }

  lemma EnableSets(db: Db, me: Account, passkey: Option<PasskeyWrap>, keyBlob: Blob)
    requires AccountInv(db)
    ensures var call := Enable(passkey, keyBlob);
            if Answer(db, me, call).Done? then
              && me !in db.encrypted && me in After(db, me, call).encrypted && KeyIs(After(db, me, call), me, keyBlob)
              && PasskeyFiled(After(db, me, call), me, passkey)
            else After(db, me, call) == db
  {
    var call := Enable(passkey, keyBlob);
    EnableWorksIff(db, me, passkey, keyBlob);
    if Answer(db, me, call).Done? {
      EnableKeyRow(db, me, passkey, keyBlob);
      EnablePasskeyRow(db, me, passkey, keyBlob);
    }
  }

  lemma EnablePasskeyRow(db: Db, me: Account, passkey: Option<PasskeyWrap>, keyBlob: Blob)
    requires Answer(db, me, Enable(passkey, keyBlob)).Done?
    ensures PasskeyFiled(After(db, me, Enable(passkey, keyBlob)), me, passkey)
  {
    if passkey.Some? {
      assert After(db, me, Enable(passkey, keyBlob)).wraps[db.nextWrap]
          == NewRow(me, Passkey, Some(passkey.value.cred), passkey.value.blob);
    }
  }

  lemma EnableKeyRow(db: Db, me: Account, passkey: Option<PasskeyWrap>, keyBlob: Blob)
    requires !HasKeyRow(db, me) && Answer(db, me, Enable(passkey, keyBlob)).Done?
    ensures KeyIs(After(db, me, Enable(passkey, keyBlob)), me, keyBlob)
  {
    var after := After(db, me, Enable(passkey, keyBlob));
    var i := if passkey.Some? then db.nextWrap + 1 else db.nextWrap;
    assert KeyRowIs(after, me, i, keyBlob);
  }

  /** Not encrypted, and nothing filed for it. */
  ghost predicate Untouched(db: Db, user: Account) {
    user !in db.encrypted && forall i :: i in db.wraps ==> db.wraps[i].user != user
  }

  /** The only enable this account sends is this one, and nobody re-issues its key. */
  ghost predicate OnlyEnabler(calls: Calls, me: Account, call: Call) {
    forall c :: c in calls && c.0 == me ==> !c.1.ReplaceKeyWrap? && (c.1.Enable? ==> c.1 == call)
  }

  predicate RightSizes(call: Call) {
    && call.Enable? && BlobLen(call.keyBlob) == WRAPPED_KEY_LEN
    && (call.passkey.Some? ==> BlobLen(call.passkey.value.blob) == WRAPPED_KEY_LEN)
  }

  lemma OthersLeaveUntouched(db: Db, user: Account, who: Account, call: Call)
    requires Untouched(db, user) && !(who == user && (call.Enable? || call.ReplaceKeyWrap?))
    ensures Untouched(After(db, who, call), user)
  {}

  /** Whatever is lost, late or repeated: encrypted under the key that was shown, or as if nothing had been sent. */
  lemma {:induction false} EnableSurvivesLoss(db: Db, me: Account, call: Call, calls: Calls)
    requires AccountInv(db) && RightSizes(call) && OnlyEnabler(calls, me, call)
    requires Untouched(db, me) || (me in db.encrypted && KeyIs(db, me, call.keyBlob))
    ensures var end := AfterAll(db, calls);
      if Untouched(db, me) && (me, call) !in calls then Untouched(end, me)
      else me in end.encrypted && KeyIs(end, me, call.keyBlob)
    decreases |calls|
  {
    if calls != [] {
      var (who, c) := calls[0];
      var next := After(db, who, c);
      CallKeepsInv(db, who, c);
      assert calls == [calls[0]] + calls[1..];
      if !Untouched(db, me) {
        OthersKeepKey(db, me, who, c, call.keyBlob);
        EncryptionIsNeverUndone(db, me, who, c);
      } else if who == me && c == call {
        EnableWorksIff(db, me, call.passkey, call.keyBlob);
        EnableSets(db, me, call.passkey, call.keyBlob);
      } else {
        OthersLeaveUntouched(db, me, who, c);
      }
      EnableSurvivesLoss(next, me, call, calls[1..]);
    }
  }

  /** The key shown before the call is then the account's: it opens the stored wrap. */
  lemma ShownKeyIsTheAccounts(db: Db, me: Account, cred: Option<CredId>, dek: Dek, minted: Bytes, calls: Calls, i: nat)
    requires |minted| == Ceremonies.Codec.KEY_BYTES && AccountInv(db) && Untouched(db, me)
    requires var e := EnableWith(cred, dek, minted);
             OnlyEnabler(calls, me, Enable(e.passkeyWrap, e.keyWrap))
    requires i in AfterAll(db, calls).wraps && IsKeyRow(AfterAll(db, calls).wraps[i], me)
    ensures OpenWrap(KeyRoute(EnableWith(cred, dek, minted).shown, AfterAll(db, calls).wraps[i].blob)) == Ok(dek)
  {
    var e := EnableWith(cred, dek, minted);
    EnableSurvivesLoss(db, me, Enable(e.passkeyWrap, e.keyWrap), calls);
    EnabledKeyOpens(cred, dek, minted);
  }
}
