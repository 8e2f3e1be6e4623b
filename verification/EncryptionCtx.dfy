/**
 The context every component reads: one state, one generation counter that
 arbitrates who may publish it, and the latch that lets unopenable rows start
 one more probe and no further ones. The asynchronous methods are cut at their awaits.
 */
module EncryptionCtx {
  import opened Base
  import opened Accounts
  import opened EncryptionState

  /** The context as a value: what the methods below are specified on. */
  datatype Ctx = Ctx(state: State, keys: nat, generation: nat, reprobed: bool) {

    /** A token has been taken; it is the new generation. */
    function Begun(): Ctx {
      this.(generation := generation + 1)
    }

    function Published(s: State): Ctx {
      this.(keys := if s.Unlocked? then keys + 1 else keys, state := s)
    }

    /** What starting a probe does at once; one is in flight only for a signed-in user. */
    function Probing(user: Option<Account>, meanwhile: State): Ctx {
      Begun().Published(if user.None? then Disabled else meanwhile)
    }

    /** Only the holder of the newest token may publish. */
    function Landed(token: nat, s: State): Ctx {
      if token == generation then Published(s) else this
    }

    predicate StartsReprobe(row: UnreadableRow) {
      ContradictedBy(row, state).Some? && (row.UnopenableRow? ==> !reprobed)
    }

    function AfterRow(user: Option<Account>, row: UnreadableRow): Ctx {
      if !StartsReprobe(row) then this
      else this.(reprobed := reprobed || row.UnopenableRow?).Probing(user, ContradictedBy(row, state).value)
    }

    function Identity(): KeyIdentity {
      IdentityOf(KeyOf(state).Some?, keys)
    }
  }

  function InitialCtx(user: Option<Account>): Ctx {
    Ctx(InitialState(user), 0, 0, false)
  }

  /**
   What an unreadable row makes of a signed-in page: a sealed one stops
   a page that took its account for unencrypted from writing, an unopenable one
   drops the key, once; anything else is no news.
   */
  lemma UnreadableRowIs(c: Ctx, user: Account)
    ensures c.AfterRow(Some(user), SealedRow) ==
            if c.state == Disabled then Ctx(Locked, c.keys, c.generation + 1, c.reprobed) else c
    ensures c.AfterRow(Some(user), UnopenableRow) ==
            if c.state.Unlocked? && !c.reprobed then Ctx(Unknown, c.keys, c.generation + 1, true) else c
  {}

  class AuthCtx {
    var user: Option<Account>

    constructor (user: Option<Account>)
      ensures this.user == user
    {
      this.user := user;
    }

    /** The end of `sign_out`: only an answered logout clears the user. */
    method LogoutAnswered(ok: bool)
      modifies this
      ensures user == if ok then None else old(user)
    {
      if ok {
        user := None;
      }
    }
  }

  class EncryptionCtx {
    var state: State
    var keys: nat
    const auth: AuthCtx
    var generation: nat
    var reprobed: bool

    ghost function View(): Ctx
      reads this
    {
      Ctx(state, keys, generation, reprobed)
    }

    constructor Probing(auth: AuthCtx)
      ensures this.auth == auth && View() == InitialCtx(auth.user)
    {
      this.auth := auth;
      state := InitialState(auth.user);
      keys, generation, reprobed := 0, 0, false;
    }

    method BeginProbe() returns (token: nat)
      modifies this`generation
      ensures View() == old(View()).Begun() && token == generation
    {
      generation := generation + 1;
      token := generation;
    }

    method MayPublish(token: nat) returns (yes: bool)
      ensures yes <==> token == generation
    {
      yes := generation == token;
    }

    method SigningOut()
      modifies this`generation
      ensures View() == old(View()).Begun()
    {
      var _ := BeginProbe();
    }

    /** The one place the state is written; a new key gets an identity of its own. */
    method Publish(state: State)
      modifies this`state, this`keys
      ensures View() == old(View()).Published(state)
      ensures state.Unlocked? ==> View().Identity() != old(View()).Identity()
    {
      if state.Unlocked? {
        keys := keys + 1;
      }
      this.state := state;
    }

    /** Up to the spawn: the token to spawn a probe with, when there is one to spawn. */
    method StartProbe(user: Option<Account>, meanwhile: State) returns (spawn: Option<nat>)
      modifies this
      ensures View() == old(View()).Probing(user, meanwhile)
      ensures spawn == if user.Some? then Some(generation) else None
    {
      var token := BeginProbe();
      if user.None? {
        Publish(Disabled);
        return None;
      }
      Publish(meanwhile);
      spawn := Some(token);
    }

    /** The far side of the probe's awaits. */
    method ProbeAnswered(token: nat, probed: State)
      modifies this`state, this`keys
      ensures View() == old(View()).Landed(token, probed)
    {
      var current := MayPublish(token);
      if current {
        Publish(probed);
      }
    }

    method Retry() returns (spawn: Option<nat>)
      modifies this
      ensures View() == old(View()).Probing(auth.user, Unknown)
      ensures spawn == if auth.user.Some? then Some(generation) else None
    {
      spawn := StartProbe(auth.user, Unknown);
    }

    method ClaimReprobe() returns (first: bool)
      modifies this`reprobed
      ensures first == !old(reprobed) && reprobed
    {
      first := !reprobed;
      reprobed := true;
    }

    method Reprobe(row: UnreadableRow) returns (started: bool, spawn: Option<nat>)
      modifies this
      ensures View() == old(View()).AfterRow(auth.user, row)
      ensures started == old(View()).StartsReprobe(row)
      ensures spawn == if started && auth.user.Some? then Some(generation) else None
    {
      var meanwhile := ContradictedBy(row, state);
      if meanwhile.None? {
        return false, None;
      }
      if row.UnopenableRow? {
        var first := ClaimReprobe();
        if !first {
          return false, None;
        }
      }
      spawn := StartProbe(auth.user, meanwhile.value);
      started := true;
    }

    method SealedRowSeen() returns (spawn: Option<nat>)
      modifies this
      ensures View() == old(View()).AfterRow(auth.user, SealedRow)
    {
      var _, s := Reprobe(SealedRow);
      spawn := s;
    }

    method UnopenableRowSeen() returns (started: bool, spawn: Option<nat>)
      modifies this
      ensures View() == old(View()).AfterRow(auth.user, UnopenableRow)
      ensures started == old(View()).StartsReprobe(UnopenableRow)
    {
      started, spawn := Reprobe(UnopenableRow);
    }

    method IsCurrentAccount(key: SessionKey) returns (yes: bool)
      ensures yes <==> auth.user == Some(key.user)
    {
      yes := auth.user == Some(key.user);
    }

    /** `unlock`, up to the keystore write: refused, or parked at `Locked` under a new token. */
    method UnlockStart(key: SessionKey) returns (token: Option<nat>)
      modifies this
      ensures auth.user != Some(key.user) ==> token.None? && View() == old(View())
      ensures auth.user == Some(key.user) ==>
        token == Some(generation) && View() == old(View()).Begun().Published(Locked)
    {
      var mine := IsCurrentAccount(key);
      if !mine {
        return None;
      }
      var t := BeginProbe();
      Publish(Locked);
      token := Some(t);
    }

    /** `unlock`, after the write: true when what was written must be forgotten again. */
    method UnlockFinish(key: SessionKey, token: nat) returns (forget: bool)
      modifies this`state, this`keys
      ensures forget <==> auth.user != Some(key.user)
      ensures View() == if forget then old(View()) else old(View()).Landed(token, Unlocked(key))
    {
      var mine := IsCurrentAccount(key);
      if !mine {
        return true;
      }
      var current := MayPublish(token);
      if current {
        Publish(Unlocked(key));
      }
      forget := false;
    }

    /** `lock`, up to the keystore clear. */
    method LockStart()
      modifies this
      ensures View() == old(View()).Begun().Published(Locked)
    {
      var _ := BeginProbe();
      Publish(Locked);
    }
  }
}
