/**
 The value behind the text area: a load races keystrokes for it, and one
 counter decides who may publish.
 */
module Hook {
  import opened Base
  import opened Crypto
  import opened Accounts
  import opened EncryptionState
  import opened EncryptionCtx

  /** What the loading effect depends on. */
  datatype Inputs = Inputs(day: Day, backend: Backend, identity: KeyIdentity)

  /** What came back from the store for a day: nothing usable, or what is filed there. */
  datatype Fetched = Unavailable | Row(body: Option<Body>)

  datatype Loaded = Value(text: string) | WasSealed | WasUnopenable

  /** Version dispatch, then the key: the reading half of the storage seam. */
  function LoadedValue(fetched: Fetched, key: Option<SessionKey>): (r: Loaded)
    ensures r.WasSealed? ==> key.None?
    ensures r.WasUnopenable? ==> key.Some?
  {
    match fetched
    case Unavailable => Value("")
    case Row(None) => Value("")
    case Row(Some(Plain(text))) => Value(text)
    case Row(Some(Sealed(dek, text))) =>
      if key.None? then WasSealed
      else if key.value.dek == dek then Value(text)
      else WasUnopenable
  }

  /** A body sealed under the load's own key, or not sealed at all, loads as exactly its text. */
  lemma LoadsItsText(text: string, key: SessionKey)
    ensures LoadedValue(Row(Some(Sealed(key.dek, text))), Some(key)) == Value(text)
    ensures forall k: Option<SessionKey> :: LoadedValue(Row(Some(Plain(text))), k) == Value(text)
  {}

  /** A day with no row, and one that could not be read at all, load as empty; nothing else loads as a text it has not. */
  lemma LoadsTextIff(fetched: Fetched, key: Option<SessionKey>, text: string)
    ensures LoadedValue(fetched, key) == Value(text) <==>
      || (text == "" && (fetched == Unavailable || fetched == Row(None)))
      || fetched == Row(Some(Plain(text)))
      || (key.Some? && fetched == Row(Some(Sealed(key.value.dek, text))))
    ensures LoadedValue(fetched, key) == WasSealed <==>
            key.None? && fetched.Row? && fetched.body.Some? && fetched.body.value.Sealed?
  {}

  /** Rows of a week are missing because a row is sealed and there was no key ... */
  predicate AnySealed(bodies: seq<Body>, key: Option<SessionKey>) {
    exists b :: b in bodies && LoadedValue(Row(Some(b)), key).WasSealed?
  }

  /** ... or because there was a key and it did not fit a row. */
  predicate AnyUnopenable(bodies: seq<Body>, key: Option<SessionKey>) {
    exists b :: b in bodies && LoadedValue(Row(Some(b)), key).WasUnopenable?
  }

  /** A week is short of the sealed rows if there is no key, and of those under another key if there is one. */
  lemma WeekIsShortIff(bodies: seq<Body>, key: Option<SessionKey>)
    ensures AnySealed(bodies, key) <==> key.None? && exists b :: b in bodies && b.Sealed?
    ensures AnyUnopenable(bodies, key) <==> key.Some? && exists b :: b in bodies && b.Sealed? && b.dek != key.value.dek
  {
    if b :| b in bodies && b.Sealed? && (key.None? || b.dek != key.value.dek) {
      assert !LoadedValue(Row(Some(b)), key).Value?;
    }
  }

  datatype HookState = HookState(value: Option<string>, generation: nat) {

    function Typed(text: string): HookState {
      HookState(Some(text), generation + 1)
    }

    function Reran(): HookState {
      HookState(None, generation + 1)
    }

    /** What a finished load publishes; an unopenable row shows empty unless a re-probe began. */
    function Finished(token: nat, loaded: Loaded, reprobing: bool): HookState {
      if token != generation then this
      else
        match loaded
        case Value(text) => this.(value := Some(text))
        case WasSealed => this
        case WasUnopenable => if reprobing then this else this.(value := Some(""))
    }
  }

  class Persistent {
    var value: Option<string>
    var generation: nat
    const encryption: EncryptionCtx

    ghost function View(): HookState
      reads this
    {
      HookState(value, generation)
    }

    constructor UsePersistent(encryption: EncryptionCtx)
      ensures this.encryption == encryption && View() == HookState(None, 0)
    {
      this.encryption := encryption;
      value, generation := None, 0;
    }

    method BeginOperation() returns (token: nat)
      modifies this`generation
      ensures generation == old(generation) + 1 && token == generation
    {
      generation := generation + 1;
      token := generation;
    }

    /** Shows the text at once and says what the save will do. */
    method Set(text: string, backend: Backend) returns (target: Result<WriteTarget, StorageError>)
      modifies this
      ensures View() == old(View()).Typed(text)
      ensures target == TargetOf(backend, WriteKeyOf(encryption.state))
    {
      var _ := BeginOperation();
      value := Some(text);
      target := TargetOf(backend, WriteKeyOf(encryption.state));
    }

    /** The loading effect, up to the spawn: the token and the key the load will use. */
    method RunEffect() returns (token: nat, key: Option<SessionKey>)
      modifies this
      ensures View() == old(View()).Reran() && token == generation
      ensures key == KeyOf(encryption.state)
    {
      key := KeyOf(encryption.state);
      token := BeginOperation();
      value := None;
    }

    /** The load's far side. Reports what the row says about the session, if anything. */
    method LoadFinished(token: nat, loaded: Loaded) returns (spawn: Option<nat>)
      requires this as object != encryption && this as object != encryption.auth
      modifies this`value, encryption
      ensures old(generation) != token ==>
        View() == old(View()) && encryption.View() == old(encryption.View()) && spawn.None?
      ensures old(generation) == token ==>
        && encryption.View() == (match loaded
             case Value(_) => old(encryption.View())
             case WasSealed => old(encryption.View()).AfterRow(encryption.auth.user, SealedRow)
             case WasUnopenable => old(encryption.View()).AfterRow(encryption.auth.user, UnopenableRow))
        && View() == old(View()).Finished(token, loaded, old(encryption.View()).StartsReprobe(UnopenableRow))
    {
      if generation != token {
        return None;
      }
      match loaded
      case Value(text) =>
        value := Some(text);
        spawn := None;
      case WasSealed =>
        spawn := encryption.SealedRowSeen();
      case WasUnopenable =>
        var started;
        started, spawn := encryption.UnopenableRowSeen();
        if !started {
          value := Some("");
        }
    }
  }
}
