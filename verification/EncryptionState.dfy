/**
 What a tab believes about the account's encryption, and every decision that
 follows from the belief alone.
 */
module EncryptionState {
  import opened Base
  import opened Crypto
  import opened Accounts

  /** An unlocked data key: whose it is, and the forget count its ceremony began under. */
  datatype SessionKey = SessionKey(dek: Dek, user: Account, forgets: nat)

  datatype State = Unknown | Unreachable | Disabled | Locked | Unlocked(key: SessionKey)

  datatype Backend = Local | Remote

  datatype WriteKey = Plaintext | SealWith(key: SessionKey) | NoWriting

  datatype Writes = Accepted | Refuses | SetupRequired

  datatype WriteTarget = ToLocal | ToRemote(key: SessionKey)

  datatype StorageError = LockedOut | EncryptionRequired

  datatype KeyIdentity = NoKey | Key(n: nat)

  datatype UnreadableRow = SealedRow | UnopenableRow

  datatype ProbeAnswer = WrongAccount | NotEncryptedAccount | NeedsKey

  function InitialState(user: Option<Account>): State {
    if user.Some? then Unknown else Disabled
  }

  function BackendOf(user: Option<Account>): Backend {
    if user.Some? then Remote else Local
  }

  function KeyOf(state: State): Option<SessionKey> {
    match state
    case Unlocked(key) => Some(key)
    case _ => None
  }

  function WriteKeyOf(state: State): WriteKey {
    match state
    case Disabled => Plaintext
    case Unlocked(key) => SealWith(key)
    case Unknown => NoWriting
    case Unreachable => NoWriting
    case Locked => NoWriting
  }

  function WritesOf(state: State, backend: Backend): Writes {
    match WriteKeyOf(state)
    case NoWriting => Refuses
    case SealWith(_) => Accepted
    case Plaintext => if backend.Local? then Accepted else SetupRequired
  }

  /** The storage seam's own decision, made from the same pair. */
  function TargetOf(backend: Backend, key: WriteKey): Result<WriteTarget, StorageError> {
    if key.NoWriting? then Err(LockedOut)
    else if backend.Local? then Ok(ToLocal)
    else if key.SealWith? then Ok(ToRemote(key.key))
    else Err(EncryptionRequired)
  }

  /** The editor offers a save exactly when the seam would take it, and names the same reason when not. */
  lemma WritesMirrorsTheSeam(state: State, backend: Backend)
    ensures WritesOf(state, backend) == Accepted <==> TargetOf(backend, WriteKeyOf(state)).Ok?
    ensures WritesOf(state, backend) == Refuses <==> TargetOf(backend, WriteKeyOf(state)) == Err(LockedOut)
    ensures WritesOf(state, backend) == SetupRequired <==>
            TargetOf(backend, WriteKeyOf(state)) == Err(EncryptionRequired)
    ensures WritesOf(state, Remote) == Accepted <==> state.Unlocked?
  {}

  /** What a write does in every state: sealed under the page's key to the server, unsealed to the device, or not at all. */
  lemma WhereWritesGo(state: State, key: SessionKey)
    ensures TargetOf(Remote, WriteKeyOf(state)) == Ok(ToRemote(key)) <==> state == Unlocked(key)
    ensures TargetOf(Remote, WriteKeyOf(state)) == Err(EncryptionRequired) <==> state == Disabled
    ensures TargetOf(Local, WriteKeyOf(state)) == Ok(ToLocal) <==> state == Disabled || state.Unlocked?
    ensures forall backend: Backend :: TargetOf(backend, WriteKeyOf(state)) == Err(LockedOut) <==>
              state == Unknown || state == Unreachable || state == Locked
    ensures TargetOf(Remote, WriteKeyOf(state)) != Ok(ToLocal)
  {}

  /** A page that has asked nobody yet writes nothing for an account, and to the device for nobody. */
  lemma InitiallySafe(user: Option<Account>)
    ensures TargetOf(BackendOf(user), WriteKeyOf(InitialState(user))) == if user.Some? then Err(LockedOut) else Ok(ToLocal)
    ensures InitialState(user) == if user == None then Disabled else Unknown
  {}

  function IdentityOf(hasKey: bool, keys: nat): KeyIdentity {
    if hasKey then Key(keys) else NoKey
  }

  function ContradictedBy(row: UnreadableRow, state: State): Option<State> {
    match row
    case SealedRow => if state.Disabled? then Some(Locked) else None
    case UnopenableRow => if state.Unlocked? then Some(Unknown) else None
  }

  function AnswerFor(account: Account, enabled: bool, user: Account): ProbeAnswer {
    if account != user then WrongAccount
    else if enabled then NeedsKey
    else NotEncryptedAccount
  }
}
