/**
 What a ceremony computes once its awaits have answered: the authenticator's
 reply, the fetched wraps and the typed key are arguments.
 */
module Ceremonies {
  import opened Base
  import opened Crypto
  import opened Accounts
  import opened Routes
  import Codec = EncryptionKey

  /** What an assertion came back with: a credential and its secret, or one of three ways to come back empty-handed. */
  datatype Assertion = Answered(cred: CredId) | NoPrf | Unidentified | NoAnswer

  datatype KeySource = FromPasskey | FromKey(text: string)

  /** One row to try, paired with what the user brought for it. */
  datatype OpenedRoute = PasskeyRoute(cred: CredId, wrap: Blob) | KeyRoute(text: string, wrap: Blob)

  datatype Failure = AssertionFailed | NoSuchRoute | MalformedKey(error: Codec.KeyError) | DidNotOpen
                   | AlreadyOpens | WrongPasskey

  /** A credential's PRF output. Each credential has its own. */
  function Prf(cred: CredId): Bytes {
    cred
  }

  function PasskeyKek(cred: CredId): Kek {
    Kek(Passkey, Prf(cred))
  }

  function KeyKek(bytes: Bytes): Kek {
    Kek(EncryptionKey, bytes)
  }

  function KekFor(route: OpenedRoute): Result<Kek, Failure> {
    match route
    case PasskeyRoute(cred, _) => Ok(PasskeyKek(cred))
    case KeyRoute(text, _) =>
      match Codec.Normalize(text)
      case Err(e) => Err(MalformedKey(e))
      case Ok(bytes) => Ok(KeyKek(bytes))
  }

  function OpenWrap(route: OpenedRoute): Result<Dek, Failure> {
    match KekFor(route)
    case Err(e) => Err(e)
    case Ok(kek) =>
      match Unwrap(route.wrap, kek)
      case None => Err(DidNotOpen)
      case Some(dek) => Ok(dek)
  }

  function ExistingRoute(wraps: seq<WrapDto>, source: KeySource, answer: Assertion): Result<OpenedRoute, Failure> {
    match source
    case FromPasskey =>
      if !answer.Answered? then Err(AssertionFailed)
      else
        (match ChooseRoute(wraps, Some(answer.cred))
         case None => Err(NoSuchRoute)
         case Some(route) => Ok(PasskeyRoute(answer.cred, route.blob)))
    case FromKey(text) =>
      match ChooseRoute(wraps, None)
      case None => Err(NoSuchRoute)
      case Some(route) => Ok(KeyRoute(text, route.blob))
  }

  /** Either unlock route: the data key, or why not. */
  function UnlockWith(wraps: seq<WrapDto>, source: KeySource, answer: Assertion): Result<Dek, Failure> {
    match ExistingRoute(wraps, source, answer)
    case Err(e) => Err(e)
    case Ok(route) => OpenWrap(route)
  }

  function Rewrap(existing: OpenedRoute, kek: Kek): Result<Blob, Failure> {
    match OpenWrap(existing)
    case Err(e) => Err(e)
    case Ok(dek) => Ok(Wrapped(dek, kek))
  }

  function MustBeTarget(answer: Assertion, target: CredId): Result<CredId, Failure> {
    if !answer.Answered? then Err(AssertionFailed)
    else if answer.cred != target then Err(WrongPasskey)
    else Ok(answer.cred)
  }

  /** `add_passkey_key`, up to the wrap it posts. */
  function AddPasskeyKey(wraps: seq<WrapDto>, target: CredId, source: KeySource, first: Assertion, second: Assertion)
    : Result<Blob, Failure>
  {
    if ChooseRoute(wraps, Some(target)).Some? then Err(AlreadyOpens)
    else
      match ExistingRoute(wraps, source, first)
      case Err(e) => Err(e)
      case Ok(existing) =>
        match MustBeTarget(second, target)
        case Err(e) => Err(e)
        case Ok(answered) => Rewrap(existing, PasskeyKek(answered))
  }

  /** A fresh encryption key, as shown and as wrapped. */
  datatype Reissued = Reissued(shown: string, wrap: Blob)

  function ReissueKey(existing: OpenedRoute, minted: Bytes): Result<Reissued, Failure>
    requires |minted| == Codec.KEY_BYTES
  {
    match Rewrap(existing, KeyKek(minted))
    case Err(e) => Err(e)
    case Ok(wrap) => Ok(Reissued(Codec.FormatKey(minted), wrap))
  }

  datatype Enabled = Enabled(dek: Dek, shown: string, passkeyWrap: Option<PasskeyWrap>, keyWrap: Blob)

  function EnableWith(answer: Option<CredId>, dek: Dek, minted: Bytes): Enabled
    requires |minted| == Codec.KEY_BYTES
  {
    Enabled(dek, Codec.FormatKey(minted),
            if answer.Some? then Some(PasskeyWrap(answer.value, Wrapped(dek, PasskeyKek(answer.value)))) else None,
            Wrapped(dek, KeyKek(minted)))
  }

  // ---------------------------------------------------------- correctness

  /** A wrap of `dek` under exactly the secret its row is filed under. */
  predicate GoodWrap(kind: WrapKind, cred: Option<CredId>, blob: Blob, dek: Dek) {
    && blob.Wrapped? && blob.dek == dek && blob.kek.kind == kind
    && (kind.Passkey? ==> cred.Some? && blob.kek == PasskeyKek(cred.value))
    && (kind.EncryptionKey? ==> |blob.kek.ikm| == Codec.KEY_BYTES)
  }

  ghost predicate GoodList(wraps: seq<WrapDto>, dek: Dek) {
    forall i :: 0 <= i < |wraps| ==>
      ParseKind(wraps[i].kind).Some? && GoodWrap(ParseKind(wraps[i].kind).value, wraps[i].cred, wraps[i].blob, dek)
  }

  lemma RouteOfGoodList(wraps: seq<WrapDto>, cred: Option<CredId>, dek: Dek)
    requires GoodList(wraps, dek) && ChooseRoute(wraps, cred).Some?
    ensures var r := ChooseRoute(wraps, cred).value;
            && GoodWrap(r.kind, r.cred, r.blob, dek)
            && r.kind == (if cred.Some? then Passkey else EncryptionKey)
            && (cred.Some? ==> r.cred == cred)
  {
    var i :| 0 <= i < |wraps| && Offered(wraps[i], cred) == ChooseRoute(wraps, cred);
  }

  /** Whatever a ceremony opens out of an account's wraps is that account's data key. */
  lemma OpensOnlyTheDataKey(wraps: seq<WrapDto>, source: KeySource, answer: Assertion, dek: Dek)
    requires GoodList(wraps, dek)
    ensures UnlockWith(wraps, source, answer).Ok? ==> UnlockWith(wraps, source, answer).value == dek
  {
    match source
    case FromPasskey =>
      if answer.Answered? && ChooseRoute(wraps, Some(answer.cred)).Some? {
        RouteOfGoodList(wraps, Some(answer.cred), dek);
      }
    case FromKey(_) => if ChooseRoute(wraps, None).Some? { RouteOfGoodList(wraps, None, dek); }
  }

  /** A passkey that has a wrap in the list opens it; there is no wrong-credential success or failure. */
  lemma PasskeyOpensItsOwnWrap(wraps: seq<WrapDto>, cred: CredId, dek: Dek)
    requires GoodList(wraps, dek)
    ensures UnlockWith(wraps, FromPasskey, Answered(cred)) ==
            if ChooseRoute(wraps, Some(cred)).Some? then Ok(dek) else Err(NoSuchRoute)
  {
    if ChooseRoute(wraps, Some(cred)).Some? { RouteOfGoodList(wraps, Some(cred), dek); }
  }

  /**
   A typed key opens the account exactly when it reads as the bytes the key wrap
   was made with; one that reads but does not fit is not called malformed.
   */
  lemma TypedKeyOpensIff(wraps: seq<WrapDto>, text: string, answer: Assertion, dek: Dek)
    requires GoodList(wraps, dek) && ChooseRoute(wraps, None).Some?
    ensures UnlockWith(wraps, FromKey(text), answer) == Ok(dek) <==>
            Codec.Normalize(text).Ok? && ChooseRoute(wraps, None).value.blob.kek == KeyKek(Codec.Normalize(text).value)
    ensures UnlockWith(wraps, FromKey(text), answer) == Err(DidNotOpen) <==>
            Codec.Normalize(text).Ok? && UnlockWith(wraps, FromKey(text), answer) != Ok(dek)
  {
    RouteOfGoodList(wraps, None, dek);
  }

  lemma AddedWrap(wraps: seq<WrapDto>, target: CredId, source: KeySource, first: Assertion, second: Assertion)
    ensures AddPasskeyKey(wraps, target, source, first, second).Ok? <==>
            ChooseRoute(wraps, Some(target)).None? && UnlockWith(wraps, source, first).Ok? && second == Answered(target)
    ensures AddPasskeyKey(wraps, target, source, first, second).Ok? ==>
            AddPasskeyKey(wraps, target, source, first, second).value
            == Wrapped(UnlockWith(wraps, source, first).value, PasskeyKek(target))
  {}

  /** Why adding a passkey ends, in the order in which it can. */
  lemma WhyNotAdded(wraps: seq<WrapDto>, target: CredId, source: KeySource, first: Assertion, second: Assertion)
    ensures ChooseRoute(wraps, Some(target)).Some? ==>
            AddPasskeyKey(wraps, target, source, first, second) == Err(AlreadyOpens)
    ensures ChooseRoute(wraps, Some(target)).None? && source.FromPasskey? && !first.Answered? ==>
            AddPasskeyKey(wraps, target, source, first, second) == Err(AssertionFailed)
    ensures ChooseRoute(wraps, Some(target)).None? && source.FromPasskey? && first.Answered? ==>
            (ChooseRoute(wraps, Some(first.cred)).None? ==>
               AddPasskeyKey(wraps, target, source, first, second) == Err(NoSuchRoute))
    ensures ChooseRoute(wraps, Some(target)).None? && ExistingRoute(wraps, source, first).Ok? ==>
      && (!second.Answered? ==> AddPasskeyKey(wraps, target, source, first, second) == Err(AssertionFailed))
      && (second.Answered? && second.cred != target ==>
            AddPasskeyKey(wraps, target, source, first, second) == Err(WrongPasskey))
      && (second == Answered(target) && OpenWrap(ExistingRoute(wraps, source, first).value).Err? ==>
            AddPasskeyKey(wraps, target, source, first, second)
            == Err(OpenWrap(ExistingRoute(wraps, source, first).value).error))
  {}

  /** Adding a passkey files the data key under the target's own secret, and nobody else's. */
  lemma AddedWrapIsTheTargets(wraps: seq<WrapDto>, target: CredId, source: KeySource,
                              first: Assertion, second: Assertion, dek: Dek)
    requires GoodList(wraps, dek)
    ensures AddPasskeyKey(wraps, target, source, first, second).Ok? <==>
            ChooseRoute(wraps, Some(target)).None? && UnlockWith(wraps, source, first) == Ok(dek) && second == Answered(target)
    ensures AddPasskeyKey(wraps, target, source, first, second).Ok? ==>
            AddPasskeyKey(wraps, target, source, first, second).value == Wrapped(dek, PasskeyKek(target))
  {
    AddedWrap(wraps, target, source, first, second);
    OpensOnlyTheDataKey(wraps, source, first, dek);
  }

  /** The key that is shown is the key that opens the new wrap, typed back in any accepted spelling. */
  lemma ShownKeyOpens(existing: OpenedRoute, minted: Bytes, typed: string)
    requires |minted| == Codec.KEY_BYTES && ReissueKey(existing, minted).Ok?
    requires Codec.Folded(typed) == Codec.Folded(ReissueKey(existing, minted).value.shown)
    ensures OpenWrap(KeyRoute(typed, ReissueKey(existing, minted).value.wrap)) == OpenWrap(existing)
  {
    Codec.NormalizeOfFormat(minted);
    var shown := Codec.FormatKey(minted);
    Codec.NormalizeAccepts(shown);
    Codec.NormalizeAccepts(typed);
    Codec.SameKeyIffSameFoldedForm(typed, shown);
  }

  /** However the shown key is typed back, it opens what was sealed while it was shown. */
  lemma RetypedKeyOpens(answer: Option<CredId>, dek: Dek, minted: Bytes, typed: string)
    requires |minted| == Codec.KEY_BYTES && Codec.Retypes(typed, EnableWith(answer, dek, minted).shown)
    ensures OpenWrap(KeyRoute(typed, EnableWith(answer, dek, minted).keyWrap)) == Ok(dek)
  {
    Codec.RetypedKeyIsRead(minted, typed);
  }

  lemma EnabledKeyOpens(answer: Option<CredId>, dek: Dek, minted: Bytes)
    requires |minted| == Codec.KEY_BYTES
    ensures var e := EnableWith(answer, dek, minted);
            && OpenWrap(KeyRoute(e.shown, e.keyWrap)) == Ok(dek)
            && (answer.Some? ==> e.passkeyWrap.Some? && OpenWrap(PasskeyRoute(answer.value, e.passkeyWrap.value.blob)) == Ok(dek)
                                 && e.passkeyWrap.value.cred == answer.value)
  {
    Codec.NormalizeOfFormat(minted);
  }
}
