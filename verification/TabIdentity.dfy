/** Whose key a page holds. */
module TabIdentity {
  import opened Base
  import opened Accounts
  import opened EncryptionState
  import opened Keystore
  import opened Tab
  import opened TabTokens

  predicate CurrentOrChanging(t: Tab, who: Account) {
    t.user == Some(who) || t.userPending
  }

  /** The published key, and any key the newest probe may yet publish, is the signed-in user's. */
  ghost predicate KeyInv(t: Tab) {
    && (t.ctx.state.Unlocked? ==> CurrentOrChanging(t, t.ctx.state.key.user))
    && forall i :: i in t.tasks && ProbesFor(t.tasks[i]).Some? ==>
         && TokenOf(t.tasks[i]).value <= t.ctx.generation
         && (TokenOf(t.tasks[i]).value == t.ctx.generation ==> CurrentOrChanging(t, ProbesFor(t.tasks[i]).value))
  }

  lemma StepKeepsIdentity(t: Tab, e: Event)
    requires KeyInv(t)
    ensures KeyInv(Step(t, e))
  {
    StepMoves(t, e);
  }

  lemma OpenedIdentity(id: nat, user: Option<Account>, store: Store, day: Day)
    ensures KeyInv(Opened(id, user, store, day)) && TokenInv(Opened(id, user, store, day))
  {}

  /** In every reachable state the key in memory is the signed-in user's, or the change has yet to be noticed. */
  lemma {:induction false} KeyIsTheSignedInUsers(t: Tab, events: seq<Event>)
    requires KeyInv(t)
    ensures KeyInv(Run(t, events))
    decreases |events|
  {
    if events != [] {
      StepKeepsIdentity(t, events[0]);
      KeyIsTheSignedInUsers(Step(t, events[0]), events[1..]);
    }
  }

  /** Signed out, nothing unlocked, and no probe left that could publish. */
  ghost predicate Emptied(t: Tab) {
    && t.user.None? && !t.ctx.state.Unlocked?
    && forall i :: i in t.tasks && ProbesFor(t.tasks[i]).Some? ==> TokenOf(t.tasks[i]).value < t.ctx.generation
  }

  lemma StepKeepsEmptied(t: Tab, e: Event)
    requires Emptied(t)
    ensures Emptied(Step(t, e))
  {
    StepMoves(t, e);
  }

  lemma {:induction false} RunKeepsEmptied(t: Tab, events: seq<Event>)
    requires Emptied(t)
    ensures Emptied(Run(t, events))
    decreases |events|
  {
    if events != [] {
      StepKeepsEmptied(t, events[0]);
      RunKeepsEmptied(Step(t, events[0]), events[1..]);
    }
  }

  /** Once the effect after a sign-out has run, no key is in memory, and none ever comes back. */
  lemma NoKeyAfterSignOut(t: Tab, events: seq<Event>)
    requires KeyInv(t) && t.user.None? && !t.userPending
    ensures KeyOf(Run(t, events).ctx.state).None?
  {
    assert !t.ctx.state.Unlocked?;
    RunKeepsEmptied(t, events);
  }

  /** Nobody arrives in a page that is open: its user stays, or leaves. */
  lemma UserOnlyLeaves(t: Tab, e: Event)
    ensures Step(t, e).user == t.user || (Step(t, e).user.None? && Step(t, e).userPending)
  {
    StepMoves(t, e);
  }

  /** And leaves in one step only: the server's answer to a sign-out that got so far as to ask for it. */
  lemma UserLeavesIff(t: Tab, e: Event)
    requires t.user.Some?
    ensures Step(t, e).user.None? <==>
            e.Leave? && e.leave.Logout? && e.leave.ok && e.leave.task in t.tasks && t.tasks[e.leave.task] == SignOutEnding
    ensures Step(t, e).user.Some? ==> Step(t, e).user == t.user
  {
    match e
    case Load(a) => LoadKeepsUser(t, a);
    case Unlock(a) => UnlockKeepsUser(t, a);
    case User(a) => ActingKeepsUser(t, a);
    case _ =>
  }

  lemma LoadKeepsUser(t: Tab, a: LoadAct)
    ensures LoadStep(t, a).user == t.user
  {}

  lemma UnlockKeepsUser(t: Tab, a: UnlockAct)
    ensures UnlockStep(t, a).user == t.user
  {}

  lemma ActingKeepsUser(t: Tab, a: UserAct)
    ensures UserStep(t, a).user == t.user
  {}
}
