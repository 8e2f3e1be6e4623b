/** What each event does to the context a page has, in the context's own steps and no others. */
module TabContext {
  import opened Base
  import opened Crypto
  import opened Accounts
  import opened EncryptionState
  import opened EncryptionCtx
  import opened Hook
  import opened Tab

  /** `unlock`, before it first waits: refused, or parked, or, with nothing to write, at its end already. */
  function Unlocking(t: Tab, key: SessionKey): Ctx {
    if t.user != Some(key.user) then t.ctx
    else
      var parked := t.ctx.Begun().Published(Locked);
      if key.forgets == t.forgets then parked else parked.Landed(parked.generation, Unlocked(key))
  }

  /** A status answer settles the state, or sends the probe on to the keystore. */
  function Settling(t: Tab, token: nat, who: Account, answer: Option<(Account, bool)>): Ctx {
    if answer.None? || answer.value.0 != who then t.ctx.Landed(token, Unreachable)
    else if answer.value.1 then t.ctx
    else t.ctx.Landed(token, Disabled)
  }

  function Reading(t: Tab, loaded: Loaded): Ctx {
    match loaded
    case Value(_) => t.ctx
    case WasSealed => t.ctx.AfterRow(t.user, SealedRow)
    case WasUnopenable => t.ctx.AfterRow(t.user, UnopenableRow)
  }

  function CtxAfter(t: Tab, e: Event): Ctx {
    match e
    case User(Retry) => t.ctx.Probing(t.user, Unknown)
    case User(Lock) => if t.ctx.state.Locked? || t.ctx.state.Unlocked? then t.ctx.Begun().Published(Locked) else t.ctx
    case User(SignOut) => if t.user.Some? then t.ctx.Begun() else t.ctx
    case User(UseKey(i)) =>
      (match TaskAt(t, i)
       case Some(InHand(key)) => Unlocking(t, key)
       case _ => t.ctx)
    case Effect(ProbeEffect) => if t.userPending then t.ctx.Probing(t.user, Unknown) else t.ctx
    case Effect(GateEffect) => if t.gate && Gated(t) then t.ctx.Probing(t.user, Unknown) else t.ctx
    case Probe(Status(i, answer)) =>
      (match TaskAt(t, i)
       case Some(ProbeStatus(token, who)) => Settling(t, token, who, answer)
       case _ => t.ctx)
    case Probe(Lands(i)) =>
      (match TaskAt(t, i)
       case Some(ProbeRestored(token, who, captured, found)) =>
         t.ctx.Landed(token, if found.Some? then Unlocked(SessionKey(found.value, who, captured)) else Locked)
       case _ => t.ctx)
    case Unlock(Opens(i, dek)) =>
      (match TaskAt(t, i)
       case Some(Ceremony(who, captured)) => Unlocking(t, SessionKey(dek, who, captured))
       case _ => t.ctx)
    case Unlock(Written(i)) =>
      (match TaskAt(t, i)
       case Some(UnlockWriting(key, token, op)) =>
         if t.store.Settled(op) && t.user == Some(key.user) then t.ctx.Landed(token, Unlocked(key)) else t.ctx
       case _ => t.ctx)
    case Load(Arrives(i, fetched)) =>
      (match TaskAt(t, i)
       case Some(Loading(token, _, session)) =>
         if token == t.hook.generation then Reading(t, LoadedValue(fetched, session)) else t.ctx
       case _ => t.ctx)
    case Load(WeekArrives(i, bodies)) =>
      (match TaskAt(t, i)
       case Some(WeekLoading(token, _, session)) =>
         if token != t.week.generation || bodies.None? then t.ctx
         else if AnySealed(bodies.value, session) then t.ctx.AfterRow(t.user, SealedRow)
         else if AnyUnopenable(bodies.value, session) then t.ctx.AfterRow(t.user, UnopenableRow)
         else t.ctx
       case _ => t.ctx)
    case _ => t.ctx
  }

  lemma UserFollows(t: Tab, a: UserAct)
    ensures UserStep(t, a).ctx == CtxAfter(t, User(a))
  {}

  lemma EffectFollows(t: Tab, a: EffectAct)
    ensures EffectStep(t, a).ctx == CtxAfter(t, Effect(a))
  {}

  lemma ProbeFollows(t: Tab, a: ProbeAct)
    ensures ProbeStep(t, a).ctx == CtxAfter(t, Probe(a))
  {}

  lemma UnlockFollows(t: Tab, a: UnlockAct)
    ensures UnlockStep(t, a).ctx == CtxAfter(t, Unlock(a))
  {}

  lemma LeaveFollows(t: Tab, a: LeaveAct)
    ensures LeaveStep(t, a).ctx == t.ctx
  {}

  lemma RowSeenFollows(t: Tab, row: UnreadableRow)
    ensures RowSeen(t, row).ctx == t.ctx.AfterRow(t.user, row)
  {}

  lemma DayFollows(t: Tab, i: nat, fetched: Fetched)
    ensures LoadStep(t, Arrives(i, fetched)).ctx == CtxAfter(t, Load(Arrives(i, fetched)))
  {
    if i in t.tasks && t.tasks[i].Loading? {
      var task, left := t.tasks[i], Dropped(t, i);
      var loaded := LoadedValue(fetched, task.session);
      var shown := left.(hook := left.hook.Finished(task.token, loaded, left.ctx.StartsReprobe(UnopenableRow)));
      RowSeenFollows(shown, if loaded.WasSealed? then SealedRow else UnopenableRow);
    }
  }

  lemma WeekFollows(t: Tab, i: nat, bodies: Option<seq<Body>>)
    ensures LoadStep(t, WeekArrives(i, bodies)).ctx == CtxAfter(t, Load(WeekArrives(i, bodies)))
  {
    if i in t.tasks && t.tasks[i].WeekLoading? && bodies.Some? {
      var session, left := t.tasks[i].session, Dropped(t, i);
      WeekReportsOneReason(bodies.value, session);
      RowSeenFollows(left, if AnySealed(bodies.value, session) then SealedRow else UnopenableRow);
    }
  }

  /** Every event moves the context as the methods it stands for do, and everything else leaves the context alone. */
  lemma StepFollowsTheContext(t: Tab, e: Event)
    ensures Step(t, e).ctx == CtxAfter(t, e)
  {
    match e
    case User(a) => UserFollows(t, a);
    case Effect(a) => EffectFollows(t, a);
    case Probe(a) => ProbeFollows(t, a);
    case Unlock(a) => UnlockFollows(t, a);
    case Leave(a) => LeaveFollows(t, a);
    case Enter(_) =>
    case Load(Arrives(i, fetched)) => DayFollows(t, i, fetched);
    case Load(WeekArrives(i, bodies)) => WeekFollows(t, i, bodies);
    case Storage(_) =>
  }

  // ------------------------------------------------------------ identities

  /** A key that is there after a step was there before it, or has a number of its own. */
  ghost predicate KeysCounted(c: Ctx, d: Ctx) {
    d.keys >= c.keys && (d.state.Unlocked? && d.keys == c.keys ==> d.state == c.state)
  }

  lemma StepCountsKeys(t: Tab, e: Event)
    ensures KeysCounted(t.ctx, Step(t, e).ctx)
  {
    StepFollowsTheContext(t, e);
  }

  lemma {:induction false} RunCountsKeys(t: Tab, events: seq<Event>)
    ensures KeysCounted(t.ctx, Run(t, events).ctx)
    decreases |events|
  {
    if events != [] {
      StepCountsKeys(t, events[0]);
      RunCountsKeys(Step(t, events[0]), events[1..]);
    }
  }

  /** The page holds a key exactly if it has an identity to show for it. */
  lemma IdentityTells(t: Tab)
    ensures t.ctx.Identity() == NoKey <==> KeyOf(t.ctx.state) == None
    ensures t.ctx.Identity() != NoKey ==> t.ctx.Identity() == Key(t.ctx.keys)
  {}

  /**
   What the loading effects compare instead of keys: over every run, the same
   identity is the same key, so what was loaded under it is what the key there
   is would load.
   */
  lemma SameIdentitySameKey(t: Tab, events: seq<Event>)
    requires Run(t, events).ctx.Identity() == t.ctx.Identity()
    ensures KeyOf(Run(t, events).ctx.state) == KeyOf(t.ctx.state)
  {
    RunCountsKeys(t, events);
    IdentityTells(t);
    IdentityTells(Run(t, events));
  }
}
