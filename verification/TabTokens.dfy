/** Who may publish: the newest token, and nobody else. */
module TabTokens {
  import opened Base
  import opened Crypto
  import opened Accounts
  import opened EncryptionState
  import opened Keystore
  import opened Hook
  import opened Tab
  import opened TabTasks

  /** Whose account a probe in flight asks about. */
  function ProbesFor(task: Task): Option<Account> {
    match task
    case ProbeStatus(_, who) => Some(who)
    case ProbeRestore(_, who, _) => Some(who)
    case ProbeRestored(_, who, _, _) => Some(who)
    case _ => None
  }

  /** The token-bearing task that an event resumes. */
  function Bearer(e: Event): Option<nat> {
    match e
    case Probe(Status(i, _)) => Some(i)
    case Probe(RecordRead(i, _)) => Some(i)
    case Probe(Lands(i)) => Some(i)
    case Unlock(Written(i)) => Some(i)
    case _ => None
  }

  /** A task of `u` holding a token either held it before, or holds the token just taken. */
  ghost predicate TokensExplained(t: Tab, u: Tab) {
    forall i :: i in u.tasks && TokenOf(u.tasks[i]).Some? ==>
      || (i in t.tasks && TokenOf(t.tasks[i]) == TokenOf(u.tasks[i]) && ProbesFor(t.tasks[i]) == ProbesFor(u.tasks[i]))
      || (&& i == t.nextTask && u.ctx.generation == t.ctx.generation + 1 && TokenOf(u.tasks[i]) == Some(u.ctx.generation)
          && !u.ctx.state.Unlocked? && (ProbesFor(u.tasks[i]).Some? ==> t.user == ProbesFor(u.tasks[i])))
  }

  /** With no new token, the context changes only in the hands of the one who holds the newest. */
  ghost predicate ContextExplained(t: Tab, u: Tab, bearer: Option<nat>) {
    && (u.ctx.generation == t.ctx.generation && u.ctx != t.ctx ==>
          && bearer.Some? && bearer.value in t.tasks && bearer.value !in u.tasks
          && TokenOf(t.tasks[bearer.value]) == Some(t.ctx.generation)
          && (u.ctx.state.Unlocked? ==>
                t.user == Some(u.ctx.state.key.user) || ProbesFor(t.tasks[bearer.value]) == Some(u.ctx.state.key.user)))
    && (u.ctx.generation != t.ctx.generation ==>
          && u.ctx.generation == t.ctx.generation + 1
          && (u.ctx.state.Unlocked? ==> u.ctx.state == t.ctx.state || t.user == Some(u.ctx.state.key.user)))
  }

  /** How one step may move the parts of a page that tokens and identity rest on. */
  ghost predicate Moves(t: Tab, u: Tab, bearer: Option<nat>) {
    && u.id == t.id && u.nextTask >= t.nextTask && u.forgets >= t.forgets
    && (forall i :: i in u.tasks ==> i in t.tasks || t.nextTask <= i < u.nextTask)
    && (u.user == t.user || (u.user.None? && u.userPending))
    && (t.userPending && !u.userPending ==> u.ctx.generation > t.ctx.generation && !u.ctx.state.Unlocked?)
    && TokensExplained(t, u)
    && ContextExplained(t, u, bearer)
  }

  lemma UnlockCalledMoves(t: Tab, i: nat, key: SessionKey)
    ensures Moves(t, UnlockCalled(Dropped(t, i), key), None)
  {}

  lemma UserMoves(t: Tab, a: UserAct)
    ensures Moves(t, UserStep(t, a), None)
  {
    match a
    case UseKey(i) => if i in t.tasks && t.tasks[i].InHand? { UnlockCalledMoves(t, i, t.tasks[i].key); }
    case Lock => LockMoves(t);
    case _ =>
  }

  lemma LockMoves(t: Tab)
    ensures Moves(t, UserStep(t, Lock), None)
  {}

  lemma ProbeMoves(t: Tab, a: ProbeAct)
    ensures Moves(t, ProbeStep(t, a), Bearer(Probe(a)))
  {
    if a.Status? && a.task in t.tasks && t.tasks[a.task].ProbeStatus? {
      StatusMoves(t, a.task, a.answer);
    }
  }

  lemma StatusMoves(t: Tab, i: nat, answer: Option<(Account, bool)>)
    requires i in t.tasks && t.tasks[i].ProbeStatus?
    ensures Moves(t, StatusAnswered(t, i, t.tasks[i].token, t.tasks[i].who, answer), Some(i))
  {}

  lemma UnlockMoves(t: Tab, a: UnlockAct)
    ensures Moves(t, UnlockStep(t, a), Bearer(Unlock(a)))
  {
    match a
    case Opens(i, dek) =>
      if i in t.tasks && t.tasks[i].Ceremony? {
        UnlockCalledMoves(t, i, SessionKey(dek, t.tasks[i].who, t.tasks[i].captured));
      }
    case Written(i) => WrittenMoves(t, i);
    case _ =>
  }

  lemma WrittenMoves(t: Tab, i: nat)
    ensures Moves(t, UnlockStep(t, Written(i)), Some(i))
  {}

  lemma EffectMoves(t: Tab, a: EffectAct)
    ensures Moves(t, EffectStep(t, a), None)
  {
    match a
    case ProbeEffect => ProbeEffectMoves(t);
    case GateEffect => GateEffectMoves(t);
    case _ =>
  }

  lemma ProbeEffectMoves(t: Tab)
    ensures Moves(t, EffectStep(t, ProbeEffect), None)
  {}

  lemma GateEffectMoves(t: Tab)
    ensures Moves(t, EffectStep(t, GateEffect), None)
  {}

  lemma LeaveMoves(t: Tab, a: LeaveAct)
    ensures Moves(t, LeaveStep(t, a), None)
  {
    match a
    case Forgets(i) => ForgetsMoves(t, i);
    case Logout(i, ok) => LogoutMoves(t, i, ok);
    case _ =>
  }

  lemma ForgetsMoves(t: Tab, i: nat)
    ensures Moves(t, LeaveStep(t, Forgets(i)), None)
  {}

  lemma LogoutMoves(t: Tab, i: nat, ok: bool)
    ensures Moves(t, LeaveStep(t, Logout(i, ok)), None)
  {}

  lemma EnterMoves(t: Tab, a: EnterAct)
    ensures Moves(t, EnterStep(t, a), None)
  {}

  lemma RowSeenMoves(t: Tab, row: UnreadableRow)
    ensures Moves(t, RowSeen(t, row), None)
  {}

  /** Dropping tasks and showing text beforehand explains no less. */
  lemma MovesFromWithin(t: Tab, s: Tab, u: Tab)
    requires s == t.(hook := s.hook, tasks := s.tasks) && s.tasks.Keys <= t.tasks.Keys
    requires forall i :: i in s.tasks ==> s.tasks[i] == t.tasks[i]
    requires Moves(s, u, None)
    ensures Moves(t, u, None)
  {}

  lemma LoadMoves(t: Tab, a: LoadAct)
    ensures Moves(t, LoadStep(t, a), None)
  {
    if a.Arrives? && a.task in t.tasks && t.tasks[a.task].Loading? {
      var task, left := t.tasks[a.task], Dropped(t, a.task);
      var loaded := LoadedValue(a.fetched, task.session);
      var shown := left.(hook := left.hook.Finished(task.token, loaded, left.ctx.StartsReprobe(UnopenableRow)));
      var row := if loaded.WasSealed? then SealedRow else UnopenableRow;
      RowSeenMoves(shown, row);
      MovesFromWithin(t, shown, RowSeen(shown, row));
    } else if a.WeekArrives? && a.task in t.tasks && t.tasks[a.task].WeekLoading? {
      WeekArrivesMoves(t, a.task, a.bodies);
    }
  }

  lemma WeekArrivesMoves(t: Tab, i: nat, bodies: Option<seq<Body>>)
    requires i in t.tasks && t.tasks[i].WeekLoading?
    ensures Moves(t, LoadStep(t, WeekArrives(i, bodies)), None)
  {
    var task, left := t.tasks[i], Dropped(t, i);
    if bodies.Some? {
      WeekReportsOneReason(bodies.value, task.session);
      var row := if AnySealed(bodies.value, task.session) then SealedRow else UnopenableRow;
      RowSeenMoves(left, row);
      MovesFromWithin(t, left, RowSeen(left, row));
    }
  }

  lemma StepMoves(t: Tab, e: Event)
    ensures Moves(t, Step(t, e), Bearer(e))
  {
    match e
    case User(a) => UserMoves(t, a);
    case Effect(a) => EffectMoves(t, a);
    case Probe(a) => ProbeMoves(t, a);
    case Unlock(a) => UnlockMoves(t, a);
    case Leave(a) => LeaveMoves(t, a);
    case Enter(a) => EnterMoves(t, a);
    case Load(a) => LoadMoves(t, a);
    case Storage(_) =>
  }

  // ------------------------------------------------- the newest token wins

  /** Whoever changes the context took a token in that very step, or holds the newest one. */
  lemma PublisherHoldsNewest(t: Tab, e: Event)
    requires Step(t, e).ctx != t.ctx
    ensures || Step(t, e).ctx.generation == t.ctx.generation + 1
            || (Bearer(e).Some? && Bearer(e).value in t.tasks && TokenOf(t.tasks[Bearer(e).value]) == Some(t.ctx.generation))
  {
    StepMoves(t, e);
  }

  lemma {:induction false} RunNeverBack(t: Tab, events: seq<Event>)
    ensures Run(t, events).ctx.generation >= t.ctx.generation
    decreases |events|
  {
    if events != [] {
      StepMoves(t, events[0]);
      RunNeverBack(Step(t, events[0]), events[1..]);
    }
  }

  /** A probe or unlock that has been overtaken publishes nothing, however much later it resumes. */
  lemma OvertakenNeverPublishes(t: Tab, events: seq<Event>, e: Event)
    requires Bearer(e).Some? && Bearer(e).value in Run(t, events).tasks
    requires var task := Run(t, events).tasks[Bearer(e).value];
             TokenOf(task).Some? && TokenOf(task).value < t.ctx.generation
    ensures Step(Run(t, events), e).ctx == Run(t, events).ctx
  {
    RunNeverBack(t, events);
  }

  /** Tokens come from the counter and nobody is yet to be numbered. */
  ghost predicate TokenInv(t: Tab) {
    forall i :: i in t.tasks ==>
      && i < t.nextTask
      && (TokenOf(t.tasks[i]).Some? ==> TokenOf(t.tasks[i]).value <= t.ctx.generation)
  }

  /** The newest token is held by nobody: nothing in flight may publish. */
  ghost predicate NobodyMayPublish(t: Tab) {
    forall i :: i in t.tasks ==> TokenOf(t.tasks[i]) != Some(t.ctx.generation)
  }

  lemma StepKeepsTokens(t: Tab, e: Event)
    requires TokenInv(t)
    ensures TokenInv(Step(t, e))
  {
    StepMoves(t, e);
    assert forall i :: i in Step(t, e).tasks && TokenOf(Step(t, e).tasks[i]).Some? ==>
      TokenOf(Step(t, e).tasks[i]).value <= Step(t, e).ctx.generation;
  }

  lemma {:induction false} RunKeepsTokens(t: Tab, events: seq<Event>)
    requires TokenInv(t)
    ensures TokenInv(Run(t, events))
    decreases |events|
  {
    if events != [] {
      StepKeepsTokens(t, events[0]);
      RunKeepsTokens(Step(t, events[0]), events[1..]);
    }
  }

  /** A state nobody in flight may replace stands until a new token is taken. */
  lemma {:induction false} StandsUntilNewToken(t: Tab, events: seq<Event>)
    requires NobodyMayPublish(t)
    requires Run(t, events).ctx.generation == t.ctx.generation
    ensures Run(t, events).ctx == t.ctx
    decreases |events|
  {
    if events != [] {
      var next := Step(t, events[0]);
      StepMoves(t, events[0]);
      RunNeverBack(next, events[1..]);
      assert NobodyMayPublish(next);
      StandsUntilNewToken(next, events[1..]);
    }
  }

  // ---------------------------------------------- what replaces a state

  /** Whoever acts in this step takes a token in it, or holds the newest one already. */
  ghost predicate HoldsNewest(t: Tab, e: Event) {
    || Step(t, e).ctx.generation == t.ctx.generation + 1
    || (Bearer(e).Some? && Bearer(e).value in t.tasks && TokenOf(t.tasks[Bearer(e).value]) == Some(t.ctx.generation))
  }

  /** The `k`th step replaces the state, in the hands of one whose token is newer than `token`. */
  ghost predicate ReplacedByNewer(t: Tab, events: seq<Event>, token: nat, k: nat) {
    && k < |events|
    && var s := Run(t, events[..k]);
       Step(s, events[k]).ctx.state != s.ctx.state
       && HoldsNewest(s, events[k]) && Step(s, events[k]).ctx.generation > token
  }

  lemma ReplacerIsNewer(t: Tab, e: Event, token: nat)
    requires t.ctx.generation >= token && Step(t, e).ctx.state != t.ctx.state
    requires forall i :: i in t.tasks ==> TokenOf(t.tasks[i]) != Some(token)
    ensures HoldsNewest(t, e) && Step(t, e).ctx.generation > token
  {
    PublisherHoldsNewest(t, e);
    StepMoves(t, e);
  }

  /** A state that nobody in flight may replace is only ever replaced by the holder of a newer token. */
  lemma {:induction false} OnlyTheNewerReplace(t: Tab, events: seq<Event>, token: nat)
    requires t.ctx.generation >= token && forall i :: i in t.tasks ==> TokenOf(t.tasks[i]) != Some(token)
    ensures Run(t, events).ctx.state == t.ctx.state || exists k :: ReplacedByNewer(t, events, token, k)
    decreases |events|
  {
    if events != [] {
      var next := Step(t, events[0]);
      if next.ctx.state != t.ctx.state {
        ReplacerIsNewer(t, events[0], token);
        assert events[..0] == [];
        assert ReplacedByNewer(t, events, token, 0);
      } else {
        StepMoves(t, events[0]);
        OnlyTheNewerReplace(next, events[1..], token);
        if k :| ReplacedByNewer(next, events[1..], token, k) {
          ReplacedLater(t, events, token, k);
        }
      }
    }
  }

  lemma ReplacedLater(t: Tab, events: seq<Event>, token: nat, k: nat)
    requires events != [] && ReplacedByNewer(Step(t, events[0]), events[1..], token, k)
    ensures ReplacedByNewer(t, events, token, k + 1)
  {
    assert events[..k + 1][1..] == events[1..][..k];
    assert Run(t, events[..k + 1]) == Run(Step(t, events[0]), events[1..][..k]);
  }

  lemma LockOutranks(t: Tab)
    requires TokenInv(t) && (t.ctx.state.Locked? || t.ctx.state.Unlocked?)
    ensures NobodyMayPublish(Step(t, User(Lock))) && Step(t, User(Lock)).ctx.state == Locked
  {}

  lemma SigningOutOutranks(t: Tab)
    requires TokenInv(t) && t.user.Some?
    ensures NobodyMayPublish(Step(t, User(SignOut))) && Step(t, User(SignOut)).ctx.state == t.ctx.state
  {}

  /** "Lock now" stands until the holder of a newer token replaces it. */
  lemma LockStands(t: Tab, events: seq<Event>)
    requires TokenInv(t) && (t.ctx.state.Locked? || t.ctx.state.Unlocked?)
    ensures var locked := Step(t, User(Lock));
      || Run(locked, events).ctx.state == Locked
      || exists k :: ReplacedByNewer(locked, events, locked.ctx.generation, k)
  {
    var locked := Step(t, User(Lock));
    LockOutranks(t);
    OnlyTheNewerReplace(locked, events, locked.ctx.generation);
  }

  /** Pressing "Sign out" leaves the state to the holders of newer tokens too: every probe in flight is stranded. */
  lemma SignOutStrandsProbes(t: Tab, events: seq<Event>)
    requires TokenInv(t) && t.user.Some?
    ensures var left := Step(t, User(SignOut));
      || Run(left, events).ctx.state == t.ctx.state
      || exists k :: ReplacedByNewer(left, events, left.ctx.generation, k)
  {
    var left := Step(t, User(SignOut));
    SigningOutOutranks(t);
    OnlyTheNewerReplace(left, events, left.ctx.generation);
  }

  /** The key that the event makes task `i` call `unlock` with: just opened, or in the user's hands since. */
  function HandsOver(task: Task, e: Event, i: nat): Option<SessionKey> {
    match (task, e)
    case (Ceremony(who, captured), Unlock(Opens(j, dek))) => if j == i then Some(SessionKey(dek, who, captured)) else None
    case (InHand(key), User(UseKey(j))) => if j == i then Some(key) else None
    case _ => None
  }

  /** A key captured before a forget: nothing is written, and the page is unlocked exactly for who is signed in. */
  ghost predicate UnlocksWithoutWriting(t: Tab, e: Event, key: SessionKey) {
    && Step(t, e).store == t.store
    && (t.user == Some(key.user) ==> Step(t, e).ctx.state == Unlocked(key))
    && (t.user != Some(key.user) ==> Step(t, e).ctx == t.ctx)
  }

  lemma StaleKeyUnlocks(t: Tab, i: nat, e: Event)
    requires i in t.tasks && HandsOver(t.tasks[i], e, i).Some? && HandsOver(t.tasks[i], e, i).value.forgets < t.forgets
    ensures UnlocksWithoutWriting(t, e, HandsOver(t.tasks[i], e, i).value)
  {
    var key := HandsOver(t.tasks[i], e, i).value;
    assert Step(t, e) == UnlockCalled(Dropped(t, i), key);
    OvertakenUnlock(Dropped(t, i), key);
  }

  /**
   A ceremony takes its token only when it hands over the key, so one begun
   before a lock is no older than the lock by then: however long it takes, and
   if it had the key in hand already, it unlocks the page again exactly when
   its account is still signed in. All the lock has stopped is the write to
   this device.
   */
  lemma EarlierCeremonyOutlivesLock(t: Tab, i: nat, events: seq<Event>, e: Event)
    requires t.ctx.state.Locked? || t.ctx.state.Unlocked?
    requires i in t.tasks && i < t.nextTask && HandsOver(t.tasks[i], e, i).Some?
    requires HandsOver(t.tasks[i], e, i).value.forgets <= t.forgets && Untouched(events, i)
    ensures UnlocksWithoutWriting(Run(Step(t, User(Lock)), events), e, HandsOver(t.tasks[i], e, i).value)
  {
    var locked := Step(t, User(Lock));
    StepSameTask(t, User(Lock), i);
    RunSameTask(locked, events, i);
    RunForgetsMore(locked, events);
    StaleKeyUnlocks(Run(locked, events), i, e);
  }

  /** The same for a key that comes to hand after the lock and is used later still. */
  lemma KeyHeldAfterLock(t: Tab, i: nat, a: seq<Event>, dek: Dek, b: seq<Event>)
    requires t.ctx.state.Locked? || t.ctx.state.Unlocked?
    requires i in t.tasks && i < t.nextTask && t.tasks[i].Ceremony? && t.tasks[i].captured <= t.forgets
    requires Untouched(a, i) && Untouched(b, i)
    ensures var held := Step(Run(Step(t, User(Lock)), a), Unlock(Holds(i, dek)));
            UnlocksWithoutWriting(Run(held, b), User(UseKey(i)), SessionKey(dek, t.tasks[i].who, t.tasks[i].captured))
  {
    var locked := Step(t, User(Lock));
    StepSameTask(t, User(Lock), i);
    RunSameTask(locked, a, i);
    RunForgetsMore(locked, a);
    var held := Step(Run(locked, a), Unlock(Holds(i, dek)));
    assert held.tasks[i] == InHand(SessionKey(dek, t.tasks[i].who, t.tasks[i].captured));
    RunSameTask(held, b, i);
    RunForgetsMore(held, b);
    StaleKeyUnlocks(Run(held, b), i, User(UseKey(i)));
  }

  lemma OvertakenUnlock(t: Tab, key: SessionKey)
    requires key.forgets < t.forgets
    ensures UnlockCalled(t, key).store == t.store
    ensures t.user == Some(key.user) ==> UnlockCalled(t, key).ctx.state == Unlocked(key)
    ensures t.user != Some(key.user) ==> UnlockCalled(t, key).ctx == t.ctx
  {}

  lemma {:induction false} RunForgetsMore(t: Tab, events: seq<Event>)
    ensures Run(t, events).forgets >= t.forgets
    decreases |events|
  {
    if events != [] {
      StepMoves(t, events[0]);
      RunForgetsMore(Step(t, events[0]), events[1..]);
    }
  }

  /** At once, and as a condition on the page that was locked: the key comes back exactly when its account is signed in. */
  lemma LockIsUndoneIff(t: Tab, i: nat, e: Event)
    requires t.ctx.state.Locked? || t.ctx.state.Unlocked?
    requires i in t.tasks && i < t.nextTask && HandsOver(t.tasks[i], e, i).Some?
    requires HandsOver(t.tasks[i], e, i).value.forgets <= t.forgets
    ensures Step(Step(t, User(Lock)), e).ctx.state.Unlocked? <==> t.user == Some(HandsOver(t.tasks[i], e, i).value.user)
  {
    EarlierCeremonyOutlivesLock(t, i, [], e);
  }

  /** A page of account 7, which is encrypted and has no key on the device. */
  const OfSeven := Opened(0, Some(7), EmptyStore, 0)

  /** Its first probe ends, and its user begins to unlock. */
  const Unlocking := [Effect(ProbeEffect), Probe(Status(0, Some((7, true)))), Probe(RecordRead(0, false)),
                      Probe(Lands(0)), User(BeginCeremony)]

  lemma FirstStep(t: Tab, e: Event, rest: seq<Event>, events: seq<Event>)
    requires events == [e] + rest
    ensures Run(t, events) == Run(Step(t, e), rest)
  {}

  lemma TwoSteps(t: Tab, a: Event, b: Event, rest: seq<Event>, events: seq<Event>)
    requires events == [a, b] + rest
    ensures Run(t, events) == Run(Step(Step(t, a), b), rest)
  {
    FirstStep(t, a, [b] + rest, events);
    FirstStep(Step(t, a), b, rest, [b] + rest);
  }

  lemma FirstAnswer()
    ensures var t := Step(Step(OfSeven, Effect(ProbeEffect)), Probe(Status(0, Some((7, true)))));
            t.tasks == map[0 := ProbeRestore(1, 7, 0)] && t.ctx.generation == 1 && t.nextTask == 1
            && t.user == Some(7) && t.forgets == 0 && t.store == EmptyStore
  {
    var probing := Step(OfSeven, Effect(ProbeEffect));
    assert probing.tasks == map[0 := ProbeStatus(1, 7)];
    assert Step(probing, Probe(Status(0, Some((7, true))))) == Continued(probing, 0, ProbeRestore(1, 7, 0));
  }

  /** No record: the page is locked, and a ceremony may begin. */
  lemma NoRecordThenCeremony(t: Tab)
    requires t.tasks == map[0 := ProbeRestore(1, 7, 0)] && t.ctx.generation == 1 && t.nextTask == 1
    requires t.user == Some(7) && t.forgets == 0 && t.store == EmptyStore
    ensures var u := Step(Step(Step(t, Probe(RecordRead(0, false))), Probe(Lands(0))), User(BeginCeremony));
            u.ctx.state == Locked && u.tasks == map[1 := Ceremony(7, 0)] && u.nextTask == 2
            && u.user == Some(7) && u.forgets == 0
  {
    var restored := Step(t, Probe(RecordRead(0, false)));
    assert restored.tasks == map[0 := ProbeRestored(1, 7, 0, None)];
    var locked := Step(restored, Probe(Lands(0)));
    assert locked.tasks == map[];
  }

  /** The case in point: the user locks before the passkey answers, and the answer unlocks. */
  lemma LockUndoneExample()
    ensures var begun := Run(OfSeven, Unlocking);
      && begun.ctx.state == Locked && TaskAt(begun, 1) == Some(Ceremony(7, 0))
      && Step(Step(begun, User(Lock)), Unlock(Opens(1, 3))).ctx.state == Unlocked(SessionKey(3, 7, 0))
  {
    var begun := Run(OfSeven, Unlocking);
    var answered := Step(Step(OfSeven, Unlocking[0]), Unlocking[1]);
    FirstAnswer();
    NoRecordThenCeremony(answered);
    TwoSteps(OfSeven, Unlocking[0], Unlocking[1], Unlocking[2..], Unlocking);
    TwoSteps(answered, Unlocking[2], Unlocking[3], Unlocking[4..], Unlocking[2..]);
    FirstStep(Step(Step(answered, Unlocking[2]), Unlocking[3]), Unlocking[4], [], Unlocking[4..]);
    OpenedAfterLock(begun, 1, 3);
  }

  lemma OpenedAfterLock(t: Tab, i: nat, dek: Dek)
    requires t.ctx.state.Locked? && i in t.tasks && i < t.nextTask && t.tasks[i].Ceremony?
    requires t.tasks[i].captured <= t.forgets && t.user == Some(t.tasks[i].who)
    ensures Step(Step(t, User(Lock)), Unlock(Opens(i, dek))).ctx.state
         == Unlocked(SessionKey(dek, t.tasks[i].who, t.tasks[i].captured))
  {
    EarlierCeremonyOutlivesLock(t, i, [], Unlock(Opens(i, dek)));
  }

  // --------------------------------------------------------------- a probe

  /** What a probe for `who` publishes after its answer, if there was no record to read. */
  function SettledBy(who: Account, answer: Option<(Account, bool)>): State {
    if answer.None? || answer.value.0 != who then Unreachable else if answer.value.1 then Locked else Disabled
  }

  /**
   A probe's answer, whatever the page went through since it began: it counts
   exactly when no newer token was taken, and an account with a key goes on to
   the keystore, whatever else.
   */
  lemma ProbeIsAnswered(t: Tab, meanwhile: State, who: Account, events: seq<Event>, answer: Option<(Account, bool)>)
    requires t.user == Some(who) && Untouched(events, t.nextTask)
    ensures var started := ProbeStarted(t, meanwhile);
      var asked := Run(started, events);
      var answered := Step(asked, Probe(Status(t.nextTask, answer)));
      if SettledBy(who, answer).Locked? then
        answered == Continued(asked, t.nextTask, ProbeRestore(started.ctx.generation, who, asked.forgets))
      else
        answered == Dropped(asked, t.nextTask).(ctx := asked.ctx.Landed(started.ctx.generation, SettledBy(who, answer)))
  {
    RunSameTask(ProbeStarted(t, meanwhile), events, t.nextTask);
  }

  /** It then reads this browser's record as it is by that time, and clears one that is somebody else's. */
  lemma ProbeReads(t: Tab, i: nat, events: seq<Event>)
    requires i in t.tasks && i < t.nextTask && t.tasks[i].ProbeRestore? && Untouched(events, i)
    ensures var reading := Run(t, events);
      var read := Step(reading, Probe(RecordRead(i, false)));
      && read.store == reading.store.AfterGet(t.tasks[i].who, Writer(reading.id, reading.forgets))
      && read == Continued(reading, i, ProbeRestored(t.tasks[i].token, t.tasks[i].who, t.tasks[i].captured,
                                                     reading.store.Found(t.tasks[i].who))).(store := read.store)
  {
    RunSameTask(t, events, i);
  }

  /** And lands with what it found, exactly when its token is still the newest. */
  lemma ProbeLands(t: Tab, i: nat, events: seq<Event>)
    requires i in t.tasks && i < t.nextTask && t.tasks[i].ProbeRestored? && Untouched(events, i)
    ensures var landing := Run(t, events);
      var task := t.tasks[i];
      Step(landing, Probe(Lands(i))).ctx ==
        if landing.ctx.generation != task.token then landing.ctx
        else landing.ctx.Published(if task.found.Some? then Unlocked(SessionKey(task.found.value, task.who, task.captured))
                                   else Locked)
  {
    RunSameTask(t, events, i);
  }

  /**
   A probe that nothing overtakes, whatever else goes on between its steps,
   tells the account's own state and this browser's: unlocked with the key
   that is in the record when it looks, and locked if there is none.
   */
  lemma UndisturbedProbe(t: Tab, meanwhile: State, who: Account, a: seq<Event>, b: seq<Event>, c: seq<Event>)
    requires t.user == Some(who)
    requires Untouched(a, t.nextTask) && Untouched(b, t.nextTask) && Untouched(c, t.nextTask)
    ensures var k, started := t.nextTask, ProbeStarted(t, meanwhile);
      var asked := Run(started, a);
      var reading := Run(Step(asked, Probe(Status(k, Some((who, true))))), b);
      var landing := Run(Step(reading, Probe(RecordRead(k, false))), c);
      landing.ctx.generation == started.ctx.generation ==>
        Step(landing, Probe(Lands(k))).ctx.state ==
          if reading.store.Found(who).Some? then Unlocked(SessionKey(reading.store.Found(who).value, who, asked.forgets))
          else Locked
  {
    var k, started := t.nextTask, ProbeStarted(t, meanwhile);
    var asked := Run(started, a);
    var answered := Step(asked, Probe(Status(k, Some((who, true)))));
    RunSameTask(started, a, k);
    ProbeIsAnswered(t, meanwhile, who, a, Some((who, true)));
    RunSameTask(answered, b, k);
    ProbeReads(answered, k, b);
    ProbeLands(Step(Run(answered, b), Probe(RecordRead(k, false))), k, c);
  }
}
