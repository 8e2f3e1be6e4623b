/**
 One page load as a state machine. Every await is a step boundary: a task holds
 what its asynchronous function carried across, and any task may go next.
 */
module Tab {
  import opened Base
  import opened Crypto
  import opened Accounts
  import opened EncryptionState
  import opened EncryptionCtx
  import opened Keystore
  import opened Hook

  datatype Task =
    | ProbeStatus(token: nat, who: Account)
    | ProbeRestore(token: nat, who: Account, captured: nat)
    | ProbeRestored(token: nat, who: Account, captured: nat, found: Option<Dek>)
    | Ceremony(who: Account, captured: nat)
    | InHand(key: SessionKey)
    | UnlockWriting(key: SessionKey, token: nat, op: nat)
    | Clearing(op: nat, count: nat)
    | SignOutBegun
    | SignOutClearing(op: nat, count: nat)
    | SignOutEnding
    | SignIn(captured: nat)
    | SignInWriting(op: nat)
    | Loading(token: nat, inputs: Inputs, session: Option<SessionKey>)
    | WeekLoading(token: nat, backend: Backend, session: Option<SessionKey>)

  /** The week view's loading effect: its counter, and the backend and key it last ran with. */
  datatype WeekLoad = WeekLoad(generation: nat, ran: Option<(Backend, KeyIdentity)>, notified: bool)

  /** `gate`: the view is one that mounts the setup gate, which leaves for another page as it retries. */
  datatype Tab = Tab(id: nat, user: Option<Account>, userPending: bool, ctx: Ctx, forgets: nat, store: Store,
                     hook: HookState, day: Day, ran: Option<Inputs>, notified: bool, week: WeekLoad, gate: bool,
                     tasks: map<nat, Task>, nextTask: nat)

  /** What the user does. */
  datatype UserAct = Retry | Lock | SignOut | BeginCeremony | BeginSignIn | UseKey(task: nat) | Type(text: string)
                   | PickDay(day: Day) | PickWeek

  /** Effects re-run: the probe's, the setup gate's, the entry's load and the week's. */
  datatype EffectAct = ProbeEffect | GateEffect | LoadEffect | WeekEffect

  /** A probe's three resumptions. */
  datatype ProbeAct = Status(task: nat, answer: Option<(Account, bool)>) | RecordRead(task: nat, failed: bool)
                    | Lands(task: nat)

  /** An unlock ceremony ends, and `unlock` comes back from its keystore write. */
  datatype UnlockAct = Fails(task: nat) | Opens(task: nat, dek: Dek) | Holds(task: nat, dek: Dek) | Written(task: nat)

  /** The far sides of locking and signing out. */
  datatype LeaveAct = Cleared(task: nat) | Forgets(task: nat) | KeyGone(task: nat) | Logout(task: nat, ok: bool)

  /** And of the unlock that follows a sign-in. */
  datatype EnterAct = SignInOpens(task: nat, who: Account, dek: Dek) | SignInEnds(task: nat)

  /** A day's row, or a week's, has come back. */
  datatype LoadAct = Arrives(task: nat, fetched: Fetched) | WeekArrives(task: nat, bodies: Option<seq<Body>>)

  /** The keystore's oldest transaction ends, or another page load issues one of its own. */
  datatype StoreAct = Completes | Aborts | Foreign(op: Op)

  datatype Event = User(user: UserAct) | Effect(effect: EffectAct) | Probe(probe: ProbeAct) | Unlock(unlock: UnlockAct)
                 | Leave(leave: LeaveAct) | Enter(enter: EnterAct) | Load(load: LoadAct) | Storage(storage: StoreAct)

  /** Nothing the user, or another page load, decides. */
  predicate Internal(e: Event) {
    match e
    case User(_) => false
    case Storage(a) => !a.Foreign?
    case _ => true
  }

  function InputsOf(t: Tab): Inputs {
    Inputs(t.day, BackendOf(t.user), t.ctx.Identity())
  }

  /** The loading effect has something to run for. */
  predicate LoadDue(t: Tab) {
    t.notified || t.ran != Some(InputsOf(t))
  }

  predicate WeekDue(t: Tab) {
    t.week.notified || t.week.ran != Some((BackendOf(t.user), t.ctx.Identity()))
  }

  /** The account has to be set up before this page can save anything. */
  predicate Gated(t: Tab) {
    WritesOf(t.ctx.state, BackendOf(t.user)).SetupRequired?
  }

  function Opened(id: nat, user: Option<Account>, store: Store, day: Day): Tab {
    Tab(id, user, true, InitialCtx(user), 0, store, HookState(None, 0), day, None, false,
        WeekLoad(0, None, false), true, map[], 0)
  }

  function TaskAt(t: Tab, i: nat): Option<Task> {
    if i in t.tasks then Some(t.tasks[i]) else None
  }

  function Spawned(t: Tab, task: Task): Tab {
    t.(tasks := t.tasks[t.nextTask := task], nextTask := t.nextTask + 1)
  }

  function Dropped(t: Tab, i: nat): Tab {
    t.(tasks := t.tasks - {i})
  }

  function Continued(t: Tab, i: nat, task: Task): Tab {
    t.(tasks := t.tasks[i := task])
  }

  function ProbeStarted(t: Tab, meanwhile: State): Tab {
    var c := t.ctx.Probing(t.user, meanwhile);
    if t.user.None? then t.(ctx := c)
    else Spawned(t.(ctx := c), ProbeStatus(c.generation, t.user.value))
  }

  function RowSeen(t: Tab, row: UnreadableRow): Tab {
    if !t.ctx.StartsReprobe(row) then t
    else
      ProbeStarted(t.(ctx := t.ctx.(reprobed := t.ctx.reprobed || row.UnopenableRow?)),
                   ContradictedBy(row, t.ctx.state).value)
  }

  /** `EncryptionCtx::unlock`, from the call to its first await (or to its end, with nothing to await). */
  function UnlockCalled(t: Tab, key: SessionKey): Tab {
    if t.user != Some(key.user) then t
    else
      var c := t.ctx.Begun().Published(Locked);
      if key.forgets != t.forgets then t.(ctx := c.Landed(c.generation, Unlocked(key)))
      else
        var op := t.store.nextOp;
        var put := Put(op, Record(key.user, key.dek, Writer(t.id, key.forgets)));
        Spawned(t.(ctx := c, store := t.store.Issued(put)), UnlockWriting(key, c.generation, op))
  }

  function Forgotten(t: Tab): Tab {
    t.(forgets := t.forgets + 1, store := t.store.Issued(Clear(t.store.nextOp, Writer(t.id, t.forgets + 1))))
  }

  function LoadDone(t: Tab, token: nat, session: Option<SessionKey>, fetched: Fetched): Tab {
    if token != t.hook.generation then t
    else
      var loaded := LoadedValue(fetched, session);
      var shown := t.(hook := t.hook.Finished(token, loaded, t.ctx.StartsReprobe(UnopenableRow)));
      match loaded
      case Value(_) => shown
      case WasSealed => RowSeen(shown, SealedRow)
      case WasUnopenable => RowSeen(shown, UnopenableRow)
  }

  /** What a week is missing rows for is what is reported. */
  function WeekDone(t: Tab, token: nat, session: Option<SessionKey>, bodies: Option<seq<Body>>): Tab {
    if token != t.week.generation || bodies.None? then t
    else
      var s := if AnySealed(bodies.value, session) then RowSeen(t, SealedRow) else t;
      if AnyUnopenable(bodies.value, session) then RowSeen(s, UnopenableRow) else s
  }

  // An event nobody is waiting for does nothing.

  function UserStep(t: Tab, a: UserAct): Tab {
    match a
    case Retry => ProbeStarted(t, Unknown)
    case Lock =>
      // the panel offers it only for an account it shows as encrypted
      if !t.ctx.state.Locked? && !t.ctx.state.Unlocked? then t
      else
        Spawned(Forgotten(t.(ctx := t.ctx.Begun().Published(Locked))), Clearing(t.store.nextOp, t.forgets + 1))
    case SignOut => if t.user.None? then t else Spawned(t.(ctx := t.ctx.Begun()), SignOutBegun)
    case BeginCeremony => if t.user.None? then t else Spawned(t, Ceremony(t.user.value, t.forgets))
    case BeginSignIn => Spawned(t, SignIn(t.forgets))
    case UseKey(i) =>
      (match TaskAt(t, i)
       case Some(InHand(key)) => UnlockCalled(Dropped(t, i), key)
       case _ => t)
    case Type(text) => t.(hook := t.hook.Typed(text))
    case PickDay(day) => t.(day := day, notified := true, gate := true)
    case PickWeek => t.(week := t.week.(notified := true), gate := true)
  }

  function EffectStep(t: Tab, a: EffectAct): Tab {
    match a
    case ProbeEffect => if t.userPending then ProbeStarted(t.(userPending := false), Unknown) else t
    case GateEffect => if t.gate && Gated(t) then ProbeStarted(t.(gate := false), Unknown) else t
    case LoadEffect =>
      if !LoadDue(t) then t
      else
        var hook := t.hook.Reran();
        Spawned(t.(hook := hook, ran := Some(InputsOf(t)), notified := false),
                Loading(hook.generation, InputsOf(t), KeyOf(t.ctx.state)))
    case WeekEffect =>
      if !WeekDue(t) then t
      else
        var week := WeekLoad(t.week.generation + 1, Some((BackendOf(t.user), t.ctx.Identity())), false);
        if Gated(t) then t.(week := week)
        else Spawned(t.(week := week), WeekLoading(week.generation, BackendOf(t.user), KeyOf(t.ctx.state)))
  }

  function ProbeStep(t: Tab, a: ProbeAct): Tab {
    match a
    case Status(i, answer) =>
      (match TaskAt(t, i)
       case Some(ProbeStatus(token, who)) => StatusAnswered(t, i, token, who, answer)
       case _ => t)
    case RecordRead(i, failed) =>
      (match TaskAt(t, i)
       case Some(ProbeRestore(token, who, captured)) =>
         if failed then Continued(t, i, ProbeRestored(token, who, captured, None))
         else Continued(t.(store := t.store.AfterGet(who, Writer(t.id, t.forgets))), i,
                        ProbeRestored(token, who, captured, t.store.Found(who)))
       case _ => t)
    case Lands(i) =>
      (match TaskAt(t, i)
       case Some(ProbeRestored(token, who, captured, found)) =>
         Dropped(t, i).(ctx := t.ctx.Landed(token,
           if found.Some? then Unlocked(SessionKey(found.value, who, captured)) else Locked))
       case _ => t)
  }

  function StatusAnswered(t: Tab, i: nat, token: nat, who: Account, answer: Option<(Account, bool)>): Tab {
    if answer.None? then Dropped(t, i).(ctx := t.ctx.Landed(token, Unreachable))
    else
      match AnswerFor(answer.value.0, answer.value.1, who)
      case WrongAccount => Dropped(t, i).(ctx := t.ctx.Landed(token, Unreachable))
      case NotEncryptedAccount => Dropped(t, i).(ctx := t.ctx.Landed(token, Disabled))
      case NeedsKey => Continued(t, i, ProbeRestore(token, who, t.forgets))
  }

  function UnlockStep(t: Tab, a: UnlockAct): Tab {
    match a
    case Fails(i) =>
      (match TaskAt(t, i)
       case Some(Ceremony(_, _)) => Dropped(t, i)
       case _ => t)
    case Opens(i, dek) =>
      (match TaskAt(t, i)
       case Some(Ceremony(who, captured)) => UnlockCalled(Dropped(t, i), SessionKey(dek, who, captured))
       case _ => t)
    case Holds(i, dek) =>
      (match TaskAt(t, i)
       case Some(Ceremony(who, captured)) => Continued(t, i, InHand(SessionKey(dek, who, captured)))
       case _ => t)
    case Written(i) =>
      (match TaskAt(t, i)
       case Some(UnlockWriting(key, token, op)) =>
         if !t.store.Settled(op) then t
         else if t.user != Some(key.user) then Continued(Forgotten(t), i, Clearing(t.store.nextOp, t.forgets + 1))
         else Dropped(t, i).(ctx := t.ctx.Landed(token, Unlocked(key)))
       case _ => t)
  }

  function LeaveStep(t: Tab, a: LeaveAct): Tab {
    match a
    case Cleared(i) =>
      (match TaskAt(t, i)
       case Some(Clearing(op, _)) => if t.store.Settled(op) then Dropped(t, i) else t
       case _ => t)
    case Forgets(i) =>
      (match TaskAt(t, i)
       case Some(SignOutBegun) => Continued(Forgotten(t), i, SignOutClearing(t.store.nextOp, t.forgets + 1))
       case _ => t)
    case KeyGone(i) =>
      (match TaskAt(t, i)
       case Some(SignOutClearing(op, _)) => if t.store.Settled(op) then Continued(t, i, SignOutEnding) else t
       case _ => t)
    case Logout(i, ok) =>
      (match TaskAt(t, i)
       case Some(SignOutEnding) =>
         if ok then Dropped(t, i).(user := None, userPending := true, notified := true) else Dropped(t, i)
       case _ => t)
  }

  function EnterStep(t: Tab, a: EnterAct): Tab {
    match a
    case SignInOpens(i, who, dek) =>
      (match TaskAt(t, i)
       case Some(SignIn(captured)) =>
         if captured != t.forgets then Dropped(t, i)
         else
           var put := Put(t.store.nextOp, Record(who, dek, Writer(t.id, captured)));
           Continued(t.(store := t.store.Issued(put)), i, SignInWriting(t.store.nextOp))
       case _ => t)
    case SignInEnds(i) =>
      (match TaskAt(t, i)
       case Some(SignIn(_)) => Dropped(t, i)
       case Some(SignInWriting(op)) => if t.store.Settled(op) then Dropped(t, i) else t
       case _ => t)
  }

  function LoadStep(t: Tab, a: LoadAct): Tab {
    match a
    case Arrives(i, fetched) =>
      (match TaskAt(t, i)
       case Some(Loading(token, _, session)) => LoadDone(Dropped(t, i), token, session, fetched)
       case _ => t)
    case WeekArrives(i, bodies) =>
      (match TaskAt(t, i)
       case Some(WeekLoading(token, _, session)) => WeekDone(Dropped(t, i), token, session, bodies)
       case _ => t)
  }

  function StoreStep(t: Tab, a: StoreAct): Tab {
    match a
    case Completes => if t.store.queue != [] then t.(store := t.store.Committed()) else t
    case Aborts => if t.store.queue != [] then t.(store := t.store.Aborted()) else t
    case Foreign(op) =>
      if IssuedBy(op).page != t.id && op.id == t.store.nextOp then t.(store := t.store.Issued(op)) else t
  }

  function Step(t: Tab, e: Event): Tab {
    match e
    case User(a) => UserStep(t, a)
    case Effect(a) => EffectStep(t, a)
    case Probe(a) => ProbeStep(t, a)
    case Unlock(a) => UnlockStep(t, a)
    case Leave(a) => LeaveStep(t, a)
    case Enter(a) => EnterStep(t, a)
    case Load(a) => LoadStep(t, a)
    case Storage(a) => StoreStep(t, a)
  }

  function Run(t: Tab, events: seq<Event>): Tab
    decreases |events|
  {
    if events == [] then t else Run(Step(t, events[0]), events[1..])
  }

  // ----------------------------------------------- the context's own steps

  /** The page's context moves as the class does, and a probe is spawned exactly when the class hands out a token. */
  lemma TabFollowsTheContext(t: Tab, meanwhile: State, row: UnreadableRow)
    ensures ProbeStarted(t, meanwhile).ctx == t.ctx.Probing(t.user, meanwhile)
    ensures RowSeen(t, row).ctx == t.ctx.AfterRow(t.user, row)
    ensures RowSeen(t, row).tasks ==
            if t.ctx.StartsReprobe(row) && t.user.Some?
            then t.tasks[t.nextTask := ProbeStatus(t.ctx.AfterRow(t.user, row).generation, t.user.value)]
            else t.tasks
  {}

  /** A short week is short for one reason: without a key no row is unopenable, with one none is sealed. */
  lemma WeekReportsOneReason(bodies: seq<Body>, session: Option<SessionKey>)
    ensures !(AnySealed(bodies, session) && AnyUnopenable(bodies, session))
    ensures AnySealed(bodies, session) ==> session.None?
    ensures AnyUnopenable(bodies, session) ==> session.Some?
  {}

  // ---------------------------------------------------------------- tokens

  function TokenOf(task: Task): Option<nat> {
    match task
    case ProbeStatus(token, _) => Some(token)
    case ProbeRestore(token, _, _) => Some(token)
    case ProbeRestored(token, _, _, _) => Some(token)
    case UnlockWriting(_, token, _) => Some(token)
    case _ => None
  }
}
