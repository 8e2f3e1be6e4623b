/** When a page comes to rest, and what it has done by then. */
module TabRest {
  import opened Base
  import opened Accounts
  import opened EncryptionState
  import opened Keystore
  import opened Hook
  import opened Tab
  import opened TabTasks
  import opened TabKeeps
  import opened TabQuiet

  /** Nothing the browser could do by itself would change anything. */
  ghost predicate Still(t: Tab) {
    forall e :: Internal(e) ==> Step(t, e) == t
  }

  /** Told without the page's own predicates: what is shown and counted is of the day, user and key there are. */
  ghost predicate UpToDate(t: Tab) {
    && t.ran == Some(Inputs(t.day, if t.user.Some? then Remote else Local, t.ctx.Identity())) && !t.notified
    && t.week.ran == Some((if t.user.Some? then Remote else Local, t.ctx.Identity())) && !t.week.notified
    && !t.userPending && !(t.gate && t.ctx.state == Disabled && t.user.Some?)
  }

  lemma UpToDateIff(t: Tab)
    ensures UpToDate(t) <==> !t.userPending && !LoadDue(t) && !WeekDue(t) && !(t.gate && Gated(t))
  {}

  lemma RestingStep(t: Tab, e: Event)
    requires AtRest(t) && Internal(e)
    ensures Step(t, e) == t
  {}

  /** A page is still exactly when all it started has ended, but for keys in hand, and all it shows is up to date. */
  lemma StillIff(t: Tab)
    requires QuietInv(t) && OpsIssued(t)
    ensures Still(t) <==> t.store.queue == [] && (forall i :: i in t.tasks ==> t.tasks[i].InHand?) && UpToDate(t)
  {
    UpToDateIff(t);
    if AtRest(t) {
      forall e | Internal(e) ensures Step(t, e) == t { RestingStep(t, e); }
    } else {
      SomethingCanMove(t);
    }
  }

  // ------------------------------------------------------- what is not missed

  /** Neither a pick nor an arrival is forgotten before its effect has run. */
  ghost predicate Remembers(t: Tab, u: Tab, e: Event) {
    && u.week.generation >= t.week.generation && u.hook.generation >= t.hook.generation
    && (t.week.notified ==> u.week.notified || u.week.generation > t.week.generation)
    && (t.notified ==> u.notified || u.hook.generation > t.hook.generation)
    && (t.gate ==> u.gate || (e == Effect(GateEffect) && u.ctx.generation == t.ctx.generation + 1))
  }

  lemma UserRemembers(t: Tab, a: UserAct)
    ensures Remembers(t, UserStep(t, a), User(a))
  {}

  lemma LoadRemembers(t: Tab, a: LoadAct)
    ensures Remembers(t, LoadStep(t, a), Load(a))
  {
    if a.WeekArrives? && a.task in t.tasks && t.tasks[a.task].WeekLoading? && a.bodies.Some? {
      WeekReportsOneReason(a.bodies.value, t.tasks[a.task].session);
    }
  }

  lemma EffectRemembers(t: Tab, a: EffectAct)
    ensures Remembers(t, EffectStep(t, a), Effect(a))
  {}

  lemma ProbeRemembers(t: Tab, a: ProbeAct)
    ensures Remembers(t, ProbeStep(t, a), Probe(a))
  {}

  lemma UnlockRemembers(t: Tab, a: UnlockAct)
    ensures Remembers(t, UnlockStep(t, a), Unlock(a))
  {}

  lemma LeaveRemembers(t: Tab, a: LeaveAct)
    ensures Remembers(t, LeaveStep(t, a), Leave(a))
  {}

  lemma EnterRemembers(t: Tab, a: EnterAct)
    ensures Remembers(t, EnterStep(t, a), Enter(a))
  {}

  lemma StepRemembers(t: Tab, e: Event)
    ensures Remembers(t, Step(t, e), e)
  {
    match e
    case User(a) => UserRemembers(t, a);
    case Effect(a) => EffectRemembers(t, a);
    case Probe(a) => ProbeRemembers(t, a);
    case Unlock(a) => UnlockRemembers(t, a);
    case Leave(a) => LeaveRemembers(t, a);
    case Enter(a) => EnterRemembers(t, a);
    case Load(a) => LoadRemembers(t, a);
    case Storage(_) =>
  }

  /** The gate has retried somewhere in the run. */
  predicate GateRetried(t: Tab, events: seq<Event>)
    decreases |events|
  {
    events != [] && ((events[0] == Effect(GateEffect) && Step(t, events[0]).ctx.generation == t.ctx.generation + 1)
                     || GateRetried(Step(t, events[0]), events[1..]))
  }

  lemma {:induction false} RunRemembers(t: Tab, events: seq<Event>)
    ensures var u := Run(t, events);
      && u.week.generation >= t.week.generation && u.hook.generation >= t.hook.generation
      && (t.week.notified ==> u.week.notified || u.week.generation > t.week.generation)
      && (t.notified ==> u.notified || u.hook.generation > t.hook.generation)
      && (t.gate ==> u.gate || GateRetried(t, events))
    decreases |events|
  {
    if events != [] {
      StepRemembers(t, events[0]);
      RunRemembers(Step(t, events[0]), events[1..]);
    }
  }

  /** A page that has come to rest after a day was picked has loaded since, even if it was the day it had. */
  lemma PickedDayIsLoaded(t: Tab, day: Day, events: seq<Event>)
    requires AtRest(Run(Step(t, User(PickDay(day))), events))
    ensures var u := Run(Step(t, User(PickDay(day))), events);
      && u.hook.generation > t.hook.generation
      && (u.ctx.state == Disabled && u.user.Some? ==> GateRetried(Step(t, User(PickDay(day))), events))
  {
    RunRemembers(Step(t, User(PickDay(day))), events);
    UpToDateIff(Run(Step(t, User(PickDay(day))), events));
  }

  /** And so for a week. */
  lemma PickedWeekIsLoaded(t: Tab, events: seq<Event>)
    requires AtRest(Run(Step(t, User(PickWeek)), events))
    ensures var u := Run(Step(t, User(PickWeek)), events);
      && u.week.generation > t.week.generation
      && (u.ctx.state == Disabled && u.user.Some? ==> GateRetried(Step(t, User(PickWeek)), events))
  {
    RunRemembers(Step(t, User(PickWeek)), events);
    UpToDateIff(Run(Step(t, User(PickWeek)), events));
  }

  /** A page that was just opened and has come to rest has asked about its account and, if there is none to use, again. */
  lemma OpenedPageSettles(id: nat, user: Option<Account>, store: Store, day: Day, events: seq<Event>)
    requires AtRest(Run(Opened(id, user, store, day), events))
    ensures var u := Run(Opened(id, user, store, day), events);
      u.ctx.state == Disabled && u.user.Some? ==> GateRetried(Opened(id, user, store, day), events)
  {
    RunRemembers(Opened(id, user, store, day), events);
    UpToDateIff(Run(Opened(id, user, store, day), events));
  }

  /** The day picked last, or the one there was. */
  function LastPicked(day: Day, events: seq<Event>): Day
    decreases |events|
  {
    if events == [] then day
    else
      match events[0]
      case User(PickDay(picked)) => LastPicked(picked, events[1..])
      case _ => LastPicked(day, events[1..])
  }

  lemma StepKeepsDay(t: Tab, e: Event)
    ensures Step(t, e).day == LastPicked(t.day, [e])
  {
    assert [e][1..] == [];
    match e
    case User(a) => ActingSetsDay(t, a);
    case Load(a) => LoadKeepsDay(t, a);
    case _ =>
  }

  lemma ActingSetsDay(t: Tab, a: UserAct)
    ensures UserStep(t, a).day == if a.PickDay? then a.day else t.day
  {}

  lemma LoadKeepsDay(t: Tab, a: LoadAct)
    ensures LoadStep(t, a).day == t.day
  {}

  /** A page is at the day its user picked last, over every run. */
  lemma {:induction false} RunIsAtLastPicked(t: Tab, events: seq<Event>)
    ensures Run(t, events).day == LastPicked(t.day, events)
    decreases |events|
  {
    if events != [] {
      StepKeepsDay(t, events[0]);
      assert [events[0]][1..] == [];
      RunIsAtLastPicked(Step(t, events[0]), events[1..]);
    }
  }

  // ---------------------------------------------------- what effects begin

  /** The entry's effect always has a load in flight after it has run, for the inputs and with the key of that moment. */
  lemma LoadEffectLoads(t: Tab)
    requires t.notified || t.ran != Some(Inputs(t.day, if t.user.Some? then Remote else Local, t.ctx.Identity()))
    ensures var u := Step(t, Effect(LoadEffect));
      && TaskAt(u, t.nextTask) == Some(Loading(u.hook.generation, u.ran.value, KeyOf(t.ctx.state)))
      && u.ran == Some(Inputs(t.day, if t.user.Some? then Remote else Local, t.ctx.Identity()))
  {}

  /** The week's does exactly unless the account has yet to be set up. */
  lemma WeekEffectLoadsIff(t: Tab)
    requires t.week.notified || t.week.ran != Some((if t.user.Some? then Remote else Local, t.ctx.Identity()))
    ensures var u := Step(t, Effect(WeekEffect));
      && u.week.generation == t.week.generation + 1
      && (if t.ctx.state == Disabled && t.user.Some? then u.tasks == t.tasks
          else u.tasks == t.tasks[t.nextTask := WeekLoading(u.week.generation, if t.user.Some? then Remote else Local,
                                                            KeyOf(t.ctx.state))])
  {}

  // --------------------------------------------------- what the buttons do

  lemma {:induction false} NumbersGrow(t: Tab, events: seq<Event>)
    ensures Run(t, events).store.nextOp >= t.store.nextOp
    decreases |events|
  {
    if events != [] {
      StepMoved(t, events[0]);
      NumbersGrow(Step(t, events[0]), events[1..]);
    }
  }

  /** "Lock now" issues the delete at once, and its task waits for just that. */
  lemma LockClears(t: Tab)
    requires t.ctx.state.Locked? || t.ctx.state.Unlocked?
    ensures var u, op := Step(t, User(Lock)), t.store.nextOp;
      && u.ctx.state == Locked && u.forgets == t.forgets + 1
      && u.store == t.store.Issued(Clear(op, Writer(t.id, t.forgets + 1)))
      && u.tasks == t.tasks[t.nextTask := Clearing(op, t.forgets + 1)]
  {}

  /**
   A sign-out forgets, waits until the delete has ended, asks the server and
   clears the user, whatever else the page goes through in between.
   */
  lemma SignOutGoesThrough(t: Tab, a: seq<Event>, b: seq<Event>, c: seq<Event>)
    requires t.user.Some?
    requires Untouched(a, t.nextTask) && Untouched(b, t.nextTask) && Untouched(c, t.nextTask)
    ensures var k, asked := t.nextTask, Run(Step(t, User(SignOut)), a);
      var forgetting := Step(asked, Leave(Forgets(k)));
      var waiting := Run(forgetting, b);
      && forgetting.store == asked.store.Issued(Clear(asked.store.nextOp, Writer(asked.id, asked.forgets + 1)))
      && forgetting.forgets == asked.forgets + 1
      && (!Queued(waiting.store, asked.store.nextOp) ==>
            var ending := Run(Step(waiting, Leave(KeyGone(k))), c);
            var gone := Step(ending, Leave(Logout(k, true)));
            gone.user == None && gone.userPending && gone.notified && Step(ending, Leave(Logout(k, false))).user == ending.user)
  {
    var k, left := t.nextTask, Step(t, User(SignOut));
    SignOutBegins(t);
    RunSameTask(left, a, k);
    var asked := Run(left, a);
    var forgetting := Step(asked, Leave(Forgets(k)));
    SignOutForgets(asked, k);
    RunSameTask(forgetting, b, k);
    NumbersGrow(forgetting, b);
    var waiting := Run(forgetting, b);
    if !Queued(waiting.store, asked.store.nextOp) {
      KeyIsGone(waiting, k, asked.store.nextOp, asked.forgets + 1);
      RunSameTask(Step(waiting, Leave(KeyGone(k))), c, k);
      LoggedOut(Run(Step(waiting, Leave(KeyGone(k))), c), k);
    }
  }

  lemma SignOutBegins(t: Tab)
    requires t.user.Some?
    ensures var u := Step(t, User(SignOut)); TaskAt(u, t.nextTask) == Some(SignOutBegun) && u.nextTask == t.nextTask + 1
  {}

  lemma SignOutForgets(t: Tab, i: nat)
    requires i in t.tasks && t.tasks[i] == SignOutBegun && i < t.nextTask
    ensures var u := Step(t, Leave(Forgets(i)));
      && u.store == t.store.Issued(Clear(t.store.nextOp, Writer(t.id, t.forgets + 1))) && u.forgets == t.forgets + 1
      && TaskAt(u, i) == Some(SignOutClearing(t.store.nextOp, t.forgets + 1)) && i < u.nextTask
  {}

  lemma LoggedOut(t: Tab, i: nat)
    requires i in t.tasks && t.tasks[i] == SignOutEnding
    ensures var u := Step(t, Leave(Logout(i, true))); u.user == None && u.userPending && u.notified
    ensures Step(t, Leave(Logout(i, false))).user == t.user
  {}

  lemma KeyIsGone(t: Tab, i: nat, op: nat, count: nat)
    requires i in t.tasks && t.tasks[i] == SignOutClearing(op, count) && i < t.nextTask
    requires op < t.store.nextOp && !Queued(t.store, op)
    ensures var u := Step(t, Leave(KeyGone(i))); i in u.tasks && u.tasks[i] == SignOutEnding && i < u.nextTask
  {
    assert t.store.Settled(op);
  }
}
