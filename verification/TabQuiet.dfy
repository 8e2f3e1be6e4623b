/**
 The load, unreadable-row, re-probe, reload cycle ends: with no further input
 from the user every step uses up some of a fixed supply, whatever the stored
 rows look like.
 */
module TabQuiet {
  import opened Base
  import opened Crypto
  import opened Accounts
  import opened EncryptionState
  import opened Keystore
  import opened Hook
  import opened Tab
  import opened TabTokens

  /** How much a task can still set in motion. */
  function Weight(task: Task): nat {
    match task
    case ProbeStatus(_, _) => 8
    case ProbeRestore(_, _, _) => 7
    case ProbeRestored(_, _, _, _) => 5
    case Ceremony(_, _) => 27
    case InHand(_) => 1
    case UnlockWriting(_, _, _) => 5
    case Clearing(_, _) => 1
    case SignOutBegun => 53
    case SignOutClearing(_, _) => 51
    case SignOutEnding => 50
    case SignIn(_) => 3
    case SignInWriting(_) => 1
    case Loading(_, _, session) => if session.None? then 9 else 1
    case WeekLoading(_, _, session) => if session.None? then 9 else 1
  }

  function Weigh(tasks: map<nat, Task>, n: nat): nat {
    if n == 0 then 0
    else Weigh(tasks, n - 1) + if n - 1 in tasks then Weight(tasks[n - 1]) else 0
  }

  /** What the two loaders have yet to run for: less while there is a key, since a keyed load asks for no probe twice. */
  function DueWeight(t: Tab): nat {
    var each := if t.ctx.state.Unlocked? then 2 else 10;
    (if LoadDue(t) then each else 0) + (if WeekDue(t) then each else 0)
  }

  /** The supply that runs out. */
  function Measure(t: Tab): nat {
    Weigh(t.tasks, t.nextTask) + |t.store.queue| + DueWeight(t)
    + (if t.userPending then 29 else 0) + (if t.ctx.reprobed then 0 else 28) + (if t.gate then 9 else 0)
  }

  lemma {:induction false} WeighSame(a: map<nat, Task>, b: map<nat, Task>, n: nat)
    requires forall i :: 0 <= i < n ==> (i in a <==> i in b) && (i in a ==> a[i] == b[i])
    ensures Weigh(a, n) == Weigh(b, n)
  {
    if n > 0 { WeighSame(a, b, n - 1); }
  }

  lemma {:induction false} WeighUpdate(tasks: map<nat, Task>, n: nat, i: nat, task: Task)
    requires i < n && i in tasks
    ensures Weigh(tasks[i := task], n) + Weight(tasks[i]) == Weigh(tasks, n) + Weight(task)
  {
    if i == n - 1 {
      WeighSame(tasks[i := task], tasks, n - 1);
    } else {
      WeighUpdate(tasks, n - 1, i, task);
    }
  }

  lemma {:induction false} WeighDrop(tasks: map<nat, Task>, n: nat, i: nat)
    requires i < n && i in tasks
    ensures Weigh(tasks - {i}, n) + Weight(tasks[i]) == Weigh(tasks, n)
  {
    if i == n - 1 {
      WeighSame(tasks - {i}, tasks, n - 1);
    } else {
      WeighDrop(tasks, n - 1, i);
    }
  }

  lemma WeighSpawn(tasks: map<nat, Task>, n: nat, task: Task)
    ensures Weigh(tasks[n := task], n + 1) == Weigh(tasks, n) + Weight(task)
  {
    WeighSame(tasks[n := task], tasks, n);
  }

  // ------------------------------------------------------------ invariants

  ghost predicate TokensDistinct(t: Tab) {
    forall i, j :: i in t.tasks && j in t.tasks && i != j && TokenOf(t.tasks[i]).Some? ==>
      TokenOf(t.tasks[i]) != TokenOf(t.tasks[j])
  }

  /** Whoever may publish finds no key published yet. */
  ghost predicate NewestFindsNoKey(t: Tab) {
    forall i :: i in t.tasks && TokenOf(t.tasks[i]) == Some(t.ctx.generation) ==> !t.ctx.state.Unlocked?
  }

  ghost predicate QuietInv(t: Tab) {
    TokenInv(t) && TokensDistinct(t) && NewestFindsNoKey(t)
  }

  lemma MovesKeepDistinct(t: Tab, u: Tab, bearer: Option<nat>)
    requires TokenInv(t) && TokensDistinct(t) && Moves(t, u, bearer)
    ensures TokensDistinct(u)
  {}

  lemma StepKeepsQuiet(t: Tab, e: Event)
    requires QuietInv(t)
    ensures QuietInv(Step(t, e))
  {
    var u := Step(t, e);
    StepMoves(t, e);
    StepKeepsTokens(t, e);
    MovesKeepDistinct(t, u, Bearer(e));
  }

  // ---------------------------------------------------------- the decrease

  lemma ProbeStartedCosts(t: Tab, meanwhile: State)
    requires !meanwhile.Unlocked?
    ensures Measure(ProbeStarted(t, meanwhile)) <= Measure(t) + 8 + 20 - DueWeight(t)
    ensures !t.ctx.state.Unlocked? ==> Measure(ProbeStarted(t, meanwhile)) <= Measure(t) + 8
  {
    var c := t.ctx.Probing(t.user, meanwhile);
    WeighSpawn(t.tasks, t.nextTask, ProbeStatus(c.generation, if t.user.Some? then t.user.value else 0));
  }

  lemma SealedRowCosts(t: Tab)
    ensures Measure(RowSeen(t, SealedRow)) <= Measure(t) + 8
  {
    if t.ctx.StartsReprobe(SealedRow) {
      ProbeStartedCosts(t, Locked);
    }
  }

  lemma UnopenableRowCosts(t: Tab)
    ensures Measure(RowSeen(t, UnopenableRow)) <= Measure(t)
  {
    if t.ctx.StartsReprobe(UnopenableRow) {
      var marked := t.(ctx := t.ctx.(reprobed := true));
      assert Measure(marked) + 28 == Measure(t) && DueWeight(marked) == DueWeight(t);
      ProbeStartedCosts(marked, Unknown);
    }
  }

  lemma UnlockCalledCosts(t: Tab, key: SessionKey)
    ensures Measure(UnlockCalled(t, key)) <= Measure(t) + 26
  {
    if t.user == Some(key.user) && key.forgets == t.forgets {
      UnlockWritingCosts(t, key);
    }
  }

  lemma UnlockWritingCosts(t: Tab, key: SessionKey)
    requires t.user == Some(key.user) && key.forgets == t.forgets
    ensures Measure(UnlockCalled(t, key)) <= Measure(t) + 26
  {
    var c := t.ctx.Begun().Published(Locked);
    WeighSpawn(t.tasks, t.nextTask, UnlockWriting(key, c.generation, t.store.nextOp));
  }

  lemma DroppedCosts(t: Tab, i: nat)
    requires TokenInv(t) && i in t.tasks
    ensures Measure(Dropped(t, i)) + Weight(t.tasks[i]) == Measure(t)
  {
    WeighDrop(t.tasks, t.nextTask, i);
  }

  lemma ContinuedCosts(t: Tab, i: nat, task: Task)
    requires TokenInv(t) && i in t.tasks
    ensures Measure(Continued(t, i, task)) + Weight(t.tasks[i]) == Measure(t) + Weight(task)
  {
    WeighUpdate(t.tasks, t.nextTask, i, task);
  }

  /** Publishing a key where there was none costs at most one keyed load of each loader. */
  lemma LandedCosts(t: Tab, token: nat, state: State)
    requires token == t.ctx.generation ==> !t.ctx.state.Unlocked?
    ensures Measure(t.(ctx := t.ctx.Landed(token, state))) <= Measure(t) + if state.Unlocked? then 4 else 0
  {}

  lemma LoadDoneCosts(t: Tab, token: nat, session: Option<SessionKey>, fetched: Fetched)
    ensures Measure(LoadDone(t, token, session, fetched)) <= Measure(t) + if session.None? then 8 else 0
  {
    var loaded := LoadedValue(fetched, session);
    var shown := t.(hook := t.hook.Finished(token, loaded, t.ctx.StartsReprobe(UnopenableRow)));
    assert Measure(shown) == Measure(t);
    SealedRowCosts(shown);
    UnopenableRowCosts(shown);
  }

  lemma EffectStepShrinks(t: Tab, a: EffectAct)
    requires EffectStep(t, a) != t
    ensures Measure(EffectStep(t, a)) < Measure(t)
  {
    match a
    case ProbeEffect => ProbeStartedCosts(t.(userPending := false), Unknown);
    case GateEffect => ProbeStartedCosts(t.(gate := false), Unknown);
    case LoadEffect =>
      WeighSpawn(t.tasks, t.nextTask, Loading(t.hook.Reran().generation, InputsOf(t), KeyOf(t.ctx.state)));
    case WeekEffect =>
      WeighSpawn(t.tasks, t.nextTask, WeekLoading(t.week.generation + 1, BackendOf(t.user), KeyOf(t.ctx.state)));
  }

  lemma ProbeStepShrinks(t: Tab, a: ProbeAct)
    requires QuietInv(t) && ProbeStep(t, a) != t
    ensures Measure(ProbeStep(t, a)) < Measure(t)
  {
    match a
    case Status(i, answer) =>
      var task, left := t.tasks[i], Dropped(t, i);
      DroppedCosts(t, i);
      LandedCosts(left, task.token, Unreachable);
      LandedCosts(left, task.token, Disabled);
      ContinuedCosts(t, i, ProbeRestore(task.token, task.who, t.forgets));
    case RecordRead(i, failed) =>
      var task := t.tasks[i];
      var found := if failed then None else t.store.Found(task.who);
      var read := t.(store := if failed then t.store else t.store.AfterGet(task.who, Writer(t.id, t.forgets)));
      assert Measure(read) <= Measure(t) + 1;
      ContinuedCosts(read, i, ProbeRestored(task.token, task.who, task.captured, found));
    case Lands(i) =>
      var task := t.tasks[i];
      DroppedCosts(t, i);
      LandedCosts(Dropped(t, i), task.token,
        if task.found.Some? then Unlocked(SessionKey(task.found.value, task.who, task.captured)) else Locked);
  }

  lemma UnlockStepShrinks(t: Tab, a: UnlockAct)
    requires QuietInv(t) && UnlockStep(t, a) != t
    ensures Measure(UnlockStep(t, a)) < Measure(t)
  {
    match a
    case Fails(i) => DroppedCosts(t, i);
    case Opens(i, dek) =>
      DroppedCosts(t, i);
      UnlockCalledCosts(Dropped(t, i), SessionKey(dek, t.tasks[i].who, t.tasks[i].captured));
    case Holds(i, dek) => ContinuedCosts(t, i, InHand(SessionKey(dek, t.tasks[i].who, t.tasks[i].captured)));
    case Written(i) =>
      var task := t.tasks[i];
      DroppedCosts(t, i);
      LandedCosts(Dropped(t, i), task.token, Unlocked(task.key));
      ForgottenCosts(t);
      ContinuedCosts(Forgotten(t), i, Clearing(t.store.nextOp, t.forgets + 1));
  }

  lemma ForgottenCosts(t: Tab)
    ensures Measure(Forgotten(t)) == Measure(t) + 1
  {}

  lemma SignInOpensCosts(t: Tab, i: nat, put: Op)
    requires TokenInv(t) && i in t.tasks && t.tasks[i].SignIn?
    ensures Measure(Continued(t.(store := t.store.Issued(put)), i, SignInWriting(t.store.nextOp))) < Measure(t)
  {
    var issued := t.(store := t.store.Issued(put));
    assert Measure(issued) == Measure(t) + 1;
    ContinuedCosts(issued, i, SignInWriting(t.store.nextOp));
  }

  lemma LeaveStepShrinks(t: Tab, a: LeaveAct)
    requires QuietInv(t) && LeaveStep(t, a) != t
    ensures Measure(LeaveStep(t, a)) < Measure(t)
  {
    match a
    case Cleared(i) => DroppedCosts(t, i);
    case Forgets(i) =>
      ForgottenCosts(t);
      ContinuedCosts(Forgotten(t), i, SignOutClearing(t.store.nextOp, t.forgets + 1));
    case KeyGone(i) => ContinuedCosts(t, i, SignOutEnding);
    case Logout(i, ok) => DroppedCosts(t, i);
  }

  lemma EnterStepShrinks(t: Tab, a: EnterAct)
    requires QuietInv(t) && EnterStep(t, a) != t
    ensures Measure(EnterStep(t, a)) < Measure(t)
  {
    match a
    case SignInOpens(i, who, dek) =>
      DroppedCosts(t, i);
      SignInOpensCosts(t, i, Put(t.store.nextOp, Record(who, dek, Writer(t.id, t.tasks[i].captured))));
    case SignInEnds(i) => DroppedCosts(t, i);
  }

  lemma LoadStepShrinks(t: Tab, a: LoadAct)
    requires QuietInv(t) && LoadStep(t, a) != t
    ensures Measure(LoadStep(t, a)) < Measure(t)
  {
    match a
    case Arrives(i, fetched) =>
      DroppedCosts(t, i);
      LoadDoneCosts(Dropped(t, i), t.tasks[i].token, t.tasks[i].session, fetched);
    case WeekArrives(i, bodies) =>
      DroppedCosts(t, i);
      WeekDoneCosts(Dropped(t, i), t.tasks[i].token, t.tasks[i].session, bodies);
  }

  lemma WeekDoneCosts(t: Tab, token: nat, session: Option<SessionKey>, bodies: Option<seq<Body>>)
    ensures Measure(WeekDone(t, token, session, bodies)) <= Measure(t) + if session.None? then 8 else 0
  {
    if bodies.Some? {
      WeekReportsOneReason(bodies.value, session);
      SealedRowCosts(t);
      UnopenableRowCosts(t);
    }
  }

  /** Everything the browser does by itself uses up some of the supply. */
  lemma InternalStepShrinks(t: Tab, e: Event)
    requires QuietInv(t) && Internal(e) && Step(t, e) != t
    ensures Measure(Step(t, e)) < Measure(t)
  {
    match e
    case Effect(a) => EffectStepShrinks(t, a);
    case Probe(a) => ProbeStepShrinks(t, a);
    case Unlock(a) => UnlockStepShrinks(t, a);
    case Leave(a) => LeaveStepShrinks(t, a);
    case Enter(a) => EnterStepShrinks(t, a);
    case Load(a) => LoadStepShrinks(t, a);
    case Storage(_) =>
  }

  /** A run in which every event is the browser's own and does something. */
  ghost predicate Busy(t: Tab, events: seq<Event>)
    decreases |events|
  {
    events == [] || (Internal(events[0]) && Step(t, events[0]) != t && Busy(Step(t, events[0]), events[1..]))
  }

  /** So it cannot go on for longer than the supply lasts. */
  lemma {:induction false} BusyRunsEnd(t: Tab, events: seq<Event>)
    requires QuietInv(t) && Busy(t, events)
    ensures |events| <= Measure(t)
    decreases |events|
  {
    if events != [] {
      InternalStepShrinks(t, events[0]);
      StepKeepsQuiet(t, events[0]);
      BusyRunsEnd(Step(t, events[0]), events[1..]);
    }
  }

  /** Nothing is left to do but to wait for the user. */
  ghost predicate AtRest(t: Tab) {
    && !t.userPending && !LoadDue(t) && !WeekDue(t) && !(t.gate && Gated(t)) && t.store.queue == []
    && forall i :: i in t.tasks ==> t.tasks[i].InHand?
  }

  ghost predicate OpsIssued(t: Tab) {
    forall i :: i in t.tasks ==>
      match t.tasks[i]
      case UnlockWriting(_, _, op) => op < t.store.nextOp
      case Clearing(op, _) => op < t.store.nextOp
      case SignOutClearing(op, _) => op < t.store.nextOp
      case SignInWriting(op) => op < t.store.nextOp
      case _ => true
  }

  lemma StepKeepsOps(t: Tab, e: Event)
    requires OpsIssued(t)
    ensures OpsIssued(Step(t, e))
  {
    match e
    case User(a) => UserKeepsOps(t, a);
    case Effect(a) => EffectKeepsOps(t, a);
    case Probe(a) => ProbeKeepsOps(t, a);
    case Unlock(a) => UnlockKeepsOps(t, a);
    case Leave(a) => LeaveKeepsOps(t, a);
    case Enter(a) => EnterKeepsOps(t, a);
    case Load(a) => LoadKeepsOps(t, a);
    case Storage(_) =>
  }

  lemma UnlockCalledKeepsOps(t: Tab, i: nat, key: SessionKey)
    requires OpsIssued(t)
    ensures OpsIssued(UnlockCalled(Dropped(t, i), key))
  {}

  lemma ForgottenKeepsOps(t: Tab)
    requires OpsIssued(t)
    ensures OpsIssued(Forgotten(t))
  {}

  lemma UserKeepsOps(t: Tab, a: UserAct)
    requires OpsIssued(t)
    ensures OpsIssued(UserStep(t, a))
  {
    match a
    case UseKey(i) => if i in t.tasks && t.tasks[i].InHand? { UnlockCalledKeepsOps(t, i, t.tasks[i].key); }
    case Lock => ForgottenKeepsOps(t.(ctx := t.ctx.Begun().Published(Locked)));
    case _ =>
  }

  lemma EffectKeepsOps(t: Tab, a: EffectAct)
    requires OpsIssued(t)
    ensures OpsIssued(EffectStep(t, a))
  {}

  lemma EnterKeepsOps(t: Tab, a: EnterAct)
    requires OpsIssued(t)
    ensures OpsIssued(EnterStep(t, a))
  {}

  lemma ProbeKeepsOps(t: Tab, a: ProbeAct)
    requires OpsIssued(t)
    ensures OpsIssued(ProbeStep(t, a))
  {
    match a
    case Status(i, answer) => StatusKeepsOps(t, i, answer);
    case _ =>
  }

  lemma StatusKeepsOps(t: Tab, i: nat, answer: Option<(Account, bool)>)
    requires OpsIssued(t)
    ensures OpsIssued(ProbeStep(t, Status(i, answer)))
  {}

  lemma UnlockKeepsOps(t: Tab, a: UnlockAct)
    requires OpsIssued(t)
    ensures OpsIssued(UnlockStep(t, a))
  {
    match a
    case Opens(i, dek) =>
      if i in t.tasks && t.tasks[i].Ceremony? {
        UnlockCalledKeepsOps(t, i, SessionKey(dek, t.tasks[i].who, t.tasks[i].captured));
      }
    case Written(_) => ForgottenKeepsOps(t);
    case _ =>
  }

  lemma LeaveKeepsOps(t: Tab, a: LeaveAct)
    requires OpsIssued(t)
    ensures OpsIssued(LeaveStep(t, a))
  {}

  lemma LoadKeepsOps(t: Tab, a: LoadAct)
    requires OpsIssued(t)
    ensures OpsIssued(LoadStep(t, a))
  {
    if a.Arrives? && a.task in t.tasks && t.tasks[a.task].Loading? {
      var task, left := t.tasks[a.task], Dropped(t, a.task);
      var loaded := LoadedValue(a.fetched, task.session);
      var shown := left.(hook := left.hook.Finished(task.token, loaded, left.ctx.StartsReprobe(UnopenableRow)));
      RowSeenKeepsOps(shown, if loaded.WasSealed? then SealedRow else UnopenableRow);
    } else if a.WeekArrives? {
      WeekKeepsOps(t, a.task, a.bodies);
    }
  }

  lemma WeekKeepsOps(t: Tab, i: nat, bodies: Option<seq<Body>>)
    requires OpsIssued(t)
    ensures OpsIssued(LoadStep(t, WeekArrives(i, bodies)))
  {
    if i in t.tasks && t.tasks[i].WeekLoading? && bodies.Some? {
      var left, session := Dropped(t, i), t.tasks[i].session;
      WeekReportsOneReason(bodies.value, session);
      RowSeenKeepsOps(left, if AnySealed(bodies.value, session) then SealedRow else UnopenableRow);
    }
  }

  lemma RowSeenKeepsOps(t: Tab, row: UnreadableRow)
    requires OpsIssued(t)
    ensures OpsIssued(RowSeen(t, row))
  {}

  /** Both hold from the moment a page opens, through anything. */
  lemma {:induction false} RunKeepsQuiet(t: Tab, events: seq<Event>)
    requires QuietInv(t) && OpsIssued(t)
    ensures QuietInv(Run(t, events)) && OpsIssued(Run(t, events))
    decreases |events|
  {
    if events != [] {
      StepKeepsQuiet(t, events[0]);
      StepKeepsOps(t, events[0]);
      RunKeepsQuiet(Step(t, events[0]), events[1..]);
    }
  }

  /** And short of that there is always something the browser can do: no run gets stuck. */
  lemma SomethingCanMove(t: Tab)
    requires QuietInv(t) && OpsIssued(t) && !AtRest(t)
    ensures exists e :: Internal(e) && Step(t, e) != t
  {
    if t.store.queue != [] {
      assert Step(t, Storage(Aborts)).store.queue != t.store.queue;
      assert Internal(Storage(Aborts));
    } else if t.userPending {
      assert Internal(Effect(ProbeEffect)) && Step(t, Effect(ProbeEffect)).ctx.generation != t.ctx.generation;
    } else if LoadDue(t) {
      assert Internal(Effect(LoadEffect)) && Step(t, Effect(LoadEffect)).hook.generation != t.hook.generation;
    } else if WeekDue(t) {
      assert Internal(Effect(WeekEffect)) && Step(t, Effect(WeekEffect)).week.generation != t.week.generation;
    } else if t.gate && Gated(t) {
      assert Internal(Effect(GateEffect)) && !Step(t, Effect(GateEffect)).gate;
    } else {
      var i :| i in t.tasks && !t.tasks[i].InHand?;
      TaskCanMove(t, i);
    }
  }

  /** Whoever is in flight can go on: with nothing queued, every write it may wait for has ended. */
  lemma TaskCanMove(t: Tab, i: nat)
    requires OpsIssued(t) && t.store.queue == [] && i in t.tasks && !t.tasks[i].InHand?
    ensures exists e :: Internal(e) && Step(t, e) != t
  {
    var e;
    match t.tasks[i] {
      case ProbeStatus(_, _) => e := ProbeCanMove(t, i);
      case ProbeRestore(_, _, _) => e := ProbeCanMove(t, i);
      case ProbeRestored(_, _, _, _) => e := ProbeCanMove(t, i);
      case Ceremony(_, _) => e := UnlockCanMove(t, i);
      case UnlockWriting(_, _, _) => e := UnlockCanMove(t, i);
      case SignIn(_) => e := EnterCanMove(t, i);
      case SignInWriting(_) => e := EnterCanMove(t, i);
      case Loading(_, _, _) => e := LoadCanMove(t, i);
      case WeekLoading(_, _, _) => e := LoadCanMove(t, i);
      case _ => e := LeaveCanMove(t, i);
    }
    assert Internal(e) && Step(t, e) != t;
  }

  lemma ProbeCanMove(t: Tab, i: nat) returns (e: Event)
    requires OpsIssued(t) && t.store.queue == [] && i in t.tasks
    requires t.tasks[i].ProbeStatus? || t.tasks[i].ProbeRestore? || t.tasks[i].ProbeRestored?
    ensures Internal(e) && TaskAt(Step(t, e), i) != TaskAt(t, i)
  {
    e := match t.tasks[i]
      case ProbeStatus(_, _) => Probe(Status(i, None))
      case ProbeRestore(_, _, _) => Probe(RecordRead(i, true))
      case ProbeRestored(_, _, _, _) => Probe(Lands(i));
  }

  lemma UnlockCanMove(t: Tab, i: nat) returns (e: Event)
    requires OpsIssued(t) && t.store.queue == [] && i in t.tasks
    requires t.tasks[i].Ceremony? || t.tasks[i].UnlockWriting?
    ensures Internal(e) && TaskAt(Step(t, e), i) != TaskAt(t, i)
  {
    e := if t.tasks[i].Ceremony? then Unlock(Fails(i)) else Unlock(Written(i));
  }

  lemma LeaveCanMove(t: Tab, i: nat) returns (e: Event)
    requires OpsIssued(t) && t.store.queue == [] && i in t.tasks
    requires t.tasks[i].Clearing? || t.tasks[i].SignOutBegun? || t.tasks[i].SignOutClearing? || t.tasks[i].SignOutEnding?
    ensures Internal(e) && TaskAt(Step(t, e), i) != TaskAt(t, i)
  {
    e := match t.tasks[i]
      case Clearing(_, _) => Leave(Cleared(i))
      case SignOutBegun => Leave(Forgets(i))
      case SignOutClearing(_, _) => Leave(KeyGone(i))
      case SignOutEnding => Leave(Logout(i, false));
  }

  lemma EnterCanMove(t: Tab, i: nat) returns (e: Event)
    requires OpsIssued(t) && t.store.queue == [] && i in t.tasks
    requires t.tasks[i].SignIn? || t.tasks[i].SignInWriting?
    ensures Internal(e) && TaskAt(Step(t, e), i) != TaskAt(t, i)
  {
    e := Enter(SignInEnds(i));
  }

  lemma LoadCanMove(t: Tab, i: nat) returns (e: Event)
    requires OpsIssued(t) && t.store.queue == [] && i in t.tasks
    requires t.tasks[i].Loading? || t.tasks[i].WeekLoading?
    ensures Internal(e) && TaskAt(Step(t, e), i) != TaskAt(t, i)
  {
    e := if t.tasks[i].Loading? then Load(Arrives(i, Unavailable)) else Load(WeekArrives(i, None));
  }

  // ------------------------------------------- one ambiguous row per page

  /** This step starts a probe on account of an unopenable row. */
  predicate ProbesForUnopenable(t: Tab, e: Event) {
    match e
    case Load(Arrives(i, fetched)) =>
      (match TaskAt(t, i)
       case Some(Loading(token, _, session)) =>
         && token == t.hook.generation && LoadedValue(fetched, session).WasUnopenable?
         && t.ctx.StartsReprobe(UnopenableRow)
       case _ => false)
    case Load(WeekArrives(i, Some(bodies))) =>
      (match TaskAt(t, i)
       case Some(WeekLoading(token, _, session)) =>
         token == t.week.generation && AnyUnopenable(bodies, session) && t.ctx.StartsReprobe(UnopenableRow)
       case _ => false)
    case _ => false
  }

  function UnopenableProbes(t: Tab, events: seq<Event>): nat
    decreases |events|
  {
    if events == [] then 0
    else (if ProbesForUnopenable(t, events[0]) then 1 else 0) + UnopenableProbes(Step(t, events[0]), events[1..])
  }

  lemma LatchStaysSpent(t: Tab, e: Event)
    requires t.ctx.reprobed
    ensures Step(t, e).ctx.reprobed
  {
    match e
    case Load(a) => LoadKeepsLatch(t, a);
    case Unlock(a) => UnlockKeepsLatch(t, a);
    case _ =>
  }

  lemma LoadKeepsLatch(t: Tab, a: LoadAct)
    requires t.ctx.reprobed
    ensures LoadStep(t, a).ctx.reprobed
  {}

  lemma UnlockKeepsLatch(t: Tab, a: UnlockAct)
    requires t.ctx.reprobed
    ensures UnlockStep(t, a).ctx.reprobed
  {}

  /** At most one in the whole life of a page, whatever the user and the rows do. */
  lemma {:induction false} AtMostOneUnopenableProbe(t: Tab, events: seq<Event>)
    ensures UnopenableProbes(t, events) <= if t.ctx.reprobed then 0 else 1
    decreases |events|
  {
    if events != [] {
      if t.ctx.reprobed { LatchStaysSpent(t, events[0]); }
      AtMostOneUnopenableProbe(Step(t, events[0]), events[1..]);
    }
  }

  lemma LatchSpentOnlySo(t: Tab, e: Event)
    requires !t.ctx.reprobed
    ensures Step(t, e).ctx.reprobed <==> ProbesForUnopenable(t, e)
  {
    match e
    case Load(a) => LoadSpendsLatch(t, a);
    case Unlock(a) => UnlockLeavesLatch(t, a);
    case Effect(_) =>
    case Probe(a) => ProbeLeavesLatch(t, a);
    case _ =>
  }

  lemma LoadSpendsLatch(t: Tab, a: LoadAct)
    requires !t.ctx.reprobed
    ensures LoadStep(t, a).ctx.reprobed <==> ProbesForUnopenable(t, Load(a))
  {
    if a.WeekArrives? && a.task in t.tasks && t.tasks[a.task].WeekLoading? && a.bodies.Some? {
      WeekReportsOneReason(a.bodies.value, t.tasks[a.task].session);
    }
  }

  lemma UnlockLeavesLatch(t: Tab, a: UnlockAct)
    ensures UnlockStep(t, a).ctx.reprobed == t.ctx.reprobed
  {}

  lemma ProbeLeavesLatch(t: Tab, a: ProbeAct)
    ensures ProbeStep(t, a).ctx.reprobed == t.ctx.reprobed
  {}

  /** And the one there may be is there to be had: a page's latch is spent exactly by an unopenable row's probe. */
  lemma {:induction false} SpentExactlyByOne(t: Tab, events: seq<Event>)
    requires !t.ctx.reprobed
    ensures Run(t, events).ctx.reprobed <==> UnopenableProbes(t, events) == 1
    decreases |events|
  {
    AtMostOneUnopenableProbe(t, events);
    if events != [] {
      var next := Step(t, events[0]);
      LatchSpentOnlySo(t, events[0]);
      if next.ctx.reprobed {
        AtMostOneUnopenableProbe(next, events[1..]);
        RunKeepsLatch(next, events[1..]);
      } else {
        SpentExactlyByOne(next, events[1..]);
      }
    }
  }

  lemma {:induction false} RunKeepsLatch(t: Tab, events: seq<Event>)
    requires t.ctx.reprobed
    ensures Run(t, events).ctx.reprobed
    decreases |events|
  {
    if events != [] {
      LatchStaysSpent(t, events[0]);
      RunKeepsLatch(Step(t, events[0]), events[1..]);
    }
  }

  lemma OpenedWithTheLatch(id: nat, user: Option<Account>, store: Store, day: Day, events: seq<Event>)
    ensures Run(Opened(id, user, store, day), events).ctx.reprobed <==>
            UnopenableProbes(Opened(id, user, store, day), events) == 1
  {
    SpentExactlyByOne(Opened(id, user, store, day), events);
  }
}
