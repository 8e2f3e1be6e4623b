/**
 Forgetting takes: once a forget's delete has committed, nothing written by a
 ceremony that began before that forget is on the device, then or later.
 Transactions commit in the order they were issued.
 */
module TabForgets {
  import opened Base
  import opened Crypto
  import opened Accounts
  import opened EncryptionState
  import opened Keystore
  import opened Hook
  import opened Tab
  import opened TabTasks

  predicate Own(t: Tab, w: Writer) {
    w.page == t.id
  }

  /** A task waiting for a forget's delete: the transaction, and the count the forget raised. */
  function Awaits(task: Task): Option<(nat, nat)> {
    match task
    case Clearing(op, count) => Some((op, count))
    case SignOutClearing(op, count) => Some((op, count))
    case _ => None
  }

  /** No trace of a ceremony of this page begun before its `count`th forget, stored or on its way. */
  ghost predicate FreeOf(t: Tab, count: nat) {
    t.forgets >= count && NothingOlder(t.store, t.id, count)
  }

  ghost predicate NothingOlder(s: Store, page: nat, count: nat) {
    && (s.record.Some? && s.record.value.writer.page == page ==> s.record.value.writer.forgets >= count)
    && forall k :: 0 <= k < |s.queue| && IssuedBy(s.queue[k]).page == page ==> IssuedBy(s.queue[k]).forgets >= count
  }

  /** This page's writes are queued in the order of the counts they were issued under. */
  ghost predicate StampsOrdered(t: Tab) {
    && (forall k :: 0 <= k < |t.store.queue| && Own(t, IssuedBy(t.store.queue[k])) ==>
          IssuedBy(t.store.queue[k]).forgets <= t.forgets)
    && (forall j, k ::
          (0 <= j < k < |t.store.queue| && Own(t, IssuedBy(t.store.queue[j])) && Own(t, IssuedBy(t.store.queue[k]))) ==>
          IssuedBy(t.store.queue[j]).forgets <= IssuedBy(t.store.queue[k]).forgets)
  }

  ghost predicate TransactionsNumbered(s: Store) {
    && (forall k :: 0 <= k < |s.queue| ==> s.queue[k].id < s.nextOp && s.queue[k].id !in s.committed)
    && (forall j, k :: 0 <= j < k < |s.queue| ==> s.queue[j].id != s.queue[k].id)
    && (forall op :: op in s.committed ==> op < s.nextOp)
  }

  /** Whoever waits for a delete waits for that very delete, and finds it done only when it is. */
  ghost predicate WaitsHonoured(t: Tab) {
    forall i :: i in t.tasks && Awaits(t.tasks[i]).Some? ==>
      var (op, count) := Awaits(t.tasks[i]).value;
      && op < t.store.nextOp
      && (op in t.store.committed ==> FreeOf(t, count))
      && forall k :: 0 <= k < |t.store.queue| && t.store.queue[k].id == op ==>
           t.store.queue[k] == Clear(op, Writer(t.id, count))
  }

  ghost predicate ForgetInv(t: Tab) {
    StampsOrdered(t) && TransactionsNumbered(t.store) && WaitsHonoured(t)
  }

  // ------------------------------------------- how a step moves the store

  ghost predicate Issues(t: Tab, u: Tab, op: Op) {
    && u.store == t.store.Issued(op) && op.id == t.store.nextOp
    && (Own(t, IssuedBy(op)) ==> IssuedBy(op).forgets == u.forgets)
  }

  ghost predicate StoreMoves(t: Tab, u: Tab) {
    && u.id == t.id && u.forgets >= t.forgets
    && (|| u.store == t.store
        || (|u.store.queue| > 0 && Issues(t, u, u.store.queue[|u.store.queue| - 1]))
        || (t.store.queue != [] && u == t.(store := t.store.Committed()))
        || (t.store.queue != [] && u == t.(store := t.store.Aborted())))
    && forall i :: i in u.tasks && Awaits(u.tasks[i]).Some? ==>
         || (i in t.tasks && Awaits(t.tasks[i]) == Awaits(u.tasks[i]))
         || (&& Awaits(u.tasks[i]) == Some((t.store.nextOp, u.forgets))
             && Issues(t, u, Clear(t.store.nextOp, Writer(t.id, u.forgets))))
  }

  lemma ForgottenMoves(t: Tab)
    ensures Issues(t, Forgotten(t), Clear(t.store.nextOp, Writer(t.id, t.forgets + 1)))
  {
    var queue := Forgotten(t).store.queue;
    assert queue[|queue| - 1] == Clear(t.store.nextOp, Writer(t.id, t.forgets + 1));
  }

  lemma UnlockCalledMoves(t: Tab, i: nat, key: SessionKey)
    ensures StoreMoves(t, UnlockCalled(Dropped(t, i), key))
  {
    var u := UnlockCalled(Dropped(t, i), key);
    if u.store != t.store {
      var put := Put(t.store.nextOp, Record(key.user, key.dek, Writer(t.id, key.forgets)));
      assert u.store.queue == t.store.queue + [put];
      assert u.store.queue[|u.store.queue| - 1] == put;
    }
  }

  lemma UserStoreMoves(t: Tab, a: UserAct)
    ensures StoreMoves(t, UserStep(t, a))
  {
    match a
    case UseKey(i) => if i in t.tasks && t.tasks[i].InHand? { UnlockCalledMoves(t, i, t.tasks[i].key); }
    case Lock => LockStoreMoves(t);
    case _ =>
  }

  lemma LockStoreMoves(t: Tab)
    ensures StoreMoves(t, UserStep(t, Lock))
  {
    ForgottenMoves(t.(ctx := t.ctx.Begun().Published(Locked)));
  }

  lemma ProbeStoreMoves(t: Tab, a: ProbeAct)
    ensures StoreMoves(t, ProbeStep(t, a))
  {
    match a
    case RecordRead(i, failed) => RecordReadMoves(t, i, failed);
    case Status(_, _) =>
    case Lands(_) =>
  }

  lemma RecordReadMoves(t: Tab, i: nat, failed: bool)
    ensures StoreMoves(t, ProbeStep(t, RecordRead(i, failed)))
  {
    var u := ProbeStep(t, RecordRead(i, failed));
    if u.store != t.store {
      assert u.store.queue[|u.store.queue| - 1] == Clear(t.store.nextOp, Writer(t.id, t.forgets));
    }
  }

  lemma UnlockStoreMoves(t: Tab, a: UnlockAct)
    ensures StoreMoves(t, UnlockStep(t, a))
  {
    match a
    case Opens(i, dek) =>
      if i in t.tasks && t.tasks[i].Ceremony? {
        UnlockCalledMoves(t, i, SessionKey(dek, t.tasks[i].who, t.tasks[i].captured));
      }
    case Written(i) => ForgottenMoves(t);
    case _ =>
  }

  lemma LeaveStoreMoves(t: Tab, a: LeaveAct)
    ensures StoreMoves(t, LeaveStep(t, a))
  {
    match a
    case Forgets(i) => ForgottenMoves(t);
    case _ =>
  }

  lemma EnterStoreMoves(t: Tab, a: EnterAct)
    ensures StoreMoves(t, EnterStep(t, a))
  {
    match a
    case SignInOpens(i, who, dek) =>
      if EnterStep(t, a).store != t.store {
        var queue := EnterStep(t, a).store.queue;
        assert queue[|queue| - 1] == Put(t.store.nextOp, Record(who, dek, Writer(t.id, t.tasks[i].captured)));
      }
    case _ =>
  }

  lemma StepStoreMoves(t: Tab, e: Event)
    ensures StoreMoves(t, Step(t, e))
  {
    match e
    case User(a) => UserStoreMoves(t, a);
    case Effect(a) => EffectStoreMoves(t, a);
    case Probe(a) => ProbeStoreMoves(t, a);
    case Unlock(a) => UnlockStoreMoves(t, a);
    case Leave(a) => LeaveStoreMoves(t, a);
    case Enter(a) => EnterStoreMoves(t, a);
    case Load(a) => LoadStoreMoves(t, a);
    case Storage(a) => StorageMoves(t, a);
  }

  lemma EffectStoreMoves(t: Tab, a: EffectAct)
    ensures StoreMoves(t, EffectStep(t, a))
  {}

  lemma LoadStoreMoves(t: Tab, a: LoadAct)
    ensures StoreMoves(t, LoadStep(t, a))
  {
    if a.Arrives? && a.task in t.tasks && t.tasks[a.task].Loading? {
      var task, left := t.tasks[a.task], Dropped(t, a.task);
      var loaded := LoadedValue(a.fetched, task.session);
      var shown := left.(hook := left.hook.Finished(task.token, loaded, left.ctx.StartsReprobe(UnopenableRow)));
      RowSeenLeavesStore(shown, if loaded.WasSealed? then SealedRow else UnopenableRow);
    } else if a.WeekArrives? {
      WeekStoreMoves(t, a.task, a.bodies);
    }
  }

  lemma WeekStoreMoves(t: Tab, i: nat, bodies: Option<seq<Body>>)
    ensures StoreMoves(t, LoadStep(t, WeekArrives(i, bodies)))
  {
    if i in t.tasks && t.tasks[i].WeekLoading? && bodies.Some? {
      var session, left := t.tasks[i].session, Dropped(t, i);
      WeekReportsOneReason(bodies.value, session);
      RowSeenLeavesStore(left, if AnySealed(bodies.value, session) then SealedRow else UnopenableRow);
    }
  }

  lemma RowSeenLeavesStore(t: Tab, row: UnreadableRow)
    ensures var u := RowSeen(t, row);
      && u.store == t.store && u.id == t.id && u.forgets == t.forgets
      && forall i :: i in u.tasks && Awaits(u.tasks[i]).Some? ==> i in t.tasks && u.tasks[i] == t.tasks[i]
  {}

  lemma StorageMoves(t: Tab, a: StoreAct)
    ensures StoreMoves(t, StoreStep(t, a))
  {
    if a.Foreign? && StoreStep(t, a) != t {
      var queue := StoreStep(t, a).store.queue;
      assert queue[|queue| - 1] == a.op;
    }
  }

  // ------------------------------------------------------------ invariants

  lemma StepKeepsFree(t: Tab, e: Event, count: nat)
    requires FreeOf(t, count)
    ensures FreeOf(Step(t, e), count)
  {
    StepStoreMoves(t, e);
  }

  lemma {:induction false} RunKeepsFree(t: Tab, events: seq<Event>, count: nat)
    requires FreeOf(t, count)
    ensures FreeOf(Run(t, events), count)
    decreases |events|
  {
    if events != [] {
      StepKeepsFree(t, events[0], count);
      RunKeepsFree(Step(t, events[0]), events[1..], count);
    }
  }

  lemma KeepsStamps(t: Tab, u: Tab)
    requires StampsOrdered(t) && StoreMoves(t, u)
    ensures StampsOrdered(u)
  {
    if u.store.nextOp != t.store.nextOp {
      IssuingStamps(t, u, u.store.queue[|u.store.queue| - 1]);
    } else if u.store != t.store {
      EndingStamps(t, u);
    }
  }

  lemma IssuingStamps(t: Tab, u: Tab, op: Op)
    requires StampsOrdered(t) && Issues(t, u, op) && u.id == t.id && u.forgets >= t.forgets
    ensures StampsOrdered(u)
  {}

  lemma EndingStamps(t: Tab, u: Tab)
    requires StampsOrdered(t) && t.store.queue != []
    requires u == t.(store := t.store.Committed()) || u == t.(store := t.store.Aborted())
    ensures StampsOrdered(u)
  {}

  lemma KeepsNumbers(t: Tab, u: Tab)
    requires TransactionsNumbered(t.store) && StoreMoves(t, u)
    ensures TransactionsNumbered(u.store)
  {
    if u.store.nextOp != t.store.nextOp {
      IssuingNumbers(t, u, u.store.queue[|u.store.queue| - 1]);
    } else if u.store != t.store {
      EndingNumbers(t, u);
    }
  }

  lemma IssuingNumbers(t: Tab, u: Tab, op: Op)
    requires TransactionsNumbered(t.store) && Issues(t, u, op)
    ensures TransactionsNumbered(u.store)
  {}

  lemma EndingNumbers(t: Tab, u: Tab)
    requires TransactionsNumbered(t.store) && t.store.queue != []
    requires u == t.(store := t.store.Committed()) || u == t.(store := t.store.Aborted())
    ensures TransactionsNumbered(u.store)
  {}

  lemma KeepsFree(t: Tab, u: Tab, count: nat)
    requires FreeOf(t, count) && StoreMoves(t, u)
    ensures FreeOf(u, count)
  {}

  /** One wait, across one step. */
  lemma KeepsWait(t: Tab, u: Tab, i: nat)
    requires ForgetInv(t) && StoreMoves(t, u) && i in u.tasks && Awaits(u.tasks[i]).Some?
    ensures var (op, count) := Awaits(u.tasks[i]).value;
            && op < u.store.nextOp
            && (op in u.store.committed ==> FreeOf(u, count))
            && forall k :: 0 <= k < |u.store.queue| && u.store.queue[k].id == op ==>
                 u.store.queue[k] == Clear(op, Writer(u.id, count))
  {
    var (op, count) := Awaits(u.tasks[i]).value;
    if op in t.store.committed {
      KeepsFree(t, u, count);
    }
  }

  lemma StepKeepsForget(t: Tab, e: Event)
    requires ForgetInv(t)
    ensures ForgetInv(Step(t, e))
  {
    var u := Step(t, e);
    StepStoreMoves(t, e);
    KeepsStamps(t, u);
    KeepsNumbers(t, u);
    assert WaitsHonoured(u) by {
      forall i | i in u.tasks && Awaits(u.tasks[i]).Some?
        ensures var (op, count) := Awaits(u.tasks[i]).value;
                && op < u.store.nextOp
                && (op in u.store.committed ==> FreeOf(u, count))
                && forall k :: 0 <= k < |u.store.queue| && u.store.queue[k].id == op ==>
                     u.store.queue[k] == Clear(op, Writer(u.id, count))
      {
        KeepsWait(t, u, i);
      }
    }
  }

  lemma OpenedForgetsNothingYet(id: nat, user: Option<Account>, store: Store, day: Day)
    requires forall k :: 0 <= k < |store.queue| ==> IssuedBy(store.queue[k]).page != id
    requires TransactionsNumbered(store)
    ensures ForgetInv(Opened(id, user, store, day))
  {}

  /** A forget's delete completes: everything older than the forget is gone, for good. */
  lemma ForgettingTakes(t: Tab, count: nat, events: seq<Event>)
    requires ForgetInv(t)
    requires t.store.queue != [] && t.store.queue[0] == Clear(t.store.queue[0].id, Writer(t.id, count))
    ensures var later := Run(Step(t, Storage(Completes)), events);
            later.store.record.Some? && Own(t, later.store.record.value.writer) ==>
              later.store.record.value.writer.forgets >= count
  {
    var done := Step(t, Storage(Completes));
    assert FreeOf(done, count);
    StepStoreMoves(t, Storage(Completes));
    RunKeepsFree(done, events, count);
    IdNeverChanges(done, events);
  }

  lemma {:induction false} IdNeverChanges(t: Tab, events: seq<Event>)
    ensures Run(t, events).id == t.id
    decreases |events|
  {
    if events != [] {
      StepStoreMoves(t, events[0]);
      IdNeverChanges(Step(t, events[0]), events[1..]);
    }
  }

  /** "Lock now" and sign-out learn that the key is gone only when it is. */
  lemma ReportedClearIsTrue(t: Tab, i: nat, events: seq<Event>)
    requires ForgetInv(t) && i in t.tasks && Awaits(t.tasks[i]).Some?
    requires Awaits(t.tasks[i]).value.0 in t.store.committed
    ensures FreeOf(Run(t, events), Awaits(t.tasks[i]).value.1)
  {
    RunKeepsFree(t, events, Awaits(t.tasks[i]).value.1);
  }

  /** The guard in front of the write: a ceremony overtaken by a forget issues no put at all. */
  lemma OvertakenCeremonyWritesNothing(t: Tab, key: SessionKey)
    requires key.forgets < t.forgets
    ensures UnlockCalled(t, key).store == t.store
  {}

  /** "Lock now", sign-out, and an unlock that comes back to a page its account has left. */
  predicate IsForget(t: Tab, e: Event) {
    match e
    case User(Lock) => t.ctx.state.Locked? || t.ctx.state.Unlocked?
    case Leave(Forgets(i)) => i in t.tasks && t.tasks[i].SignOutBegun?
    case Unlock(Written(i)) =>
      i in t.tasks && t.tasks[i].UnlockWriting? && t.store.Settled(t.tasks[i].op) && t.user != Some(t.tasks[i].key.user)
    case _ => false
  }

  ghost predicate ForgetAmong(t: Tab, events: seq<Event>) {
    exists k :: 0 <= k < |events| && IsForget(Run(t, events[..k]), events[k])
  }

  lemma StepCountsForgets(t: Tab, e: Event)
    ensures Step(t, e).forgets == t.forgets + if IsForget(t, e) then 1 else 0
  {
    match e
    case Load(a) => LoadForgetsNothing(t, a);
    case User(a) => UserCountsForgets(t, a);
    case Unlock(a) => UnlockCountsForgets(t, a);
    case _ =>
  }

  lemma LoadForgetsNothing(t: Tab, a: LoadAct)
    ensures LoadStep(t, a).forgets == t.forgets
  {}

  lemma UserCountsForgets(t: Tab, a: UserAct)
    ensures UserStep(t, a).forgets == t.forgets + if IsForget(t, User(a)) then 1 else 0
  {}

  lemma UnlockCountsForgets(t: Tab, a: UnlockAct)
    ensures UnlockStep(t, a).forgets == t.forgets + if IsForget(t, Unlock(a)) then 1 else 0
  {}

  /** The count stands still over a run exactly when nothing in it forgets. */
  lemma {:induction false} CountStandsIff(t: Tab, events: seq<Event>)
    ensures Run(t, events).forgets >= t.forgets
    ensures Run(t, events).forgets == t.forgets <==> !ForgetAmong(t, events)
    decreases |events|
  {
    if events != [] {
      var next := Step(t, events[0]);
      StepCountsForgets(t, events[0]);
      CountStandsIff(next, events[1..]);
      ForgetNowOrLater(t, events);
    }
  }

  lemma ForgetNowOrLater(t: Tab, events: seq<Event>)
    requires events != []
    ensures ForgetAmong(t, events) <==> IsForget(t, events[0]) || ForgetAmong(Step(t, events[0]), events[1..])
  {
    var next := Step(t, events[0]);
    assert events[..0] == [];
    forall k | 0 <= k < |events| - 1
      ensures Run(t, events[..k + 1]) == Run(next, events[1..][..k]) && events[k + 1] == events[1..][k]
    {
      assert events[..k + 1][1..] == events[1..][..k];
    }
    if IsForget(t, events[0]) { assert IsForget(Run(t, events[..0]), events[0]); }
    if k :| 0 <= k < |events| - 1 && IsForget(Run(next, events[1..][..k]), events[1..][k]) {
      assert IsForget(Run(t, events[..k + 1]), events[k + 1]);
    }
    if k :| 0 < k < |events| && IsForget(Run(t, events[..k]), events[k]) {
      assert k == (k - 1) + 1;
      assert IsForget(Run(next, events[1..][..k - 1]), events[1..][k - 1]);
    }
  }

  /**
   What the count is captured and compared for: the key a ceremony opens is
   written to this device exactly when its account is still signed in and
   nothing since the ceremony began has forgotten a key, whatever happened.
   */
  lemma CeremonyRemembersIff(t: Tab, who: Account, events: seq<Event>, dek: Dek)
    requires t.user == Some(who) && Untouched(events, t.nextTask)
    ensures var begun := Step(t, User(BeginCeremony));
      var later := Run(begun, events);
      Step(later, Unlock(Opens(t.nextTask, dek))).store ==
        if later.user == Some(who) && !ForgetAmong(begun, events)
        then later.store.Issued(Put(later.store.nextOp, Record(who, dek, Writer(later.id, later.forgets))))
        else later.store
  {
    var begun := Step(t, User(BeginCeremony));
    RunSameTask(begun, events, t.nextTask);
    CountStandsIff(begun, events);
  }

  lemma {:induction false} RunKeepsForget(t: Tab, events: seq<Event>)
    requires ForgetInv(t)
    ensures ForgetInv(Run(t, events))
    decreases |events|
  {
    if events != [] {
      StepKeepsForget(t, events[0]);
      RunKeepsForget(Step(t, events[0]), events[1..]);
    }
  }
}
