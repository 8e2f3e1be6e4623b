/** Tasks are resumed one at a time: whatever else a page goes through, a task that is not resumed stays as it was. */
module TabTasks {
  import opened Base
  import opened EncryptionState
  import opened Keystore
  import opened Hook
  import opened Tab

  /** The task that an event resumes. */
  function Resumed(e: Event): Option<nat> {
    match e
    case User(UseKey(i)) => Some(i)
    case User(_) => None
    case Effect(_) => None
    case Probe(a) => Some(a.task)
    case Unlock(a) => Some(a.task)
    case Leave(a) => Some(a.task)
    case Enter(a) => Some(a.task)
    case Load(a) => Some(a.task)
    case Storage(_) => None
  }

  predicate Untouched(events: seq<Event>, i: nat) {
    forall k :: 0 <= k < |events| ==> Resumed(events[k]) != Some(i)
  }

  /** `u` has the task `i` that `t` has, and numbers no other like it. */
  predicate SameTask(t: Tab, u: Tab, i: nat) {
    i in t.tasks && i in u.tasks && u.tasks[i] == t.tasks[i] && i < t.nextTask <= u.nextTask
  }

  lemma RowSeenSameTask(t: Tab, row: UnreadableRow, i: nat)
    requires i in t.tasks && i < t.nextTask
    ensures SameTask(t, RowSeen(t, row), i)
  {}

  lemma LoadSameTask(t: Tab, a: LoadAct, i: nat)
    requires i in t.tasks && i < t.nextTask && a.task != i
    ensures SameTask(t, LoadStep(t, a), i)
  {
    if a.Arrives? && a.task in t.tasks && t.tasks[a.task].Loading? {
      var task, left := t.tasks[a.task], Dropped(t, a.task);
      var shown := left.(hook := left.hook.Finished(task.token, LoadedValue(a.fetched, task.session),
                                                    left.ctx.StartsReprobe(UnopenableRow)));
      RowSeenSameTask(shown, SealedRow, i);
      RowSeenSameTask(shown, UnopenableRow, i);
    } else if a.WeekArrives? && a.task in t.tasks && t.tasks[a.task].WeekLoading? && a.bodies.Some? {
      WeekReportsOneReason(a.bodies.value, t.tasks[a.task].session);
      RowSeenSameTask(Dropped(t, a.task), SealedRow, i);
      RowSeenSameTask(Dropped(t, a.task), UnopenableRow, i);
    }
  }

  lemma StepSameTask(t: Tab, e: Event, i: nat)
    requires i in t.tasks && i < t.nextTask && Resumed(e) != Some(i)
    ensures SameTask(t, Step(t, e), i)
  {
    match e
    case User(a) => UserSameTask(t, a, i);
    case Effect(a) => EffectSameTask(t, a, i);
    case Load(a) => LoadSameTask(t, a, i);
    case Probe(a) => ProbeSameTask(t, a, i);
    case Unlock(a) => UnlockSameTask(t, a, i);
    case Leave(a) => LeaveSameTask(t, a, i);
    case Enter(a) => EnterSameTask(t, a, i);
    case Storage(a) => StoreSameTask(t, a, i);
  }

  lemma UserSameTask(t: Tab, a: UserAct, i: nat)
    requires i in t.tasks && i < t.nextTask && Resumed(User(a)) != Some(i)
    ensures SameTask(t, UserStep(t, a), i)
  {}

  lemma EffectSameTask(t: Tab, a: EffectAct, i: nat)
    requires i in t.tasks && i < t.nextTask
    ensures SameTask(t, EffectStep(t, a), i)
  {}

  lemma ProbeSameTask(t: Tab, a: ProbeAct, i: nat)
    requires i in t.tasks && i < t.nextTask && a.task != i
    ensures SameTask(t, ProbeStep(t, a), i)
  {}

  lemma UnlockSameTask(t: Tab, a: UnlockAct, i: nat)
    requires i in t.tasks && i < t.nextTask && a.task != i
    ensures SameTask(t, UnlockStep(t, a), i)
  {}

  lemma LeaveSameTask(t: Tab, a: LeaveAct, i: nat)
    requires i in t.tasks && i < t.nextTask && a.task != i
    ensures SameTask(t, LeaveStep(t, a), i)
  {}

  lemma EnterSameTask(t: Tab, a: EnterAct, i: nat)
    requires i in t.tasks && i < t.nextTask && a.task != i
    ensures SameTask(t, EnterStep(t, a), i)
  {}

  lemma StoreSameTask(t: Tab, a: StoreAct, i: nat)
    requires i in t.tasks && i < t.nextTask
    ensures SameTask(t, StoreStep(t, a), i)
  {}

  /** A task nobody resumes waits as it was, whatever else the page goes through. */
  lemma {:induction false} RunSameTask(t: Tab, events: seq<Event>, i: nat)
    requires i in t.tasks && i < t.nextTask && Untouched(events, i)
    ensures SameTask(t, Run(t, events), i)
    decreases |events|
  {
    if events != [] {
      StepSameTask(t, events[0], i);
      assert Untouched(events[1..], i) by {
        forall k | 0 <= k < |events[1..]| ensures Resumed(events[1..][k]) != Some(i) { assert events[1..][k] == events[k + 1]; }
      }
      RunSameTask(Step(t, events[0]), events[1..], i);
    }
  }

  // ---------------------------------------------------------------- waiting

  /** The transaction whose end a task waits for. */
  function WaitsFor(task: Task): Option<nat> {
    match task
    case UnlockWriting(_, _, op) => Some(op)
    case Clearing(op, _) => Some(op)
    case SignOutClearing(op, _) => Some(op)
    case SignInWriting(op) => Some(op)
    case _ => None
  }

  predicate Queued(s: Store, op: nat) {
    exists k :: 0 <= k < |s.queue| && s.queue[k].id == op
  }

  /** Nothing brings a task out of its wait while its transaction has not ended. */
  lemma QueuedWriteIsAwaited(t: Tab, e: Event, i: nat)
    requires i in t.tasks && i < t.nextTask && WaitsFor(t.tasks[i]).Some? && Queued(t.store, WaitsFor(t.tasks[i]).value)
    ensures SameTask(t, Step(t, e), i)
  {
    if Resumed(e) != Some(i) {
      StepSameTask(t, e, i);
    } else {
      ResumingWaiter(t, e, i);
    }
  }

  lemma ResumingWaiter(t: Tab, e: Event, i: nat)
    requires i in t.tasks && i < t.nextTask && WaitsFor(t.tasks[i]).Some? && Queued(t.store, WaitsFor(t.tasks[i]).value)
    requires Resumed(e) == Some(i)
    ensures Step(t, e) == t
  {}

  /** And once it has ended, well or badly, the task goes on: an unlock, a lock, a sign-out and a sign-in. */
  lemma EndedWriteIsNoticed(t: Tab, i: nat)
    requires i in t.tasks && WaitsFor(t.tasks[i]).Some?
    requires WaitsFor(t.tasks[i]).value < t.store.nextOp && !Queued(t.store, WaitsFor(t.tasks[i]).value)
    ensures var e := match t.tasks[i]
      case UnlockWriting(_, _, _) => Unlock(Written(i))
      case Clearing(_, _) => Leave(Cleared(i))
      case SignOutClearing(_, _) => Leave(KeyGone(i))
      case _ => Enter(SignInEnds(i));
      TaskAt(Step(t, e), i) != Some(t.tasks[i])
  {
    assert t.store.Settled(WaitsFor(t.tasks[i]).value);
  }
}
