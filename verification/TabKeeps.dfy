/**
 Remembering takes: what is put, once its transaction has committed and until a
 later one does, is what a page of that browser finds.
 */
module TabKeeps {
  import opened Base
  import opened Crypto
  import opened Accounts
  import opened EncryptionState
  import opened Keystore
  import opened Tab
  import opened TabTasks
  import opened TabTokens
  import opened TabForgets

  /** Transactions are queued, and so commit, in the order of their numbers. */
  ghost predicate InOrder(s: Store) {
    && (forall j, k :: 0 <= j < k < |s.queue| ==> s.queue[j].id < s.queue[k].id)
    && (forall k :: 0 <= k < |s.queue| ==> s.queue[k].id < s.nextOp)
    && (forall op :: op in s.committed ==> op < s.nextOp && forall k :: 0 <= k < |s.queue| ==> op < s.queue[k].id)
  }

  /** No transaction after this one has committed. */
  ghost predicate Newest(s: Store, id: nat) {
    id in s.committed && forall op :: op in s.committed ==> op <= id
  }

  /** What a transaction leaves on the device. */
  function LeftBy(op: Op): Option<Record> {
    if op.Put? then Some(op.record) else None
  }

  /** As long as it waits it waits as it was issued, and while it is the newest its outcome is what is stored. */
  ghost predicate Kept(s: Store, op: Op) {
    && op.id < s.nextOp
    && (forall k :: 0 <= k < |s.queue| && s.queue[k].id == op.id ==> s.queue[k] == op)
    && (Newest(s, op.id) ==> s.record == LeftBy(op))
  }

  /** The ways a keystore moves on, whoever moves it. */
  ghost predicate Moved(s: Store, v: Store) {
    || v == s
    || (|v.queue| > 0 && v == s.Issued(v.queue[|v.queue| - 1]) && v.queue[|v.queue| - 1].id == s.nextOp)
    || (s.queue != [] && (v == s.Committed() || v == s.Aborted()))
  }

  lemma IssuingKeeps(s: Store, issued: Op, op: Op)
    requires InOrder(s) && issued.id == s.nextOp
    ensures InOrder(s.Issued(issued)) && (Kept(s, op) ==> Kept(s.Issued(issued), op))
  {}

  lemma AbortingKeeps(s: Store, op: Op)
    requires InOrder(s) && s.queue != []
    ensures InOrder(s.Aborted()) && (Kept(s, op) ==> Kept(s.Aborted(), op))
  {}

  lemma CommittingKeeps(s: Store, op: Op)
    requires InOrder(s) && s.queue != []
    ensures InOrder(s.Committed()) && (Kept(s, op) ==> Kept(s.Committed(), op))
  {
    assert s.queue[0].id in s.Committed().committed;
  }

  lemma MovingKeeps(s: Store, v: Store, op: Op)
    requires InOrder(s) && Moved(s, v)
    ensures InOrder(v) && (Kept(s, op) ==> Kept(v, op))
  {
    if v == s {
    } else if s.queue != [] && v == s.Committed() {
      CommittingKeeps(s, op);
    } else if s.queue != [] && v == s.Aborted() {
      AbortingKeeps(s, op);
    } else {
      IssuingKeeps(s, v.queue[|v.queue| - 1], op);
    }
  }

  lemma NewlyIssuedIsKept(s: Store, op: Op)
    requires InOrder(s) && op.id == s.nextOp
    ensures InOrder(s.Issued(op)) && Kept(s.Issued(op), op)
  {}

  /** The transaction that completes is the newest, and its outcome is what is stored. */
  lemma CompletedIsNewest(s: Store)
    requires InOrder(s) && s.queue != []
    ensures Newest(s.Committed(), s.queue[0].id) && s.Committed().record == LeftBy(s.queue[0])
  {}

  /** Somebody else's record is not handed out, and a removal is issued; one's own is handed out and left alone. */
  lemma ReadingDiscards(s: Store, record: Record, user: Account, reader: Writer)
    requires s.record == Some(record)
    ensures record.user != user ==> s.Found(user) == None && s.AfterGet(user, reader) == s.Issued(Clear(s.nextOp, reader))
    ensures record.user == user ==> s.Found(user) == Some(record.dek) && s.AfterGet(user, reader) == s
  {}

  // ------------------------------------------------------------- over a run

  lemma StepMoved(t: Tab, e: Event)
    ensures Moved(t.store, Step(t, e).store)
  {
    StepStoreMoves(t, e);
  }

  lemma {:induction false} RunKeeps(t: Tab, events: seq<Event>, op: Op)
    requires InOrder(t.store) && Kept(t.store, op)
    ensures InOrder(Run(t, events).store) && Kept(Run(t, events).store, op)
    decreases |events|
  {
    if events != [] {
      StepMoved(t, events[0]);
      MovingKeeps(t.store, Step(t, events[0]).store, op);
      RunKeeps(Step(t, events[0]), events[1..], op);
    }
  }

  /** Once somebody else's record has been read, and the removal has committed, it is gone. */
  lemma DiscardTakes(t: Tab, user: Account, reader: Writer, events: seq<Event>, record: Record)
    requires InOrder(t.store) && t.store.record == Some(record) && record.user != user
    ensures var later := Run(t.(store := t.store.AfterGet(user, reader)), events).store;
            Newest(later, t.store.nextOp) ==> later.record == None
  {
    var discard := Clear(t.store.nextOp, reader);
    NewlyIssuedIsKept(t.store, discard);
    RunKeeps(t.(store := t.store.AfterGet(user, reader)), events, discard);
  }

  /** The put that a ceremony of the signed-in account issues when it opens its key. */
  function PutBy(t: Tab, who: Account, dek: Dek): Op {
    Put(t.store.nextOp, Record(who, dek, Writer(t.id, t.forgets)))
  }

  lemma CeremonyPuts(t: Tab, i: nat, dek: Dek)
    requires InOrder(t.store) && i in t.tasks && t.tasks[i].Ceremony?
    requires t.user == Some(t.tasks[i].who) && t.tasks[i].captured == t.forgets
    ensures var u, put := Step(t, Unlock(Opens(i, dek))), PutBy(t, t.tasks[i].who, dek);
            u.store == t.store.Issued(put) && InOrder(u.store) && Kept(u.store, put)
  {
    NewlyIssuedIsKept(t.store, PutBy(t, t.tasks[i].who, dek));
  }

  /** So does a sign-in that opens its key with nothing forgotten since it began, for whoever signed in. */
  lemma SignInPuts(t: Tab, i: nat, who: Account, dek: Dek)
    requires InOrder(t.store) && i in t.tasks && t.tasks[i] == SignIn(t.forgets)
    ensures var u, put := Step(t, Enter(SignInOpens(i, who, dek))), PutBy(t, who, dek);
            u.store == t.store.Issued(put) && InOrder(u.store) && Kept(u.store, put)
  {
    NewlyIssuedIsKept(t.store, PutBy(t, who, dek));
  }

  /** Over any run: exactly if nothing was forgotten meanwhile. */
  lemma SignInRemembersIff(t: Tab, events: seq<Event>, who: Account, dek: Dek)
    requires Untouched(events, t.nextTask)
    ensures var begun := Step(t, User(BeginSignIn));
      var later := Run(begun, events);
      Step(later, Enter(SignInOpens(t.nextTask, who, dek))).store ==
        if !ForgetAmong(begun, events) then later.store.Issued(PutBy(later, who, dek)) else later.store
  {
    var begun := Step(t, User(BeginSignIn));
    RunSameTask(begun, events, t.nextTask);
    CountStandsIff(begun, events);
    SignInOpening(Run(begun, events), t.nextTask, t.forgets, who, dek);
  }

  lemma SignInOpening(t: Tab, i: nat, captured: nat, who: Account, dek: Dek)
    requires i in t.tasks && t.tasks[i] == SignIn(captured)
    ensures Step(t, Enter(SignInOpens(i, who, dek))).store ==
            if captured == t.forgets then t.store.Issued(PutBy(t, who, dek)) else t.store
    ensures TaskAt(Step(t, Enter(SignInOpens(i, who, dek))), i) ==
            if captured == t.forgets then Some(SignInWriting(t.store.nextOp)) else None
  {}

  /** A probe that nothing overtakes finds what is kept, if it is the newest when the probe looks. */
  lemma ProbeFindsKept(t: Tab, put: Op, a: seq<Event>, b: seq<Event>, c: seq<Event>)
    requires put.Put? && InOrder(t.store) && Kept(t.store, put) && t.user == Some(put.record.user)
    requires Untouched(a, t.nextTask) && Untouched(b, t.nextTask) && Untouched(c, t.nextTask)
    ensures var k, started := t.nextTask, ProbeStarted(t, Unknown);
      var asked := Run(started, a);
      var reading := Run(Step(asked, Probe(Status(k, Some((put.record.user, true))))), b);
      var landing := Run(Step(reading, Probe(RecordRead(k, false))), c);
      Newest(reading.store, put.id) && landing.ctx.generation == started.ctx.generation ==>
        Step(landing, Probe(Lands(k))).ctx.state == Unlocked(SessionKey(put.record.dek, put.record.user, asked.forgets))
  {
    var k, started := t.nextTask, ProbeStarted(t, Unknown);
    var asked := Run(started, a);
    var answered := Step(asked, Probe(Status(k, Some((put.record.user, true)))));
    RunKeeps(started, a, put);
    StepMoved(asked, Probe(Status(k, Some((put.record.user, true)))));
    MovingKeeps(asked.store, answered.store, put);
    RunKeeps(answered, b, put);
    UndisturbedProbe(t, Unknown, put.record.user, a, b, c);
  }

  /**
   The whole way: a ceremony opens `dek`, and whatever else happens on that
   page and the others, a page opened later in that browser finds it, when its
   first probe looks and the put is still the newest, and is unlocked with it.
   */
  lemma ReloadUnlocks(t: Tab, i: nat, dek: Dek, between: seq<Event>, id: nat, day: Day,
                      first: seq<Event>, a: seq<Event>, b: seq<Event>, c: seq<Event>)
    requires InOrder(t.store) && i in t.tasks && t.tasks[i].Ceremony?
    requires t.user == Some(t.tasks[i].who) && t.tasks[i].captured == t.forgets
    requires var who := t.tasks[i].who;
      var page := Run(Opened(id, Some(who), Run(Step(t, Unlock(Opens(i, dek))), between).store, day), first);
      && page.user == Some(who) && page.userPending
      && Untouched(a, page.nextTask) && Untouched(b, page.nextTask) && Untouched(c, page.nextTask)
    ensures var who := t.tasks[i].who;
      var page := Run(Opened(id, Some(who), Run(Step(t, Unlock(Opens(i, dek))), between).store, day), first);
      var k, started := page.nextTask, Step(page, Effect(ProbeEffect));
      var asked := Run(started, a);
      var reading := Run(Step(asked, Probe(Status(k, Some((who, true))))), b);
      var landing := Run(Step(reading, Probe(RecordRead(k, false))), c);
      Newest(reading.store, t.store.nextOp) && landing.ctx.generation == started.ctx.generation ==>
        Step(landing, Probe(Lands(k))).ctx.state == Unlocked(SessionKey(dek, who, asked.forgets))
  {
    var who, put := t.tasks[i].who, PutBy(t, t.tasks[i].who, dek);
    CeremonyPuts(t, i, dek);
    var opener := Step(t, Unlock(Opens(i, dek)));
    RunKeeps(opener, between, put);
    var loaded := Opened(id, Some(who), Run(opener, between).store, day);
    RunKeeps(loaded, first, put);
    var page := Run(loaded, first);
    ProbeFindsKept(page.(userPending := false), put, a, b, c);
  }
}
