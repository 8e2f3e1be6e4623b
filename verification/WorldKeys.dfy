/** One data key per account, in every state honest devices can reach. */
module WorldKeys {
  import opened Base
  import opened Crypto
  import opened Accounts
  import opened Routes
  import opened Ceremonies
  import opened EncryptionState
  import opened Keystore
  import opened Hook
  import opened Tab
  import opened World

  type Deks = map<Account, Dek>

  predicate Is(deks: Deks, user: Account, dek: Dek) {
    user in deks && deks[user] == dek
  }

  predicate GoodKey(deks: Deks, key: SessionKey) {
    Is(deks, key.user, key.dek)
  }

  predicate GoodBody(deks: Deks, user: Account, body: Body) {
    body.Sealed? && Is(deks, user, body.dek)
  }

  predicate GoodRow(deks: Deks, row: WrapRow) {
    row.user in deks && GoodWrap(row.kind, row.cred, row.blob, deks[row.user])
  }

  ghost predicate GoodRows(deks: Deks, db: Db) {
    forall i :: i in db.wraps ==> GoodRow(deks, db.wraps[i])
  }

  ghost predicate GoodDb(deks: Deks, db: Db) {
    && AccountInv(db)
    && deks.Keys == db.encrypted
    && GoodRows(deks, db)
    && (forall k :: k in db.entries ==> GoodBody(deks, k.0, db.entries[k]))
  }

  predicate GoodRequest(deks: Deks, r: Request) {
    match r
    case EnableReq(_, _, user, dek, passkey, keyBlob) =>
      && GoodWrap(EncryptionKey, None, keyBlob, dek)
      && (passkey.Some? ==> GoodWrap(Passkey, Some(passkey.value.cred), passkey.value.blob, dek))
    case AddReq(user, cred, blob) => user in deks && GoodWrap(Passkey, Some(cred), blob, deks[user])
    case ReplaceReq(user, blob) => user in deks && GoodWrap(EncryptionKey, None, blob, deks[user])
    case SaveReq(user, _, body, _) => GoodBody(deks, user, body)
  }

  ghost predicate GoodHeard(w: World, h: Heard) {
    match h
    case StatusHeard(_, _, account, enabled) => enabled ==> account in w.deks
    case WrapsHeard(user, wraps) => wraps != [] ==> user in w.deks && GoodList(wraps, w.deks[user])
    case RowHeard(user, _, body) => body.Some? ==> GoodBody(w.deks, user, body.value)
    case RangeHeard(user, bodies) => forall b :: b in bodies ==> GoodBody(w.deks, user, b)
    case EnableDone(page, task) =>
      && (exists r :: r in w.sent && r.EnableReq? && r.page == page && r.task == task)
      && forall r :: r in w.sent && r.EnableReq? && r.page == page && r.task == task ==> Is(w.deks, r.user, r.dek)
  }

  /** At most one enable request per ceremony. */
  ghost predicate EnablesOnce(w: World) {
    forall a, b :: a in w.sent && b in w.sent && a.EnableReq? && b.EnableReq? && a.page == b.page && a.task == b.task ==> a == b
  }

  ghost predicate GoodStore(deks: Deks, s: Store) {
    && (s.record.Some? ==> Is(deks, s.record.value.user, s.record.value.dek))
    && forall k :: 0 <= k < |s.queue| && s.queue[k].Put? ==> Is(deks, s.queue[k].record.user, s.queue[k].record.dek)
  }

  /** What a task carries is the owner's, and any key in it is the owner's data key. */
  predicate GoodTask(deks: Deks, owner: Option<Account>, task: Task) {
    match task
    case ProbeStatus(_, who) => owner == Some(who)
    case ProbeRestore(_, who, _) => owner == Some(who) && who in deks
    case ProbeRestored(_, who, _, found) => owner == Some(who) && who in deks && (found.Some? ==> Is(deks, who, found.value))
    case Ceremony(who, _) => owner == Some(who)
    case InHand(key) => owner == Some(key.user) && GoodKey(deks, key)
    case UnlockWriting(key, _, _) => owner == Some(key.user) && GoodKey(deks, key)
    case Loading(_, _, session) => session.Some? ==> owner == Some(session.value.user) && GoodKey(deks, session.value)
    case WeekLoading(_, _, session) => session.Some? ==> owner == Some(session.value.user) && GoodKey(deks, session.value)
    case _ => true
  }

  /** `Locked` and `Unlocked` are only ever claimed of an account that has a data key. */
  predicate GoodState(deks: Deks, owner: Option<Account>, state: State) {
    match state
    case Locked => owner.Some? && owner.value in deks
    case Unlocked(key) => owner == Some(key.user) && GoodKey(deks, key)
    case _ => true
  }

  ghost predicate GoodTab(deks: Deks, owner: Option<Account>, t: Tab) {
    && (t.user == owner || t.user.None?)
    && GoodState(deks, owner, t.ctx.state)
    && forall k :: k in t.tasks ==> GoodTask(deks, owner, t.tasks[k])
  }

  /** The data an event brings is true of the accounts it is about. */
  predicate GoodEvent(deks: Deks, owner: Option<Account>, t: Tab, e: Event) {
    match e
    case Probe(Status(k, Some((account, enabled)))) => enabled ==> account in deks
    case Unlock(Opens(k, dek)) => k in t.tasks && t.tasks[k].Ceremony? ==> Is(deks, t.tasks[k].who, dek)
    case Unlock(Holds(k, dek)) => k in t.tasks && t.tasks[k].Ceremony? ==> Is(deks, t.tasks[k].who, dek)
    case Enter(SignInOpens(_, who, dek)) => Is(deks, who, dek)
    case Load(Arrives(_, Row(Some(Sealed(_, _))))) => owner.Some? && owner.value in deks
    case Load(WeekArrives(_, Some(bodies))) => forall b :: b in bodies && b.Sealed? ==> owner.Some? && owner.value in deks
    case Storage(Foreign(_)) => false
    case _ => true
  }

  // ------------------------------------------------------------- one page

  lemma UnlockCalledKeeps(deks: Deks, owner: Option<Account>, t: Tab, key: SessionKey)
    requires GoodTab(deks, owner, t) && GoodStore(deks, t.store) && GoodKey(deks, key) && owner == Some(key.user)
    ensures GoodTab(deks, owner, UnlockCalled(t, key)) && GoodStore(deks, UnlockCalled(t, key).store)
  {}

  lemma RowSeenKeeps(deks: Deks, owner: Option<Account>, t: Tab, row: UnreadableRow)
    requires GoodTab(deks, owner, t) && (row.SealedRow? ==> owner.Some? && owner.value in deks)
    ensures GoodTab(deks, owner, RowSeen(t, row)) && RowSeen(t, row).store == t.store
  {}

  lemma UserKeeps(deks: Deks, owner: Option<Account>, t: Tab, a: UserAct)
    requires GoodTab(deks, owner, t) && GoodStore(deks, t.store)
    ensures GoodTab(deks, owner, UserStep(t, a)) && GoodStore(deks, UserStep(t, a).store)
  {
    match a
    case UseKey(i) => if i in t.tasks && t.tasks[i].InHand? { UnlockCalledKeeps(deks, owner, Dropped(t, i), t.tasks[i].key); }
    case Lock => LockKeeps(deks, owner, t);
    case _ =>
  }

  lemma LockKeeps(deks: Deks, owner: Option<Account>, t: Tab)
    requires GoodTab(deks, owner, t) && GoodStore(deks, t.store)
    ensures GoodTab(deks, owner, UserStep(t, Lock)) && GoodStore(deks, UserStep(t, Lock).store)
  {}

  lemma ProbeKeeps(deks: Deks, owner: Option<Account>, t: Tab, a: ProbeAct)
    requires GoodTab(deks, owner, t) && GoodStore(deks, t.store) && GoodEvent(deks, owner, t, Probe(a))
    ensures GoodTab(deks, owner, ProbeStep(t, a)) && GoodStore(deks, ProbeStep(t, a).store)
  {
    match a
    case Status(i, answer) => if i in t.tasks && t.tasks[i].ProbeStatus? { StatusKeeps(deks, owner, t, i, answer); }
    case RecordRead(i, failed) => if i in t.tasks && t.tasks[i].ProbeRestore? { RecordReadKeeps(deks, owner, t, i, failed); }
    case Lands(i) => if i in t.tasks && t.tasks[i].ProbeRestored? { LandsKeeps(deks, owner, t, i); }
  }

  lemma RecordReadKeeps(deks: Deks, owner: Option<Account>, t: Tab, i: nat, failed: bool)
    requires GoodTab(deks, owner, t) && GoodStore(deks, t.store) && i in t.tasks && t.tasks[i].ProbeRestore?
    ensures GoodTab(deks, owner, ProbeStep(t, RecordRead(i, failed)))
    ensures GoodStore(deks, ProbeStep(t, RecordRead(i, failed)).store)
  {
    var task, writer := t.tasks[i], Writer(t.id, t.forgets);
    var read := t.(store := t.store.AfterGet(task.who, writer));
    ContinuedKeeps(deks, owner, t, i, ProbeRestored(task.token, task.who, task.captured, None));
    ContinuedKeeps(deks, owner, read, i, ProbeRestored(task.token, task.who, task.captured, t.store.Found(task.who)));
  }

  lemma LandsKeeps(deks: Deks, owner: Option<Account>, t: Tab, i: nat)
    requires GoodTab(deks, owner, t) && i in t.tasks && t.tasks[i].ProbeRestored?
    ensures GoodTab(deks, owner, ProbeStep(t, Lands(i))) && ProbeStep(t, Lands(i)).store == t.store
  {}

  lemma StatusKeeps(deks: Deks, owner: Option<Account>, t: Tab, i: nat, answer: Option<(Account, bool)>)
    requires GoodTab(deks, owner, t) && i in t.tasks && t.tasks[i].ProbeStatus?
    requires answer.Some? && answer.value.1 ==> answer.value.0 in deks
    ensures var u := StatusAnswered(t, i, t.tasks[i].token, t.tasks[i].who, answer);
            GoodTab(deks, owner, u) && u.store == t.store
  {}

  lemma UnlockKeeps(deks: Deks, owner: Option<Account>, t: Tab, a: UnlockAct)
    requires GoodTab(deks, owner, t) && GoodStore(deks, t.store) && GoodEvent(deks, owner, t, Unlock(a))
    ensures GoodTab(deks, owner, UnlockStep(t, a)) && GoodStore(deks, UnlockStep(t, a).store)
  {
    if a.Opens? && a.task in t.tasks && t.tasks[a.task].Ceremony? {
      UnlockCalledKeeps(deks, owner, Dropped(t, a.task), SessionKey(a.dek, t.tasks[a.task].who, t.tasks[a.task].captured));
    }
  }

  lemma LeaveKeeps(deks: Deks, owner: Option<Account>, t: Tab, a: LeaveAct)
    requires GoodTab(deks, owner, t) && GoodStore(deks, t.store) && GoodEvent(deks, owner, t, Leave(a))
    ensures GoodTab(deks, owner, LeaveStep(t, a)) && GoodStore(deks, LeaveStep(t, a).store)
  {
    match a
    case Forgets(i) => ForgetsKeeps(deks, owner, t, i);
    case KeyGone(i) => ContinuedKeeps(deks, owner, t, i, SignOutEnding);
    case Cleared(_) =>
    case Logout(_, _) =>
  }

  lemma ForgetsKeeps(deks: Deks, owner: Option<Account>, t: Tab, i: nat)
    requires GoodTab(deks, owner, t) && GoodStore(deks, t.store)
    ensures GoodTab(deks, owner, LeaveStep(t, Forgets(i))) && GoodStore(deks, LeaveStep(t, Forgets(i)).store)
  {
    ForgottenKeeps(deks, owner, t);
    ContinuedKeeps(deks, owner, Forgotten(t), i, SignOutClearing(t.store.nextOp, t.forgets + 1));
  }

  lemma ForgottenKeeps(deks: Deks, owner: Option<Account>, t: Tab)
    requires GoodTab(deks, owner, t) && GoodStore(deks, t.store)
    ensures GoodTab(deks, owner, Forgotten(t)) && GoodStore(deks, Forgotten(t).store)
  {}

  lemma ContinuedKeeps(deks: Deks, owner: Option<Account>, t: Tab, i: nat, task: Task)
    requires GoodTab(deks, owner, t) && GoodTask(deks, owner, task)
    ensures GoodTab(deks, owner, Continued(t, i, task)) && Continued(t, i, task).store == t.store
  {}

  lemma EffectKeeps(deks: Deks, owner: Option<Account>, t: Tab, a: EffectAct)
    requires GoodTab(deks, owner, t)
    ensures GoodTab(deks, owner, EffectStep(t, a)) && EffectStep(t, a).store == t.store
  {
    match a
    case ProbeEffect => ProbeStartedKeeps(deks, owner, t.(userPending := false));
    case GateEffect => ProbeStartedKeeps(deks, owner, t.(gate := false));
    case LoadEffect => LoadEffectKeeps(deks, owner, t);
    case WeekEffect => WeekEffectKeeps(deks, owner, t);
  }

  lemma LoadEffectKeeps(deks: Deks, owner: Option<Account>, t: Tab)
    requires GoodTab(deks, owner, t)
    ensures GoodTab(deks, owner, EffectStep(t, LoadEffect)) && EffectStep(t, LoadEffect).store == t.store
  {}

  lemma WeekEffectKeeps(deks: Deks, owner: Option<Account>, t: Tab)
    requires GoodTab(deks, owner, t)
    ensures GoodTab(deks, owner, EffectStep(t, WeekEffect)) && EffectStep(t, WeekEffect).store == t.store
  {
    if KeyOf(t.ctx.state).Some? { SessionIsGood(deks, owner, t.ctx.state); }
  }

  lemma SessionIsGood(deks: Deks, owner: Option<Account>, state: State)
    requires GoodState(deks, owner, state) && KeyOf(state).Some?
    ensures owner == Some(KeyOf(state).value.user) && GoodKey(deks, KeyOf(state).value)
  {}

  lemma ProbeStartedKeeps(deks: Deks, owner: Option<Account>, t: Tab)
    requires GoodTab(deks, owner, t)
    ensures GoodTab(deks, owner, ProbeStarted(t, Unknown)) && ProbeStarted(t, Unknown).store == t.store
  {}

  lemma EnterKeeps(deks: Deks, owner: Option<Account>, t: Tab, a: EnterAct)
    requires GoodTab(deks, owner, t) && GoodStore(deks, t.store) && GoodEvent(deks, owner, t, Enter(a))
    ensures GoodTab(deks, owner, EnterStep(t, a)) && GoodStore(deks, EnterStep(t, a).store)
  {
    match a
    case SignInOpens(i, who, dek) => SignInOpensKeeps(deks, owner, t, i, who, dek);
    case SignInEnds(_) =>
  }

  lemma SignInOpensKeeps(deks: Deks, owner: Option<Account>, t: Tab, i: nat, who: Account, dek: Dek)
    requires GoodTab(deks, owner, t) && GoodStore(deks, t.store) && Is(deks, who, dek)
    ensures GoodTab(deks, owner, EnterStep(t, SignInOpens(i, who, dek)))
    ensures GoodStore(deks, EnterStep(t, SignInOpens(i, who, dek)).store)
  {
    ContinuedKeeps(deks, owner, t, i, SignInWriting(t.store.nextOp));
  }

  lemma LoadKeeps(deks: Deks, owner: Option<Account>, t: Tab, a: LoadAct)
    requires GoodTab(deks, owner, t) && GoodStore(deks, t.store) && GoodEvent(deks, owner, t, Load(a))
    ensures GoodTab(deks, owner, LoadStep(t, a)) && GoodStore(deks, LoadStep(t, a).store)
  {
    if a.Arrives? && a.task in t.tasks && t.tasks[a.task].Loading? {
      LoadDoneKeeps(deks, owner, Dropped(t, a.task), t.tasks[a.task].token, t.tasks[a.task].session, a.fetched);
    } else if a.WeekArrives? && a.task in t.tasks && t.tasks[a.task].WeekLoading? && a.bodies.Some? {
      WeekDoneKeeps(deks, owner, Dropped(t, a.task), t.tasks[a.task].token, t.tasks[a.task].session, a.bodies.value);
    }
  }

  lemma LoadDoneKeeps(deks: Deks, owner: Option<Account>, t: Tab, token: nat, session: Option<SessionKey>, fetched: Fetched)
    requires GoodTab(deks, owner, t)
    requires fetched.Row? && fetched.body.Some? && fetched.body.value.Sealed? ==> owner.Some? && owner.value in deks
    ensures GoodTab(deks, owner, LoadDone(t, token, session, fetched))
    ensures LoadDone(t, token, session, fetched).store == t.store
  {
    var loaded := LoadedValue(fetched, session);
    var shown := t.(hook := t.hook.Finished(token, loaded, t.ctx.StartsReprobe(UnopenableRow)));
    RowSeenKeeps(deks, owner, shown, UnopenableRow);
    if loaded.WasSealed? { RowSeenKeeps(deks, owner, shown, SealedRow); }
  }

  lemma WeekDoneKeeps(deks: Deks, owner: Option<Account>, t: Tab, token: nat, session: Option<SessionKey>, bodies: seq<Body>)
    requires GoodTab(deks, owner, t)
    requires forall b :: b in bodies && b.Sealed? ==> owner.Some? && owner.value in deks
    ensures GoodTab(deks, owner, WeekDone(t, token, session, Some(bodies)))
    ensures WeekDone(t, token, session, Some(bodies)).store == t.store
  {
    WeekReportsOneReason(bodies, session);
    RowSeenKeeps(deks, owner, t, UnopenableRow);
    if AnySealed(bodies, session) { RowSeenKeeps(deks, owner, t, SealedRow); }
  }

  lemma StepKeepsTab(deks: Deks, owner: Option<Account>, t: Tab, e: Event)
    requires GoodTab(deks, owner, t) && GoodStore(deks, t.store) && GoodEvent(deks, owner, t, e)
    ensures GoodTab(deks, owner, Step(t, e)) && GoodStore(deks, Step(t, e).store)
  {
    match e
    case User(a) => UserKeeps(deks, owner, t, a);
    case Effect(a) => EffectKeeps(deks, owner, t, a);
    case Probe(a) => ProbeKeeps(deks, owner, t, a);
    case Unlock(a) => UnlockKeeps(deks, owner, t, a);
    case Leave(a) => LeaveKeeps(deks, owner, t, a);
    case Enter(a) => EnterKeeps(deks, owner, t, a);
    case Load(a) => LoadKeeps(deks, owner, t, a);
    case Storage(_) =>
  }

  // ------------------------------------------------------------ the world

  ghost predicate PagesGood(w: World) {
    && (forall i :: i in w.pages ==> i < w.nextPage && GoodTab(w.deks, w.pages[i].owner, w.pages[i].tab))
    && (forall b :: b in w.stores ==> GoodStore(w.deks, w.stores[b]))
  }

  ghost predicate MessagesGood(w: World) {
    && (forall r :: r in w.sent ==> GoodRequest(w.deks, r))
    && (forall h :: h in w.heard ==> GoodHeard(w, h))
    && EnablesOnce(w)
    && forall r :: r in w.sent && r.EnableReq? ==>
         r.page < w.nextPage && (r.page in w.pages ==> w.pages[r.page].owner == Some(r.user))
  }

  ghost predicate WorldInv(w: World) {
    GoodDb(w.deks, w.db) && PagesGood(w) && MessagesGood(w)
  }

  predicate Extends(a: Deks, b: Deks) {
    forall u :: u in a ==> u in b && b[u] == a[u]
  }

  lemma GoodnessGrows(a: Deks, b: Deks, w: World, v: World)
    requires Extends(a, b) && w.deks == a && v == w.(deks := b, db := v.db)
    requires PagesGood(w) && MessagesGood(w)
    ensures PagesGood(v) && MessagesGood(v)
  {
    forall i | i in v.pages ensures GoodTab(b, v.pages[i].owner, v.pages[i].tab) {
      TabGrows(a, b, v.pages[i].owner, v.pages[i].tab);
    }
    forall h | h in v.heard ensures GoodHeard(v, h) { assert GoodHeard(w, h); }
    forall r | r in v.sent ensures GoodRequest(b, r) { assert GoodRequest(a, r); }
  }

  lemma TabGrows(a: Deks, b: Deks, owner: Option<Account>, t: Tab)
    requires Extends(a, b) && GoodTab(a, owner, t)
    ensures GoodTab(b, owner, t)
  {
    forall k | k in t.tasks ensures GoodTask(b, owner, t.tasks[k]) { assert GoodTask(a, owner, t.tasks[k]); }
  }

  lemma ActedKeeps(w: World, i: nat, e: Event)
    requires WorldInv(w) && i in w.pages && GoodEvent(w.deks, w.pages[i].owner, w.pages[i].tab, e)
    ensures WorldInv(Acted(w, i, e))
  {
    var t := Present(w, i);
    assert GoodTab(w.deks, w.pages[i].owner, t);
    StepKeepsTab(w.deks, w.pages[i].owner, t, e);
    var v := Acted(w, i, e);
    forall h | h in v.heard ensures GoodHeard(v, h) { assert GoodHeard(w, h); }
  }

  lemma HeardKeeps(w: World, h: Heard)
    requires WorldInv(w) && GoodHeard(w, h)
    ensures WorldInv(w.(heard := w.heard + {h}))
  {
    var v := w.(heard := w.heard + {h});
    forall g | g in v.heard ensures GoodHeard(v, g) { assert GoodHeard(w, g); }
  }

  lemma SentKeeps(w: World, r: Request)
    requires WorldInv(w) && GoodRequest(w.deks, r)
    requires r.EnableReq? ==>
      && r.page in w.pages && w.pages[r.page].owner == Some(r.user)
      && forall q :: q in w.sent && q.EnableReq? ==> q.page != r.page || q.task != r.task
    ensures WorldInv(w.(sent := w.sent + {r}))
  {
    var v := w.(sent := w.sent + {r});
    forall g | g in v.heard ensures GoodHeard(v, g) { assert GoodHeard(w, g); }
  }

  lemma InsertKeepsGood(deks: Deks, db: Db, row: WrapRow)
    requires GoodRows(deks, db) && GoodRow(deks, row)
    ensures InsertRow(db, row).Some? ==> GoodRows(deks, InsertRow(db, row).value)
  {}

  lemma EnableKeepsRows(deks: Deks, db: Db, r: Request)
    requires GoodRows(deks, db) && GoodRequest(deks, r) && r.EnableReq? && r.user !in deks
    ensures EnableWraps(db, r.user, r.passkey, r.keyBlob).Some? ==>
            GoodRows(deks[r.user := r.dek], EnableWraps(db, r.user, r.passkey, r.keyBlob).value)
  {
    var grown := deks[r.user := r.dek];
    var marked := db.(encrypted := db.encrypted + {r.user});
    assert GoodRows(grown, marked);
    if r.passkey.Some? {
      var row := NewRow(r.user, Passkey, Some(r.passkey.value.cred), r.passkey.value.blob);
      InsertKeepsGood(grown, marked, row);
      if InsertRow(marked, row).Some? {
        InsertKeepsGood(grown, InsertRow(marked, row).value, NewRow(r.user, EncryptionKey, None, r.keyBlob));
      }
    } else {
      InsertKeepsGood(grown, marked, NewRow(r.user, EncryptionKey, None, r.keyBlob));
    }
  }

  lemma EnableOutcome(db: Db, me: Account, passkey: Option<PasskeyWrap>, keyBlob: Blob)
    ensures var (after, reply) := Apply(db, me, Enable(passkey, keyBlob));
            if reply.Done? then
              && me !in db.encrypted && EnableWraps(db, me, passkey, keyBlob) == Some(after)
              && after.encrypted == db.encrypted + {me} && after.entries == db.entries
            else after == db
  {}

  lemma EnableKeepsEntries(deks: Deks, db: Db, r: Request, after: Db)
    requires GoodDb(deks, db) && r.EnableReq? && r.user !in deks
    requires after.entries == db.entries && after.encrypted == db.encrypted + {r.user}
    ensures var grown := deks[r.user := r.dek];
      grown.Keys == after.encrypted && forall k :: k in after.entries ==> GoodBody(grown, k.0, after.entries[k])
  {}

  /** The first enable fixes the account's data key; a later one is refused. */
  lemma EnableKeepsDb(deks: Deks, db: Db, r: Request)
    requires GoodDb(deks, db) && GoodRequest(deks, r) && r.EnableReq?
    ensures var (after, reply) := Apply(db, r.user, CallOf(r));
            if reply.Done? then r.user !in deks && GoodDb(deks[r.user := r.dek], after) else after == db
  {
    EnableOutcome(db, r.user, r.passkey, r.keyBlob);
    if Answer(db, r.user, CallOf(r)).Done? {
      CallKeepsInv(db, r.user, CallOf(r));
      EnableKeepsRows(deks, db, r);
      EnableKeepsEntries(deks, db, r, After(db, r.user, CallOf(r)));
    }
  }

  /** What honest clients post, besides enabling. */
  predicate GoodCall(deks: Deks, user: Account, call: Call) {
    match call
    case Enable(_, _) => false
    case AddPasskeyWrap(cred, blob) => user in deks && GoodWrap(Passkey, Some(cred), blob, deks[user])
    case ReplaceKeyWrap(blob) => user in deks && GoodWrap(EncryptionKey, None, blob, deks[user])
    case SaveEntry(_, body, _) => GoodBody(deks, user, body)
    case _ => true
  }

  lemma CallKeepsRows(deks: Deks, db: Db, user: Account, call: Call)
    requires GoodRows(deks, db) && GoodCall(deks, user, call)
    ensures GoodRows(deks, After(db, user, call))
  {
    match call
    case AddPasskeyWrap(cred, blob) => InsertKeepsGood(deks, db, NewRow(user, Passkey, Some(cred), blob));
    case ReplaceKeyWrap(blob) => InsertKeepsGood(deks, DeleteKeyRows(db, user), NewRow(user, EncryptionKey, None, blob));
    case _ =>
  }

  lemma CallKeepsDb(deks: Deks, db: Db, user: Account, call: Call)
    requires GoodDb(deks, db) && GoodCall(deks, user, call)
    ensures GoodDb(deks, After(db, user, call))
  {
    CallKeepsInv(db, user, call);
    CallKeepsRows(deks, db, user, call);
    CallKeepsEntries(deks, db, user, call);
  }

  lemma CallKeepsEntries(deks: Deks, db: Db, user: Account, call: Call)
    requires deks.Keys == db.encrypted && GoodCall(deks, user, call)
    requires forall k :: k in db.entries ==> GoodBody(deks, k.0, db.entries[k])
    ensures var after := After(db, user, call);
            after.encrypted == db.encrypted && forall k :: k in after.entries ==> GoodBody(deks, k.0, after.entries[k])
  {}

  /**
   Why the cookie has to name the page's account: a sealed save keeps every
   stored body openable exactly when it is refused or sealed under the data key
   of the account it is filed for. Nothing on the server checks that.
   */
  lemma SaveKeepsKeysIff(deks: Deks, db: Db, me: Account, day: Day, dek: Dek, text: string, size: nat)
    requires GoodDb(deks, db)
    ensures GoodDb(deks, After(db, me, SaveEntry(day, Sealed(dek, text), size)))
       <==> size > MAX_BODY_BYTES || me !in db.encrypted || Is(deks, me, dek)
  {
    var call := SaveEntry(day, Sealed(dek, text), size);
    if Is(deks, me, dek) {
      CallKeepsDb(deks, db, me, call);
    } else if Answer(db, me, call).Done? {
      assert After(db, me, call).entries[(me, day)] == Sealed(dek, text);
    }
  }

  lemma DbKeeps(w: World, db: Db)
    requires WorldInv(w) && GoodDb(w.deks, db)
    ensures WorldInv(w.(db := db))
  {
    var v := w.(db := db);
    forall h | h in v.heard ensures GoodHeard(v, h) { assert GoodHeard(w, h); }
  }

  lemma ExecuteKeeps(w: World, r: Request)
    requires WorldInv(w) && r in w.sent
    ensures WorldInv(Executed(w, r))
  {
    assert GoodRequest(w.deks, r);
    if r.EnableReq? {
      EnableKeepsDb(w.deks, w.db, r);
      var (after, reply) := Apply(w.db, r.user, CallOf(r));
      if reply.Done? {
        var v := w.(db := after, deks := w.deks[r.user := r.dek]);
        GoodnessGrows(w.deks, v.deks, w, v);
        EnableAnswered(v, r);
        HeardKeeps(v, EnableDone(r.page, r.task));
      }
    } else {
      CallKeepsDb(w.deks, w.db, r.user, CallOf(r));
      DbKeeps(w, After(w.db, r.user, CallOf(r)));
    }
  }

  lemma EnableAnswered(w: World, r: Request)
    requires MessagesGood(w) && r in w.sent && r.EnableReq? && Is(w.deks, r.user, r.dek)
    ensures GoodHeard(w, EnableDone(r.page, r.task))
  {}

  lemma ListingIsGood(deks: Deks, db: Db, user: Account, order: seq<nat>)
    requires GoodDb(deks, db) && IsListing(db, user, order)
    ensures order != [] ==> user in deks && GoodList(Listing(db, order), deks[user])
  {
    if order != [] { assert order[0] in order; }
    forall i | 0 <= i < |order|
      ensures user in deks && var dto := Listing(db, order)[i];
              ParseKind(dto.kind).Some? && GoodWrap(ParseKind(dto.kind).value, dto.cred, dto.blob, deks[user])
    {
      assert order[i] in order;
      var row := db.wraps[order[i]];
      assert ParseKind(KindText(row.kind)) == Some(row.kind);
    }
  }

  /** Whatever was opened out of wraps the server sent is that account's data key. */
  lemma ObtainedKeyIsGood(w: World, user: Account, wraps: seq<WrapDto>, source: KeySource, answer: Assertion)
    requires WorldInv(w) && KeyObtained(w, user, wraps, source, answer)
    ensures Is(w.deks, user, OpenedKey(wraps, source, answer))
  {
    assert GoodHeard(w, WrapsHeard(user, wraps));
    OpensOnlyTheDataKey(wraps, source, answer, w.deks[user]);
  }

  lemma SentIsGood(w: World, r: Request, plan: Plan)
    requires WorldInv(w) && CanSend(w, r, plan)
    ensures GoodRequest(w.deks, r)
  {
    match r
    case EnableReq(_, _, _, _, _, _) =>
    case AddReq(user, target, _) =>
      assert GoodHeard(w, WrapsHeard(user, plan.wraps));
      AddedWrapIsTheTargets(plan.wraps, target, plan.source, plan.answer, plan.second, w.deks[user]);
    case ReplaceReq(user, _) =>
      assert GoodHeard(w, WrapsHeard(user, plan.wraps));
      OpensOnlyTheDataKey(plan.wraps, plan.source, plan.answer, w.deks[user]);
    case SaveReq(_, _, _, _) =>
      assert GoodTab(w.deks, w.pages[plan.page].owner, w.pages[plan.page].tab);
  }

  lemma SendKeeps(w: World, r: Request, plan: Plan)
    requires WorldInv(w) && CanSend(w, r, plan)
    ensures WorldInv(w.(sent := w.sent + {r}))
  {
    SentIsGood(w, r, plan);
    if r.EnableReq? {
      assert GoodTask(w.deks, w.pages[r.page].owner, w.pages[r.page].tab.tasks[r.task]);
    }
    SentKeeps(w, r);
  }

  lemma ServedIsGood(w: World, h: Heard)
    requires WorldInv(w) && Servable(w, h)
    ensures GoodHeard(w, h)
  {
    if h.WrapsHeard? {
      var order :| IsListing(w.db, h.user, order) && h.wraps == Listing(w.db, order);
      ListingIsGood(w.deks, w.db, h.user, order);
    }
  }

  lemma OpeningIsGood(w: World, i: nat, e: Event, wraps: seq<WrapDto>, source: KeySource, answer: Assertion)
    requires WorldInv(w) && i in w.pages && KeyOpened(w, i, e, wraps, source, answer)
    ensures GoodEvent(w.deks, w.pages[i].owner, w.pages[i].tab, e)
  {
    match e
    case Unlock(Opens(k, _)) => ObtainedKeyIsGood(w, w.pages[i].tab.tasks[k].who, wraps, source, answer);
    case Unlock(Holds(k, _)) => ObtainedKeyIsGood(w, w.pages[i].tab.tasks[k].who, wraps, source, answer);
    case Enter(SignInOpens(_, who, _)) => ObtainedKeyIsGood(w, who, wraps, source, answer);
  }

  lemma EnablingIsGood(w: World, i: nat, e: Event, r: Request)
    requires WorldInv(w) && i in w.pages && EnableAnswers(w, i, e, r)
    ensures GoodEvent(w.deks, w.pages[i].owner, w.pages[i].tab, e)
  {
    assert GoodHeard(w, EnableDone(r.page, r.task));
    assert GoodTask(w.deks, w.pages[i].owner, w.pages[i].tab.tasks[r.task]);
  }

  lemma ToldIsGood(w: World, i: nat, e: Event)
    requires WorldInv(w) && i in w.pages && IsTold(w, i, e)
    ensures GoodEvent(w.deks, w.pages[i].owner, w.pages[i].tab, e)
  {
    match e
    case Probe(Status(k, Some((account, enabled)))) => assert GoodHeard(w, StatusHeard(i, k, account, enabled));
    case Load(Arrives(k, Row(body))) => RowIsGood(w, i, k, body);
    case Load(WeekArrives(k, Some(bodies))) => WeekIsGood(w, i, k, bodies);
  }

  /** A row that reaches a remote load is sealed under the data key of the page's account. */
  lemma RowIsGood(w: World, i: nat, k: nat, body: Option<Body>)
    requires WorldInv(w) && i in w.pages && IsTold(w, i, Load(Arrives(k, Row(body))))
    ensures body.Some? && body.value.Sealed? ==> w.pages[i].owner.Some? && GoodBody(w.deks, w.pages[i].owner.value, body.value)
  {
    var inputs := w.pages[i].tab.tasks[k].inputs;
    if inputs.backend.Remote? {
      assert GoodHeard(w, RowHeard(w.pages[i].owner.value, inputs.day, body));
    }
  }

  lemma WeekIsGood(w: World, i: nat, k: nat, bodies: seq<Body>)
    requires WorldInv(w) && i in w.pages && IsTold(w, i, Load(WeekArrives(k, Some(bodies))))
    ensures forall b :: b in bodies && b.Sealed? ==> w.pages[i].owner.Some? && GoodBody(w.deks, w.pages[i].owner.value, b)
  {
    if w.pages[i].tab.tasks[k].backend.Remote? {
      assert GoodHeard(w, RangeHeard(w.pages[i].owner.value, bodies));
    }
  }

  lemma CausedIsGood(w: World, i: nat, e: Event, cause: Cause)
    requires WorldInv(w) && i in w.pages && Caused(w, i, e, cause)
    ensures GoodEvent(w.deks, w.pages[i].owner, w.pages[i].tab, e)
  {
    match cause
    case Itself =>
    case Told => ToldIsGood(w, i, e);
    case Opening(wraps, source, answer) => OpeningIsGood(w, i, e, wraps, source, answer);
    case Enabling(r) => EnablingIsGood(w, i, e, r);
  }

  lemma OpenPageKeeps(w: World, owner: Option<Account>, browser: nat, today: Day)
    requires WorldInv(w)
    ensures WorldInv(Next(w, OpenPage(owner, browser, today)))
  {
    var v := Next(w, OpenPage(owner, browser, today));
    forall h | h in v.heard ensures GoodHeard(v, h) { assert GoodHeard(w, h); }
  }

  lemma ClosePageKeeps(w: World, i: nat)
    requires WorldInv(w)
    ensures WorldInv(Next(w, ClosePage(i)))
  {
    var v := Next(w, ClosePage(i));
    forall h | h in v.heard ensures GoodHeard(v, h) { assert GoodHeard(w, h); }
  }

  /** The insert of a passkey's wrap may come long after its checks. */
  lemma LateInsertKeeps(w: World, r: Request)
    requires WorldInv(w) && r in w.sent && r.AddReq?
    ensures WorldInv(w.(db := AddInserted(w.db, r.user, r.cred, r.blob).0))
  {
    assert GoodRequest(w.deks, r);
    LateInsertKeepsInv(w.db, r.user, r.cred, r.blob);
    InsertKeepsGood(w.deks, w.db, NewRow(r.user, Passkey, Some(r.cred), r.blob));
    DbKeeps(w, AddInserted(w.db, r.user, r.cred, r.blob).0);
  }

  /** Everything any device, the server or the network can do keeps the world good. */
  lemma NextKeeps(w: World, a: Act)
    requires WorldInv(w) && Can(w, a)
    ensures WorldInv(Next(w, a))
  {
    match a
    case OpenPage(owner, browser, today) => OpenPageKeeps(w, owner, browser, today);
    case ClosePage(i) => ClosePageKeeps(w, i);
    case OnPage(i, e, cause) =>
      CausedIsGood(w, i, e, cause);
      ActedKeeps(w, i, e);
    case Serve(h) =>
      ServedIsGood(w, h);
      HeardKeeps(w, h);
    case Send(r, plan) => SendKeeps(w, r, plan);
    case Execute(r) => ExecuteKeeps(w, r);
    case LateInsert(r) => LateInsertKeeps(w, r);
    case Manage(user, call) =>
      CallKeepsDb(w.deks, w.db, user, call);
      DbKeeps(w, After(w.db, user, call));
  }

  lemma {:induction false} ReachableIsGood(w: World, acts: seq<Act>, end: World)
    requires WorldInv(w) && Reaches(w, acts, end)
    ensures WorldInv(end)
    decreases |acts|
  {
    if acts != [] {
      NextKeeps(w, acts[0]);
      ReachableIsGood(Next(w, acts[0]), acts[1..], end);
    }
  }

  // ------------------------------------------------------------- theorems

  /** What the holder of a row's secret gets out of the account's wraps: its passkey's answer, or its key as it was shown. */
  predicate Unlocks(row: WrapRow, wraps: seq<WrapDto>, answer: Assertion, dek: Dek) {
    match row.kind
    case Passkey => row.cred.Some? && UnlockWith(wraps, FromPasskey, Assertion.Answered(row.cred.value)) == Ok(dek)
    case EncryptionKey =>
      && row.blob.Wrapped? && |row.blob.kek.ikm| == Codec.KEY_BYTES
      && UnlockWith(wraps, FromKey(Codec.FormatKey(row.blob.kek.ikm)), answer) == Ok(dek)
  }

  ghost predicate EveryWrapGives(db: Db, user: Account, dek: Dek) {
    forall i, order, answer :: i in db.wraps && db.wraps[i].user == user && IsListing(db, user, order) ==>
      Unlocks(db.wraps[i], Listing(db, order), answer, dek)
  }

  /** `dek` is what everything of `user`'s comes down to. */
  ghost predicate IsTheDataKey(w: World, user: Account, dek: Dek) {
    && EveryWrapGives(w.db, user, dek)
    && (forall k :: k in w.db.entries && k.0 == user ==> w.db.entries[k].Sealed? && w.db.entries[k].dek == dek)
    && (forall i :: i in w.pages && w.pages[i].tab.ctx.state.Unlocked? && w.pages[i].tab.ctx.state.key.user == user ==>
          w.pages[i].tab.ctx.state.key.dek == dek)
    && (forall b :: b in w.stores && w.stores[b].record.Some? && w.stores[b].record.value.user == user ==>
          w.stores[b].record.value.dek == dek)
  }

  /** No wrap, no stored body, no page unlocked and no keystore record. */
  ghost predicate HasNothing(w: World, user: Account) {
    && (forall i :: i in w.db.wraps ==> w.db.wraps[i].user != user)
    && (forall k :: k in w.db.entries ==> k.0 != user)
    && (forall i :: i in w.pages && w.pages[i].tab.ctx.state.Unlocked? ==> w.pages[i].tab.ctx.state.key.user != user)
    && (forall b :: b in w.stores && w.stores[b].record.Some? ==> w.stores[b].record.value.user != user)
  }

  lemma NothingWithoutAKey(w: World, user: Account)
    requires WorldInv(w) && user !in w.deks
    ensures HasNothing(w, user)
  {
    forall i | i in w.pages && w.pages[i].tab.ctx.state.Unlocked? ensures w.pages[i].tab.ctx.state.key.user != user {
      assert GoodTab(w.deks, w.pages[i].owner, w.pages[i].tab);
    }
    forall i | i in w.db.wraps ensures w.db.wraps[i].user != user {
      assert GoodRow(w.deks, w.db.wraps[i]);
    }
  }

  /** It stays the one, whatever anybody does. */
  ghost predicate IsTheDataKeyForGood(w: World, user: Account, dek: Dek) {
    forall later: seq<Act>, end: World :: Reaches(w, later, end) ==> IsTheDataKey(end, user, dek)
  }

  lemma RowUnlocks(w: World, i: nat, order: seq<nat>, answer: Assertion)
    requires WorldInv(w) && i in w.db.wraps && IsListing(w.db, w.db.wraps[i].user, order)
    ensures w.db.wraps[i].user in w.deks
    ensures Unlocks(w.db.wraps[i], Listing(w.db, order), answer, w.deks[w.db.wraps[i].user])
  {
    var row := w.db.wraps[i];
    assert GoodRow(w.deks, row);
    ChooseRouteFindsTheRow(w.db, row.user, order, row.cred);
    assert IsAskedRow(row, row.user, row.cred);
    ChosenRowUnlocks(row, Listing(w.db, order), answer, w.deks[row.user]);
  }

  lemma ChosenRowUnlocks(row: WrapRow, wraps: seq<WrapDto>, answer: Assertion, dek: Dek)
    requires GoodWrap(row.kind, row.cred, row.blob, dek) && (row.kind.EncryptionKey? ==> row.cred.None?)
    requires ChooseRoute(wraps, row.cred) == Some(Route(row.kind, row.cred, row.blob))
    ensures Unlocks(row, wraps, answer, dek)
  {
    if row.kind.EncryptionKey? { Codec.NormalizeOfFormat(row.blob.kek.ikm); }
  }

  lemma DataKeyOfGoodWorld(w: World, user: Account, dek: Dek)
    requires WorldInv(w) && (user in w.deks ==> dek == w.deks[user])
    ensures IsTheDataKey(w, user, dek)
  {
    forall i, order, answer | i in w.db.wraps && w.db.wraps[i].user == user && IsListing(w.db, user, order)
      ensures Unlocks(w.db.wraps[i], Listing(w.db, order), answer, dek)
    {
      RowUnlocks(w, i, order, answer);
    }
    forall i | i in w.pages && w.pages[i].tab.ctx.state.Unlocked? && w.pages[i].tab.ctx.state.key.user == user
      ensures w.pages[i].tab.ctx.state.key.dek == dek
    {
      assert GoodTab(w.deks, w.pages[i].owner, w.pages[i].tab);
    }
  }

  lemma {:induction false} Listed(ids: set<nat>) returns (order: seq<nat>)
    ensures forall i, j :: 0 <= i < j < |order| ==> order[i] != order[j]
    ensures forall id :: id in order <==> id in ids
  {
    order := [];
    if ids != {} {
      var id :| id in ids;
      order := Listed(ids - {id});
      order := [id] + order;
    }
  }

  /** Only one data key can be the account's: it has a wrap, and the wrap has one key in it. */
  lemma DataKeyIsUnique(db: Db, user: Account, a: Dek, b: Dek)
    requires AccountInv(db) && user in db.encrypted
    requires EveryWrapGives(db, user, a) && EveryWrapGives(db, user, b)
    ensures a == b
  {
    var order := Listed(set i | i in db.wraps && db.wraps[i].user == user);
    var i :| i in db.wraps && IsKeyRow(db.wraps[i], user);
    SameKeyOut(db.wraps[i], Listing(db, order), a, b);
  }

  lemma SameKeyOut(row: WrapRow, wraps: seq<WrapDto>, a: Dek, b: Dek)
    requires Unlocks(row, wraps, NoAnswer, a) && Unlocks(row, wraps, NoAnswer, b)
    ensures a == b
  {}

  lemma NextExtends(w: World, a: Act)
    requires WorldInv(w) && Can(w, a)
    ensures Extends(w.deks, Next(w, a).deks)
  {
    if a.Execute? && a.request.EnableReq? {
      assert GoodRequest(w.deks, a.request);
      EnableKeepsDb(w.deks, w.db, a.request);
    }
  }

  lemma {:induction false} RunExtends(w: World, acts: seq<Act>, end: World)
    requires WorldInv(w) && Reaches(w, acts, end)
    ensures Extends(w.deks, end.deks)
    decreases |acts|
  {
    if acts != [] {
      NextKeeps(w, acts[0]);
      NextExtends(w, acts[0]);
      RunExtends(Next(w, acts[0]), acts[1..], end);
    }
  }

  /**
   One data key per account, from its enabling on and for good: whoever holds
   the secret of any of its wraps gets that key out of whatever list of wraps
   the server sends, every stored body is sealed under it, and every unlocked
   page and every keystore record holds it. Before that there is nothing of
   the account's to open or to hold.
   */
  lemma OneDataKeyPerAccount(acts: seq<Act>, w: World, user: Account)
    requires Reaches(Start, acts, w)
    ensures user in w.db.encrypted ==> exists dek: Dek :: IsTheDataKeyForGood(w, user, dek)
    ensures user in w.db.encrypted ==> forall a: Dek, b: Dek :: IsTheDataKey(w, user, a) && IsTheDataKey(w, user, b) ==> a == b
    ensures user !in w.db.encrypted ==> HasNothing(w, user)
  {
    StartIsGood();
    ReachableIsGood(Start, acts, w);
    if user in w.db.encrypted {
      KeyStaysForGood(w, user);
      forall a: Dek, b: Dek | IsTheDataKey(w, user, a) && IsTheDataKey(w, user, b) ensures a == b {
        DataKeyIsUnique(w.db, user, a, b);
      }
    } else {
      NothingWithoutAKey(w, user);
    }
  }

  lemma KeyStaysForGood(w: World, user: Account)
    requires WorldInv(w) && user in w.deks
    ensures IsTheDataKeyForGood(w, user, w.deks[user])
  {
    forall later: seq<Act>, end: World | Reaches(w, later, end)
      ensures IsTheDataKey(end, user, w.deks[user])
    {
      ReachableIsGood(w, later, end);
      RunExtends(w, later, end);
      DataKeyOfGoodWorld(end, user, w.deks[user]);
    }
  }

  lemma StartIsGood()
    ensures WorldInv(Start)
  {}

  /** A page that claims the account is encrypted is right, so a save it accepts is not refused for want of encryption. */
  lemma TabAndServerAgree(acts: seq<Act>, w: World, i: nat, day: Day, body: Body, size: nat)
    requires Reaches(Start, acts, w) && i in w.pages
    ensures var p := w.pages[i];
      && (p.tab.ctx.state.Locked? || p.tab.ctx.state.Unlocked? ==> p.owner.Some? && p.owner.value in w.db.encrypted)
      && (WritesOf(p.tab.ctx.state, Remote) == Accepted ==>
            && p.owner.Some?
            && Answer(w.db, p.owner.value, SaveEntry(day, body, size)) != Refused(SetUpEncryption))
  {
    StartIsGood();
    ReachableIsGood(Start, acts, w);
    GoodPageAgrees(w, i, day, body, size);
  }

  lemma GoodPageAgrees(w: World, i: nat, day: Day, body: Body, size: nat)
    requires WorldInv(w) && i in w.pages
    ensures var p := w.pages[i];
      && (p.tab.ctx.state.Locked? || p.tab.ctx.state.Unlocked? ==> p.owner.Some? && p.owner.value in w.db.encrypted)
      && (p.tab.ctx.state.Unlocked? ==> Answer(w.db, p.owner.value, SaveEntry(day, body, size)) != Refused(SetUpEncryption))
  {
    assert GoodTab(w.deks, w.pages[i].owner, w.pages[i].tab);
  }

  lemma RowOpens(w: World, i: nat, k: nat, body: Option<Body>)
    requires WorldInv(w) && i in w.pages && IsTold(w, i, Load(Arrives(k, Row(body))))
    ensures !LoadedValue(Row(body), w.pages[i].tab.tasks[k].session).WasUnopenable?
  {
    RowIsGood(w, i, k, body);
    assert GoodTask(w.deks, w.pages[i].owner, w.pages[i].tab.tasks[k]);
  }

  lemma WeekOpens(w: World, i: nat, k: nat, bodies: seq<Body>)
    requires WorldInv(w) && i in w.pages && IsTold(w, i, Load(WeekArrives(k, Some(bodies))))
    ensures !AnyUnopenable(bodies, w.pages[i].tab.tasks[k].session)
  {
    WeekIsGood(w, i, k, bodies);
    assert GoodTask(w.deks, w.pages[i].owner, w.pages[i].tab.tasks[k]);
  }

  /** No stored row is ever unopenable to a page that holds its account's key, ... */
  lemma NoRowIsUnopenable(acts: seq<Act>, w: World, i: nat, k: nat, body: Option<Body>)
    requires Reaches(Start, acts, w) && i in w.pages && IsTold(w, i, Load(Arrives(k, Row(body))))
    ensures !LoadedValue(Row(body), w.pages[i].tab.tasks[k].session).WasUnopenable?
  {
    StartIsGood();
    ReachableIsGood(Start, acts, w);
    RowOpens(w, i, k, body);
  }

  /** ... nor does a week lack a row for that reason. */
  lemma NoWeekIsUnopenable(acts: seq<Act>, w: World, i: nat, k: nat, bodies: seq<Body>)
    requires Reaches(Start, acts, w) && i in w.pages && IsTold(w, i, Load(WeekArrives(k, Some(bodies))))
    ensures !AnyUnopenable(bodies, w.pages[i].tab.tasks[k].session)
  {
    StartIsGood();
    ReachableIsGood(Start, acts, w);
    WeekOpens(w, i, k, bodies);
  }
}
