/**
 From the moment an enable's success (or any unlock) reaches a page to the end
 of its `unlock`, the page never shows the account as not encrypted, whatever
 older or newer probes are told meanwhile.
 */
module WorldEnable {
  import opened Base
  import opened Accounts
  import opened EncryptionState
  import opened Tab
  import opened TabTokens
  import opened TabQuiet
  import opened World
  import opened WorldKeys

  // ------------------------------------------------------------- one page

  /** The one event that can make a signed-in page say `Disabled`: the newest probe is told so. */
  predicate TellsDisabled(t: Tab, e: Event) {
    match e
    case Probe(Status(k, Some((account, false)))) =>
      k in t.tasks && t.tasks[k] == ProbeStatus(t.ctx.generation, account)
    case _ => false
  }

  ghost predicate UnlocksExplained(t: Tab, u: Tab) {
    forall k :: k in u.tasks && u.tasks[k].UnlockWriting? ==>
      || (k in t.tasks && t.tasks[k] == u.tasks[k])
      || (u.ctx.state.Locked? && u.tasks[k].token == u.ctx.generation == t.ctx.generation + 1)
  }

  ghost predicate DisabledExplained(t: Tab, u: Tab, told: bool) {
    u.user.Some? && u.ctx.state.Disabled? ==> t.ctx.state.Disabled? || told
  }

  ghost predicate Explained(t: Tab, u: Tab, told: bool) {
    UnlocksExplained(t, u) && DisabledExplained(t, u, told)
  }

  lemma UserExplained(t: Tab, a: UserAct)
    ensures Explained(t, UserStep(t, a), false)
  {}

  lemma ProbeExplained(t: Tab, a: ProbeAct)
    ensures Explained(t, ProbeStep(t, a), TellsDisabled(t, Probe(a)))
  {}

  lemma UnlockExplained(t: Tab, a: UnlockAct)
    ensures Explained(t, UnlockStep(t, a), false)
  {}

  lemma EffectExplained(t: Tab, a: EffectAct)
    ensures Explained(t, EffectStep(t, a), false)
  {}

  lemma EnterExplained(t: Tab, a: EnterAct)
    ensures Explained(t, EnterStep(t, a), false)
  {}

  lemma LeaveExplained(t: Tab, a: LeaveAct)
    ensures Explained(t, LeaveStep(t, a), false)
  {}

  lemma LoadExplained(t: Tab, a: LoadAct)
    ensures Explained(t, LoadStep(t, a), false)
  {
    if a.WeekArrives? && a.task in t.tasks && t.tasks[a.task].WeekLoading? && a.bodies.Some? {
      WeekExplained(t, a.task, a.bodies.value);
    } else if a.Arrives? && a.task in t.tasks && t.tasks[a.task].Loading? {
      DayExplained(t, a.task, a.fetched);
    }
  }

  lemma DayExplained(t: Tab, i: nat, fetched: Hook.Fetched)
    requires i in t.tasks && t.tasks[i].Loading?
    ensures Explained(t, LoadStep(t, Arrives(i, fetched)), false)
  {
    var task, left := t.tasks[i], Dropped(t, i);
    var loaded := Hook.LoadedValue(fetched, task.session);
    var shown := left.(hook := left.hook.Finished(task.token, loaded, left.ctx.StartsReprobe(UnopenableRow)));
    RowSeenExplained(shown, if loaded.WasSealed? then SealedRow else UnopenableRow);
  }

  lemma RowSeenExplained(t: Tab, row: UnreadableRow)
    ensures Explained(t, RowSeen(t, row), false)
  {}

  lemma WeekExplained(t: Tab, i: nat, bodies: seq<Crypto.Body>)
    requires i in t.tasks && t.tasks[i].WeekLoading?
    ensures Explained(t, LoadStep(t, WeekArrives(i, Some(bodies))), false)
  {
    var session, left := t.tasks[i].session, Dropped(t, i);
    WeekReportsOneReason(bodies, session);
    RowSeenExplained(left, if Hook.AnySealed(bodies, session) then SealedRow else UnopenableRow);
  }

  lemma StepExplained(t: Tab, e: Event)
    ensures Explained(t, Step(t, e), TellsDisabled(t, e))
  {
    match e
    case User(a) => UserExplained(t, a);
    case Effect(a) => EffectExplained(t, a);
    case Probe(a) => ProbeExplained(t, a);
    case Unlock(a) => UnlockExplained(t, a);
    case Leave(a) => LeaveExplained(t, a);
    case Enter(a) => EnterExplained(t, a);
    case Load(a) => LoadExplained(t, a);
    case Storage(_) =>
  }

  // ------------------------------------------------------------ the world

  /** A probe not yet begun has had no answer. */
  ghost predicate AnswersFollowProbes(w: World) {
    forall h :: h in w.heard && h.StatusHeard? ==>
      h.page < w.nextPage && (h.page in w.pages ==> h.task < w.pages[h.page].tab.nextTask)
  }

  /** While `unlock` writes: not `Disabled`, and no newer probe has been told so. */
  ghost predicate NotDisabled(heard: set<Heard>, i: nat, t: Tab, k: nat)
    requires k in t.tasks && t.tasks[k].UnlockWriting?
  {
    && !t.ctx.state.Disabled?
    && forall j :: j in t.tasks && ProbesFor(t.tasks[j]).Some? && TokenOf(t.tasks[j]).value > t.tasks[k].token ==>
         StatusHeard(i, j, ProbesFor(t.tasks[j]).value, false) !in heard
  }

  ghost predicate UnlocksStand(heard: set<Heard>, i: nat, t: Tab) {
    t.user.Some? ==> forall k :: k in t.tasks && t.tasks[k].UnlockWriting? ==> NotDisabled(heard, i, t, k)
  }

  ghost predicate EnableInv(w: World) {
    && AnswersFollowProbes(w)
    && forall i :: i in w.pages ==> QuietInv(w.pages[i].tab) && UnlocksStand(w.heard, i, w.pages[i].tab)
  }

  /** What an event may tell a page about a probe has been said by the server. */
  predicate Backed(heard: set<Heard>, i: nat, e: Event) {
    match e
    case Probe(Status(k, Some((account, enabled)))) => StatusHeard(i, k, account, enabled) in heard
    case _ => true
  }

  lemma UnlockStands(heard: set<Heard>, i: nat, t: Tab, e: Event, k: nat)
    requires QuietInv(t) && UnlocksStand(heard, i, t) && Backed(heard, i, e)
    requires forall h :: h in heard && h.StatusHeard? && h.page == i ==> h.task < t.nextTask
    requires Step(t, e).user.Some? && k in Step(t, e).tasks && Step(t, e).tasks[k].UnlockWriting?
    ensures NotDisabled(heard, i, Step(t, e), k)
  {
    var u := Step(t, e);
    StepExplained(t, e);
    StepMoves(t, e);
    if k in t.tasks && t.tasks[k] == u.tasks[k] {
      assert NotDisabled(heard, i, t, k);
    }
  }

  lemma StepKeepsUnlocks(heard: set<Heard>, i: nat, t: Tab, e: Event)
    requires QuietInv(t) && UnlocksStand(heard, i, t) && Backed(heard, i, e)
    requires forall h :: h in heard && h.StatusHeard? && h.page == i ==> h.task < t.nextTask
    ensures UnlocksStand(heard, i, Step(t, e)) && QuietInv(Step(t, e)) && Step(t, e).nextTask >= t.nextTask
  {
    var u := Step(t, e);
    StepKeepsQuiet(t, e);
    StepMoves(t, e);
    if u.user.Some? {
      forall k | k in u.tasks && u.tasks[k].UnlockWriting? ensures NotDisabled(heard, i, u, k) {
        UnlockStands(heard, i, t, e, k);
      }
    }
  }

  lemma ActedKeepsEnable(w: World, i: nat, e: Event)
    requires EnableInv(w) && i in w.pages && Backed(w.heard, i, e)
    ensures EnableInv(Acted(w, i, e))
  {
    var t := Present(w, i);
    assert QuietInv(t) && UnlocksStand(w.heard, i, t) by {
      assert UnlocksStand(w.heard, i, w.pages[i].tab);
      assert forall k :: k in t.tasks && t.tasks[k].UnlockWriting? && t.user.Some? ==> NotDisabled(w.heard, i, w.pages[i].tab, k);
    }
    StepKeepsUnlocks(w.heard, i, t, e);
  }

  /** The server's own word to a probe of a page that is unlocking: the account is encrypted. */
  lemma AnswerKeepsUnlocks(w: World, i: nat, j: nat, account: Account, k: nat)
    requires WorldInv(w) && i in w.pages && w.pages[i].tab.user.Some?
    requires k in w.pages[i].tab.tasks && w.pages[i].tab.tasks[k].UnlockWriting?
    requires NotDisabled(w.heard, i, w.pages[i].tab, k)
    ensures NotDisabled(w.heard + {StatusHeard(i, j, account, account in w.db.encrypted)}, i, w.pages[i].tab, k)
  {
    var t, owner := w.pages[i].tab, w.pages[i].owner;
    assert GoodTab(w.deks, owner, t);
    assert GoodTask(w.deks, owner, t.tasks[k]);
    if j in t.tasks && ProbesFor(t.tasks[j]).Some? {
      assert GoodTask(w.deks, owner, t.tasks[j]);
    }
  }

  lemma StatusKeepsUnlocks(w: World, h: Heard, i: nat)
    requires WorldInv(w) && EnableInv(w) && h.StatusHeard? && Servable(w, h) && i in w.pages
    ensures UnlocksStand(w.heard + {h}, i, w.pages[i].tab)
  {
    var t := w.pages[i].tab;
    assert UnlocksStand(w.heard, i, t);
    if t.user.Some? {
      forall k | k in t.tasks && t.tasks[k].UnlockWriting? ensures NotDisabled(w.heard + {h}, i, t, k) {
        assert NotDisabled(w.heard, i, t, k);
        if i == h.page { AnswerKeepsUnlocks(w, i, h.task, h.account, k); }
      }
    }
  }

  lemma ServeStatusKeepsEnable(w: World, h: Heard)
    requires WorldInv(w) && EnableInv(w) && h.StatusHeard? && Servable(w, h)
    ensures EnableInv(w.(heard := w.heard + {h}))
  {
    assert h.page in w.pages && h.task < w.pages[h.page].tab.nextTask by { assert QuietInv(w.pages[h.page].tab); }
    forall i | i in w.pages ensures UnlocksStand(w.heard + {h}, i, w.pages[i].tab) {
      StatusKeepsUnlocks(w, h, i);
    }
  }

  /** Acts that touch no page and answer no probe. */
  lemma SamePagesKeepEnable(w: World, v: World)
    requires EnableInv(w) && v.pages == w.pages && v.nextPage == w.nextPage
    requires forall h :: h in v.heard && h.StatusHeard? ==> h in w.heard
    ensures EnableInv(v)
  {
    forall i | i in v.pages ensures UnlocksStand(v.heard, i, v.pages[i].tab) {
      var t := v.pages[i].tab;
      assert UnlocksStand(w.heard, i, t);
      if t.user.Some? {
        forall k | k in t.tasks && t.tasks[k].UnlockWriting? ensures NotDisabled(v.heard, i, t, k) {
          assert NotDisabled(w.heard, i, t, k);
        }
      }
    }
  }

  lemma PageKeepsEnable(w: World, a: Act)
    requires EnableInv(w) && (a.OpenPage? || a.ClosePage?) && Can(w, a)
    ensures EnableInv(Next(w, a))
  {}

  lemma CausedIsBacked(w: World, i: nat, e: Event, cause: Cause)
    requires i in w.pages && Caused(w, i, e, cause)
    ensures Backed(w.heard, i, e)
  {}

  lemma NextKeepsEnable(w: World, a: Act)
    requires WorldInv(w) && EnableInv(w) && Can(w, a)
    ensures EnableInv(Next(w, a))
  {
    match a
    case OpenPage(_, _, _) => PageKeepsEnable(w, a);
    case ClosePage(_) => PageKeepsEnable(w, a);
    case OnPage(i, e, cause) =>
      CausedIsBacked(w, i, e, cause);
      ActedKeepsEnable(w, i, e);
    case Serve(h) => if h.StatusHeard? { ServeStatusKeepsEnable(w, h); } else { OtherActsKeepEnable(w, a); }
    case _ => OtherActsKeepEnable(w, a);
  }

  lemma OtherActsKeepEnable(w: World, a: Act)
    requires EnableInv(w) && Can(w, a)
    requires a.Send? || a.Execute? || a.LateInsert? || a.Manage? || (a.Serve? && !a.heard.StatusHeard?)
    ensures EnableInv(Next(w, a))
  {
    SamePagesKeepEnable(w, Next(w, a));
  }

  lemma {:induction false} ReachableStands(w: World, acts: seq<Act>, end: World)
    requires WorldInv(w) && EnableInv(w) && Reaches(w, acts, end)
    ensures WorldInv(end) && EnableInv(end)
    decreases |acts|
  {
    if acts != [] {
      NextKeeps(w, acts[0]);
      NextKeepsEnable(w, acts[0]);
      ReachableStands(Next(w, acts[0]), acts[1..], end);
    }
  }

  // ------------------------------------------------------------- theorems

  /** While an `unlock` is writing and the user stays signed in, the page never says `Disabled`. */
  lemma UnlockingIsNeverDisabled(acts: seq<Act>, w: World, i: nat, k: nat)
    requires Reaches(Start, acts, w) && HasTask(w, i, k)
    requires w.pages[i].tab.tasks[k].UnlockWriting? && w.pages[i].tab.user.Some?
    ensures !w.pages[i].tab.ctx.state.Disabled?
  {
    StartIsGood();
    ReachableStands(Start, acts, w);
    assert NotDisabled(w.heard, i, w.pages[i].tab, k);
  }

  /** It begins in the very step the enable's success arrives in ... */
  lemma EnableReplyIsShownAtOnce(acts: seq<Act>, w: World, i: nat, r: Request)
    requires Reaches(Start, acts, w) && i in w.pages && r.EnableReq?
    requires EnableAnswers(w, i, Unlock(Opens(r.task, r.dek)), r)
    requires w.pages[i].tab.user.Some? && w.pages[i].tab.tasks[r.task].Ceremony?
    ensures var t := Acted(w, i, Unlock(Opens(r.task, r.dek))).pages[i].tab;
            t.ctx.state.Unlocked? || (t.ctx.state.Locked? && exists k :: k in t.tasks && t.tasks[k].UnlockWriting?)
  {
    StartIsGood();
    ReachableIsGood(Start, acts, w);
    OwnCeremonyIsTheUsers(w, i, r.task);
    OpeningIsShownAtOnce(Present(w, i), r.task, r.dek);
  }

  lemma OwnCeremonyIsTheUsers(w: World, i: nat, k: nat)
    requires WorldInv(w) && HasTask(w, i, k) && w.pages[i].tab.tasks[k].Ceremony? && w.pages[i].tab.user.Some?
    ensures w.pages[i].tab.user == Some(w.pages[i].tab.tasks[k].who)
  {
    assert GoodTask(w.deks, w.pages[i].owner, w.pages[i].tab.tasks[k]);
  }

  lemma OpeningIsShownAtOnce(t: Tab, i: nat, dek: Crypto.Dek)
    requires i in t.tasks && t.tasks[i].Ceremony? && t.user == Some(t.tasks[i].who)
    ensures var u := UnlockStep(t, Opens(i, dek));
            u.ctx.state.Unlocked? || (u.ctx.state.Locked? && exists k :: k in u.tasks && u.tasks[k].UnlockWriting?)
  {
    var u := UnlockStep(t, Opens(i, dek));
    if !u.ctx.state.Unlocked? {
      assert u.tasks[t.nextTask].UnlockWriting?;
    }
  }

  /** ... and ends with the key, or with whatever a newer operation has shown instead. */
  lemma UnlockEndsNotDisabled(acts: seq<Act>, w: World, i: nat, k: nat)
    requires Reaches(Start, acts, w) && HasTask(w, i, k)
    requires w.pages[i].tab.tasks[k].UnlockWriting? && w.pages[i].tab.user.Some?
    ensures var t := Step(Present(w, i), Unlock(Written(k)));
            k !in t.tasks ==> !t.ctx.state.Disabled?
  {
    UnlockingIsNeverDisabled(acts, w, i, k);
  }
}
