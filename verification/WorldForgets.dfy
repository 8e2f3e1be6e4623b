/**
 Forgetting takes, with every page of every browser running: pages of one
 browser share a keystore and see each other's transactions.
 */
module WorldForgets {
  import opened Base
  import opened Accounts
  import opened Keystore
  import opened Tab
  import opened TabForgets
  import opened World

  /** What one page's step does to the keystore it shares. */
  ghost predicate SharedMove(s: Store, v: Store, page: nat) {
    || v == s
    || (&& |v.queue| > 0 && v == s.Issued(v.queue[|v.queue| - 1])
        && v.queue[|v.queue| - 1].id == s.nextOp && IssuedBy(v.queue[|v.queue| - 1]).page == page)
    || (s.queue != [] && (v == s.Committed() || v == s.Aborted()))
  }

  lemma UserShares(t: Tab, a: UserAct)
    ensures SharedMove(t.store, UserStep(t, a).store, t.id)
  {
    UserStoreMoves(t, a);
  }

  lemma ProbeShares(t: Tab, a: ProbeAct)
    ensures SharedMove(t.store, ProbeStep(t, a).store, t.id)
  {
    ProbeStoreMoves(t, a);
  }

  lemma UnlockShares(t: Tab, a: UnlockAct)
    ensures SharedMove(t.store, UnlockStep(t, a).store, t.id)
  {
    UnlockStoreMoves(t, a);
  }

  lemma LeaveShares(t: Tab, a: LeaveAct)
    ensures SharedMove(t.store, LeaveStep(t, a).store, t.id)
  {
    LeaveStoreMoves(t, a);
  }

  lemma EnterShares(t: Tab, a: EnterAct)
    ensures SharedMove(t.store, EnterStep(t, a).store, t.id)
  {
    EnterStoreMoves(t, a);
  }

  lemma StepShares(t: Tab, e: Event)
    requires !FromElsewhere(e)
    ensures SharedMove(t.store, Step(t, e).store, t.id)
  {
    match e
    case User(a) => UserShares(t, a);
    case Effect(_) =>
    case Probe(a) => ProbeShares(t, a);
    case Unlock(a) => UnlockShares(t, a);
    case Leave(a) => LeaveShares(t, a);
    case Enter(a) => EnterShares(t, a);
    case Load(_) =>
    case Storage(_) =>
  }

  /** Another page's step is, to this page, an event of its own machine. */
  lemma SeenFromElsewhere(t: Tab, v: Store, page: nat) returns (events: seq<Event>)
    requires SharedMove(t.store, v, page) && page != t.id
    ensures Run(t, events) == t.(store := v)
  {
    if v == t.store {
      events := [];
    } else {
      var e := if t.store.queue != [] && v == t.store.Committed() then Storage(Completes)
               else if t.store.queue != [] && v == t.store.Aborted() then Storage(Aborts)
               else Storage(Foreign(v.queue[|v.queue| - 1]));
      events := [e];
      assert events[1..] == [] && Run(Step(t, e), []) == Step(t, e);
    }
  }

  // ------------------------------------------------------------ invariant

  ghost predicate WrittenByPages(s: Store, pages: nat) {
    && (s.record.Some? ==> s.record.value.writer.page < pages)
    && forall k :: 0 <= k < |s.queue| ==> IssuedBy(s.queue[k]).page < pages
  }

  ghost predicate StoresSound(w: World) {
    forall b :: b in w.stores ==> TransactionsNumbered(w.stores[b]) && WrittenByPages(w.stores[b], w.nextPage)
  }

  ghost predicate PageSound(w: World, i: nat)
    requires i in w.pages
  {
    i < w.nextPage && w.pages[i].tab.id == i && ForgetInv(Present(w, i))
  }

  ghost predicate ForgetsInv(w: World) {
    StoresSound(w) && forall i :: i in w.pages ==> PageSound(w, i)
  }

  lemma OwnStepForgets(w: World, i: nat, e: Event)
    requires ForgetsInv(w) && i in w.pages && !FromElsewhere(e)
    ensures var u := Step(Present(w, i), e);
            u.id == i && ForgetInv(u) && SharedMove(StoreOf(w, w.pages[i].browser), u.store, i)
  {
    StepKeepsForget(Present(w, i), e);
    StepShares(Present(w, i), e);
    StepStoreMoves(Present(w, i), e);
  }

  lemma OtherPageForgets(w: World, j: nat, v: Store, page: nat)
    requires ForgetsInv(w) && j in w.pages && j != page && SharedMove(StoreOf(w, w.pages[j].browser), v, page)
    ensures ForgetInv(Present(w, j).(store := v))
  {
    var events := SeenFromElsewhere(Present(w, j), v, page);
    RunKeepsForget(Present(w, j), events);
  }

  lemma SharedStaysWritten(s: Store, v: Store, page: nat, pages: nat)
    requires WrittenByPages(s, pages) && page < pages && SharedMove(s, v, page)
    ensures WrittenByPages(v, pages)
  {}

  lemma EmptyStoreForgets(pages: nat)
    ensures TransactionsNumbered(EmptyStore) && WrittenByPages(EmptyStore, pages)
  {}

  lemma OwnStoreSound(w: World, i: nat, e: Event)
    requires ForgetsInv(w) && i in w.pages && !FromElsewhere(e)
    ensures var store := Step(Present(w, i), e).store; TransactionsNumbered(store) && WrittenByPages(store, w.nextPage)
  {
    var store := Step(Present(w, i), e).store;
    EmptyStoreForgets(w.nextPage);
    assert TransactionsNumbered(store) by { OwnStepForgets(w, i, e); }
    assert PageSound(w, i);
    StepShares(Present(w, i), e);
    SharedStaysWritten(StoreOf(w, w.pages[i].browser), store, i, w.nextPage);
  }

  lemma ActedStores(w: World, i: nat, e: Event)
    requires ForgetsInv(w) && i in w.pages && !FromElsewhere(e)
    ensures StoresSound(Acted(w, i, e))
  {
    OwnStoreSound(w, i, e);
  }

  lemma OwnPage(w: World, i: nat, e: Event)
    requires ForgetsInv(w) && i in w.pages && !FromElsewhere(e)
    ensures PageSound(Acted(w, i, e), i)
  {
    OwnStepForgets(w, i, e);
    assert PageSound(w, i);
    assert Present(Acted(w, i, e), i) == Step(Present(w, i), e);
  }

  lemma SiblingPage(w: World, i: nat, e: Event, j: nat)
    requires ForgetsInv(w) && i in w.pages && !FromElsewhere(e) && j in w.pages && j != i
    requires w.pages[j].browser == w.pages[i].browser
    ensures PageSound(Acted(w, i, e), j)
  {
    var store := Step(Present(w, i), e).store;
    assert SharedMove(StoreOf(w, w.pages[i].browser), store, i) by { OwnStepForgets(w, i, e); }
    OtherPageForgets(w, j, store, i);
    assert PageSound(w, j);
    assert Present(Acted(w, i, e), j) == Present(w, j).(store := store);
  }

  lemma ActedPage(w: World, i: nat, e: Event, j: nat)
    requires ForgetsInv(w) && i in w.pages && !FromElsewhere(e) && j in w.pages
    ensures PageSound(Acted(w, i, e), j)
  {
    if j == i {
      OwnPage(w, i, e);
    } else if w.pages[j].browser == w.pages[i].browser {
      SiblingPage(w, i, e, j);
    } else {
      assert PageSound(w, j) && Present(Acted(w, i, e), j) == Present(w, j);
    }
  }

  lemma ActedForgets(w: World, i: nat, e: Event)
    requires ForgetsInv(w) && i in w.pages && !FromElsewhere(e)
    ensures ForgetsInv(Acted(w, i, e))
  {
    ActedStores(w, i, e);
    forall j | j in w.pages ensures PageSound(Acted(w, i, e), j) {
      ActedPage(w, i, e, j);
    }
  }

  lemma OpenedPageForgets(w: World, owner: Option<Account>, browser: nat, today: Day)
    requires ForgetsInv(w)
    ensures ForgetInv(Opened(w.nextPage, owner, StoreOf(w, browser), today))
  {
    EmptyStoreForgets(w.nextPage);
    OpenedForgetsNothingYet(w.nextPage, owner, StoreOf(w, browser), today);
  }

  lemma OpenForgets(w: World, a: Act)
    requires ForgetsInv(w) && a.OpenPage?
    ensures ForgetsInv(Next(w, a))
  {
    var v := Next(w, a);
    OpenedPageForgets(w, a.owner, a.browser, a.today);
    assert Present(v, w.nextPage) == Opened(w.nextPage, a.owner, StoreOf(w, a.browser), a.today);
    forall j | j in w.pages ensures PageSound(v, j) {
      assert PageSound(w, j) && Present(v, j) == Present(w, j);
    }
  }

  lemma CausedOnThePage(w: World, a: Act)
    requires Can(w, a) && a.OnPage?
    ensures !FromElsewhere(a.event)
  {}

  lemma SamePagesForget(w: World, v: World)
    requires ForgetsInv(w) && v.stores == w.stores && v.nextPage == w.nextPage
    requires forall i :: i in v.pages ==> i in w.pages && v.pages[i] == w.pages[i]
    ensures ForgetsInv(v)
  {
    forall j | j in v.pages ensures PageSound(v, j) {
      assert PageSound(w, j) && Present(v, j) == Present(w, j);
    }
  }

  lemma NextForgets(w: World, a: Act)
    requires ForgetsInv(w) && Can(w, a)
    ensures ForgetsInv(Next(w, a))
  {
    if a.OpenPage? {
      OpenForgets(w, a);
    } else if a.OnPage? {
      CausedOnThePage(w, a);
      ActedForgets(w, a.page, a.event);
    } else {
      SamePagesForget(w, Next(w, a));
    }
  }

  // -------------------------------------------------------------- theorem

  /** Page `i` of browser `b` is past its `count`th forget, and the keystore shows no trace older than that. */
  ghost predicate Forgot(w: World, b: nat, i: nat, count: nat) {
    && i < w.nextPage
    && (i in w.pages ==> w.pages[i].browser == b && w.pages[i].tab.forgets >= count)
    && NothingOlder(StoreOf(w, b), i, count)
  }

  lemma SharedKeepsNothingOlder(s: Store, v: Store, page: nat, i: nat, count: nat)
    requires SharedMove(s, v, page) && page != i && NothingOlder(s, i, count)
    ensures NothingOlder(v, i, count)
  {}

  lemma OwnStepKeepsForgot(w: World, e: Event, b: nat, i: nat, count: nat)
    requires Forgot(w, b, i, count) && i in w.pages && w.pages[i].tab.id == i
    ensures Forgot(Acted(w, i, e), b, i, count)
  {
    StepKeepsFree(Present(w, i), e, count);
    StepStoreMoves(Present(w, i), e);
  }

  lemma OtherStepKeepsForgot(w: World, j: nat, e: Event, b: nat, i: nat, count: nat)
    requires Forgot(w, b, i, count) && j in w.pages && w.pages[j].tab.id == j && j != i && !FromElsewhere(e)
    ensures Forgot(Acted(w, j, e), b, i, count)
  {
    if w.pages[j].browser == b {
      StepShares(Present(w, j), e);
      SharedKeepsNothingOlder(StoreOf(w, b), Step(Present(w, j), e).store, j, i, count);
    }
  }

  lemma ActedKeepsForgot(w: World, j: nat, e: Event, b: nat, i: nat, count: nat)
    requires ForgetsInv(w) && Forgot(w, b, i, count) && j in w.pages && !FromElsewhere(e)
    ensures Forgot(Acted(w, j, e), b, i, count)
  {
    assert PageSound(w, j);
    if j == i {
      OwnStepKeepsForgot(w, e, b, i, count);
    } else {
      OtherStepKeepsForgot(w, j, e, b, i, count);
    }
  }

  lemma NextKeepsForgot(w: World, a: Act, b: nat, i: nat, count: nat)
    requires ForgetsInv(w) && Forgot(w, b, i, count) && Can(w, a)
    ensures Forgot(Next(w, a), b, i, count)
  {
    if a.OnPage? {
      CausedOnThePage(w, a);
      ActedKeepsForgot(w, a.page, a.event, b, i, count);
    }
  }

  lemma {:induction false} ReachableForgets(w: World, acts: seq<Act>, end: World)
    requires ForgetsInv(w) && Reaches(w, acts, end)
    ensures ForgetsInv(end)
    ensures forall b, i, count :: Forgot(w, b, i, count) ==> Forgot(end, b, i, count)
    decreases |acts|
  {
    if acts != [] {
      NextForgets(w, acts[0]);
      forall b, i, count | Forgot(w, b, i, count) ensures Forgot(Next(w, acts[0]), b, i, count) {
        NextKeepsForgot(w, acts[0], b, i, count);
      }
      ReachableForgets(Next(w, acts[0]), acts[1..], end);
    }
  }

  /**
   Once the delete of a "Lock now", a sign-out or a late account check has
   committed, the browser's keystore never again holds a record written by a
   ceremony that page began before it.
   */
  lemma ForgettingTakesEverywhere(acts: seq<Act>, w: World, i: nat, k: nat, more: seq<Act>, end: World)
    requires Reaches(Start, acts, w) && Reaches(w, more, end)
    requires HasTask(w, i, k) && Awaits(w.pages[i].tab.tasks[k]).Some?
    requires Awaits(w.pages[i].tab.tasks[k]).value.0 in StoreOf(w, w.pages[i].browser).committed
    ensures NothingOlder(StoreOf(end, w.pages[i].browser), i, Awaits(w.pages[i].tab.tasks[k]).value.1)
  {
    StartForgets();
    ReachableForgets(Start, acts, w);
    WaitedForIsForgotten(w, i, k);
    ReachableForgets(w, more, end);
  }

  lemma StartForgets()
    ensures ForgetsInv(Start)
  {}

  lemma WaitedForIsForgotten(w: World, i: nat, k: nat)
    requires ForgetsInv(w) && HasTask(w, i, k) && Awaits(w.pages[i].tab.tasks[k]).Some?
    requires Awaits(w.pages[i].tab.tasks[k]).value.0 in StoreOf(w, w.pages[i].browser).committed
    ensures Forgot(w, w.pages[i].browser, i, Awaits(w.pages[i].tab.tasks[k]).value.1)
  {
    assert PageSound(w, i);
  }
}
