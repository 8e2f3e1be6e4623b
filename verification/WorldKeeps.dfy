/** What a ceremony remembers stays remembered, with every page of every browser running. */
module WorldKeeps {
  import opened Base
  import opened Crypto
  import opened Accounts
  import opened Keystore
  import opened Tab
  import opened TabKeeps
  import opened World
  import opened WorldForgets

  ghost predicate StoresInOrder(w: World) {
    forall b :: b in w.stores ==> InOrder(w.stores[b])
  }

  /** Browser `b` keeps what `op` leaves. */
  ghost predicate KeptBy(w: World, b: nat, op: Op) {
    Kept(StoreOf(w, b), op)
  }

  lemma ActedMoves(w: World, i: nat, e: Event, b: nat)
    requires i in w.pages && !FromElsewhere(e)
    ensures Moved(StoreOf(w, b), StoreOf(Acted(w, i, e), b))
  {
    if b == w.pages[i].browser { StepShares(Present(w, i), e); }
  }

  lemma NextMoves(w: World, a: Act, b: nat)
    requires Can(w, a)
    ensures Moved(StoreOf(w, b), StoreOf(Next(w, a), b))
  {
    if a.OnPage? {
      CausedOnThePage(w, a);
      ActedMoves(w, a.page, a.event, b);
    } else {
      assert Next(w, a).stores == w.stores;
    }
  }

  lemma StoresKeepOrder(w: World, a: Act)
    requires StoresInOrder(w) && Can(w, a)
    ensures StoresInOrder(Next(w, a))
  {
    forall b | b in Next(w, a).stores ensures InOrder(Next(w, a).stores[b]) {
      NextMoves(w, a, b);
      MovingKeeps(StoreOf(w, b), StoreOf(Next(w, a), b), Clear(0, Writer(0, 0)));
    }
  }

  lemma {:induction false} ReachableInOrder(w: World, acts: seq<Act>, end: World)
    requires StoresInOrder(w) && Reaches(w, acts, end)
    ensures StoresInOrder(end)
    decreases |acts|
  {
    if acts != [] {
      StoresKeepOrder(w, acts[0]);
      ReachableInOrder(Next(w, acts[0]), acts[1..], end);
    }
  }

  lemma {:induction false} ReachableKeeps(w: World, acts: seq<Act>, end: World, b: nat, op: Op)
    requires StoresInOrder(w) && Reaches(w, acts, end) && KeptBy(w, b, op)
    ensures KeptBy(end, b, op)
    decreases |acts|
  {
    if acts != [] {
      NextMoves(w, acts[0], b);
      MovingKeeps(StoreOf(w, b), StoreOf(Next(w, acts[0]), b), op);
      StoresKeepOrder(w, acts[0]);
      ReachableKeeps(Next(w, acts[0]), acts[1..], end, b, op);
    }
  }

  lemma StartInOrder()
    ensures StoresInOrder(Start)
  {}

  /**
   A ceremony opens its key on a page whose account is signed in and that has
   forgotten nothing since it began. From then on, in every world reached,
   every page of that browser that looks finds that key for that account, once
   its transaction has committed and until a later one does.
   */
  lemma RememberedEverywhere(acts: seq<Act>, w: World, i: nat, k: nat, dek: Dek, cause: Cause, more: seq<Act>, end: World)
    requires Reaches(Start, acts, w) && HasTask(w, i, k) && w.pages[i].tab.tasks[k].Ceremony?
    requires w.pages[i].tab.user == Some(w.pages[i].tab.tasks[k].who)
    requires w.pages[i].tab.tasks[k].captured == w.pages[i].tab.forgets
    requires Can(w, OnPage(i, Unlock(Opens(k, dek)), cause))
    requires Reaches(Next(w, OnPage(i, Unlock(Opens(k, dek)), cause)), more, end)
    ensures var b := w.pages[i].browser;
      Newest(StoreOf(end, b), StoreOf(w, b).nextOp) ==> StoreOf(end, b).Found(w.pages[i].tab.tasks[k].who) == Some(dek)
  {
    StartInOrder();
    ReachableInOrder(Start, acts, w);
    OpeningIsKept(w, i, k, dek);
    var act, put := OnPage(i, Unlock(Opens(k, dek)), cause), PutBy(Present(w, i), w.pages[i].tab.tasks[k].who, dek);
    StoresKeepOrder(w, act);
    ReachableKeeps(Next(w, act), more, end, w.pages[i].browser, put);
  }

  lemma OpeningIsKept(w: World, i: nat, k: nat, dek: Dek)
    requires StoresInOrder(w) && HasTask(w, i, k) && w.pages[i].tab.tasks[k].Ceremony?
    requires w.pages[i].tab.user == Some(w.pages[i].tab.tasks[k].who)
    requires w.pages[i].tab.tasks[k].captured == w.pages[i].tab.forgets
    ensures KeptBy(Acted(w, i, Unlock(Opens(k, dek))), w.pages[i].browser,
                   PutBy(Present(w, i), w.pages[i].tab.tasks[k].who, dek))
  {
    CeremonyPuts(Present(w, i), k, dek);
  }

  /** The same for the key that a sign-in opens. */
  lemma SignInIsRemembered(acts: seq<Act>, w: World, i: nat, k: nat, who: Account, dek: Dek, cause: Cause,
                           more: seq<Act>, end: World)
    requires Reaches(Start, acts, w) && HasTask(w, i, k) && w.pages[i].tab.tasks[k] == SignIn(w.pages[i].tab.forgets)
    requires Can(w, OnPage(i, Enter(SignInOpens(k, who, dek)), cause))
    requires Reaches(Next(w, OnPage(i, Enter(SignInOpens(k, who, dek)), cause)), more, end)
    ensures var b := w.pages[i].browser;
      Newest(StoreOf(end, b), StoreOf(w, b).nextOp) ==> StoreOf(end, b).Found(who) == Some(dek)
  {
    StartInOrder();
    ReachableInOrder(Start, acts, w);
    var act, put := OnPage(i, Enter(SignInOpens(k, who, dek)), cause), PutBy(Present(w, i), who, dek);
    SignInPuts(Present(w, i), k, who, dek);
    StoresKeepOrder(w, act);
    ReachableKeeps(Next(w, act), more, end, w.pages[i].browser, put);
  }
}
