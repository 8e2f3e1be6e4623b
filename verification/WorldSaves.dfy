/** What is typed comes back: from the save, through the server, to the screen of whoever holds the account's key. */
module WorldSaves {
  import opened Base
  import opened Crypto
  import opened Accounts
  import opened EncryptionState
  import opened Hook
  import opened Tab
  import opened World
  import opened WorldKeys

  /** Of the day that `r` is a save of, the acts save nothing but what `r` does. */
  ghost predicate NoOtherSave(acts: seq<Act>, r: Request)
    requires r.SaveReq?
  {
    forall a :: a in acts && a.Execute? && a.request.SaveReq? && a.request.user == r.user && a.request.day == r.day ==>
      a.request.body == r.body
  }

  predicate IsSaved(w: World, r: Request)
    requires r.SaveReq?
  {
    (r.user, r.day) in w.db.entries && w.db.entries[(r.user, r.day)] == r.body
  }

  lemma ExecutingKeepsSaved(w: World, q: Request, r: Request)
    requires r.SaveReq? && IsSaved(w, r)
    requires q.SaveReq? && q.user == r.user && q.day == r.day ==> q.body == r.body
    ensures IsSaved(Executed(w, q), r)
  {
    match q
    case SaveReq(user, day, body, size) => SaveLeaves(w.db, user, day, body, size, r.user, r.day);
    case EnableReq(_, _, _, _, _, _) => EnableOutcome(w.db, q.user, q.passkey, q.keyBlob);
    case AddReq(_, _, _) =>
    case ReplaceReq(_, _) =>
  }

  lemma NextKeepsSaved(w: World, a: Act, r: Request)
    requires r.SaveReq? && IsSaved(w, r) && Can(w, a) && NoOtherSave([a], r)
    ensures IsSaved(Next(w, a), r)
  {
    assert a in [a];
    match a
    case Execute(q) => ExecutingKeepsSaved(w, q, r);
    case Manage(user, call) => ManagingKeepsEntries(w.db, user, call);
    case _ =>
  }

  lemma ManagingKeepsEntries(db: Db, user: Account, call: Call)
    requires call.RegisterPasskey? || call.DeletePasskey?
    ensures After(db, user, call).entries == db.entries
  {}

  lemma {:induction false} ReachableKeepsSaved(w: World, acts: seq<Act>, end: World, r: Request)
    requires r.SaveReq? && IsSaved(w, r) && Reaches(w, acts, end) && NoOtherSave(acts, r)
    ensures IsSaved(end, r)
    decreases |acts|
  {
    if acts != [] {
      NextKeepsSaved(w, acts[0], r);
      ReachableKeepsSaved(Next(w, acts[0]), acts[1..], end, r);
    }
  }

  lemma NextHears(w: World, a: Act, h: Heard)
    requires Can(w, a) && h in w.heard
    ensures h in Next(w, a).heard
  {}

  lemma {:induction false} ReachableHears(w: World, acts: seq<Act>, end: World, h: Heard)
    requires Reaches(w, acts, end) && h in w.heard
    ensures h in end.heard
    decreases |acts|
  {
    if acts != [] {
      NextHears(w, acts[0], h);
      ReachableHears(Next(w, acts[0]), acts[1..], end, h);
    }
  }

  /** The page's load of that day is the newest there is, and has the account's key. */
  predicate LoadsTheDay(w: World, j: nat, k: nat, user: Account, day: Day) {
    && HasTask(w, j, k) && w.pages[j].owner == Some(user) && w.pages[j].tab.tasks[k].Loading?
    && w.pages[j].tab.tasks[k].token == w.pages[j].tab.hook.generation
    && w.pages[j].tab.tasks[k].inputs.day == day && w.pages[j].tab.tasks[k].inputs.backend == Remote
    && w.pages[j].tab.tasks[k].session.Some?
  }

  /** A sealed row under the very key of a current load is shown as its text. */
  lemma ArrivingIsShown(t: Tab, k: nat, dek: Dek, text: string)
    requires k in t.tasks && t.tasks[k].Loading? && t.tasks[k].token == t.hook.generation
    requires t.tasks[k].session.Some? && t.tasks[k].session.value.dek == dek
    ensures Step(t, Load(Arrives(k, Row(Some(Sealed(dek, text)))))).hook.value == Some(text)
  {
    LoadsItsText(text, t.tasks[k].session.value);
  }

  lemma OpenedAndShown(w: World, j: nat, k: nat, user: Account, day: Day, body: Body)
    requires WorldInv(w) && LoadsTheDay(w, j, k, user, day) && GoodBody(w.deks, user, body)
    ensures Acted(w, j, Load(Arrives(k, Row(Some(body))))).pages[j].tab.hook.value == Some(body.text)
  {
    LoadHasTheKey(w, j, k, user, day);
    ArrivingIsShown(Present(w, j), k, body.dek, body.text);
  }

  lemma LoadHasTheKey(w: World, j: nat, k: nat, user: Account, day: Day)
    requires WorldInv(w) && LoadsTheDay(w, j, k, user, day)
    ensures user in w.deks && w.pages[j].tab.tasks[k].session.value.dek == w.deks[user]
  {
    assert GoodTask(w.deks, w.pages[j].owner, w.pages[j].tab.tasks[k]);
  }

  /** A page that can save has its text sealed and filed, if the server accepts it. */
  lemma SaveIsFiled(w: World, r: Request, i: nat, text: string)
    requires CanSend(w, r, Save(i, text)) && r.SaveReq?
    ensures r.body.Sealed? && r.body.text == text && KeyOf(w.pages[i].tab.ctx.state).Some?
    ensures r.body.dek == KeyOf(w.pages[i].tab.ctx.state).value.dek
  {}

  lemma AcceptedIsSaved(w: World, r: Request)
    requires r.SaveReq? && Answer(w.db, r.user, CallOf(r)) == Done
    ensures IsSaved(Executed(w, r), r)
  {
    SaveLeaves(w.db, r.user, r.day, r.body, r.size, r.user, r.day);
  }

  lemma {:induction false} ReachesOn(w: World, acts: seq<Act>, v: World, more: seq<Act>, end: World)
    requires Reaches(w, acts, v) && Reaches(v, more, end)
    ensures Reaches(w, acts + more, end)
    decreases |acts|
  {
    if acts == [] {
      assert acts + more == more;
    } else {
      assert (acts + more)[0] == acts[0] && (acts + more)[1..] == acts[1..] + more;
      ReachesOn(Next(w, acts[0]), acts[1..], v, more, end);
    }
  }

  /**
   What the server answers for that day, once it has accepted a save of it and
   as long as it is given no other: the body that was sent, which opens under
   the account's key for good.
   */
  lemma SavedIsServed(acts: seq<Act>, w: World, r: Request, more: seq<Act>, v: World, body: Option<Body>)
    requires Reaches(Start, acts, w) && r in w.sent && r.SaveReq? && Answer(w.db, r.user, CallOf(r)) == Done
    requires Reaches(Next(w, Execute(r)), more, v) && NoOtherSave(more, r) && Servable(v, RowHeard(r.user, r.day, body))
    ensures body == Some(r.body) && WorldInv(v) && GoodBody(v.deks, r.user, r.body)
  {
    StartIsGood();
    ReachableIsGood(Start, acts, w);
    NextKeeps(w, Execute(r));
    ReachableIsGood(Next(w, Execute(r)), more, v);
    AcceptedIsSaved(w, r);
    ReachableKeepsSaved(Next(w, Execute(r)), more, v, r);
    assert GoodBody(v.deks, r.user, v.db.entries[(r.user, r.day)]);
  }

  /**
   The round trip: a page seals and sends `text`, the server accepts it, and
   nothing else is saved for that day. What the server then sends of that day
   puts `text` on the screen of any page of the account whose newest load is
   of that day and has a key, whenever it arrives and whatever has happened.
   */
  lemma SavedTextIsShown(acts: seq<Act>, w: World, r: Request, i: nat, text: string, later: seq<Act>, w1: World,
                         more: seq<Act>, w2: World, body: Option<Body>, rest: seq<Act>, w3: World, j: nat, k: nat)
    requires Reaches(Start, acts, w) && r.SaveReq? && CanSend(w, r, Save(i, text))
    requires Reaches(Next(w, Send(r, Save(i, text))), later, w1)
    requires r in w1.sent && Answer(w1.db, r.user, CallOf(r)) == Done
    requires Reaches(Next(w1, Execute(r)), more, w2) && NoOtherSave(more, r)
    requires Servable(w2, RowHeard(r.user, r.day, body))
    requires Reaches(Next(w2, Serve(RowHeard(r.user, r.day, body))), rest, w3) && LoadsTheDay(w3, j, k, r.user, r.day)
    ensures Can(w3, OnPage(j, Load(Arrives(k, Row(body))), Told))
    ensures Next(w3, OnPage(j, Load(Arrives(k, Row(body))), Told)).pages[j].tab.hook.value == Some(text)
  {
    SaveIsFiled(w, r, i, text);
    OneMore(Start, acts, w, Send(r, Save(i, text)));
    ReachesOn(Start, acts + [Send(r, Save(i, text))], Next(w, Send(r, Save(i, text))), later, w1);
    SavedIsServed(acts + [Send(r, Save(i, text))] + later, w1, r, more, w2, body);
    ServedIsShown(w2, r, body, rest, w3, j, k);
  }

  lemma OneMore(w: World, acts: seq<Act>, v: World, a: Act)
    requires Reaches(w, acts, v) && Can(v, a)
    ensures Reaches(w, acts + [a], Next(v, a))
  {
    assert [a][1..] == [] && Reaches(Next(v, a), [], Next(v, a));
    assert Reaches(v, [a], Next(v, a));
    ReachesOn(w, acts, v, [a], Next(v, a));
  }

  lemma ServedIsShown(w: World, r: Request, body: Option<Body>, rest: seq<Act>, end: World, j: nat, k: nat)
    requires WorldInv(w) && r.SaveReq? && body == Some(r.body) && GoodBody(w.deks, r.user, r.body)
    requires Servable(w, RowHeard(r.user, r.day, body))
    requires Reaches(Next(w, Serve(RowHeard(r.user, r.day, body))), rest, end) && LoadsTheDay(end, j, k, r.user, r.day)
    ensures Can(end, OnPage(j, Load(Arrives(k, Row(body))), Told))
    ensures Next(end, OnPage(j, Load(Arrives(k, Row(body))), Told)).pages[j].tab.hook.value == Some(r.body.text)
  {
    var served := Next(w, Serve(RowHeard(r.user, r.day, body)));
    NextKeeps(w, Serve(RowHeard(r.user, r.day, body)));
    ReachableIsGood(served, rest, end);
    RunExtends(served, rest, end);
    ReachableHears(served, rest, end, RowHeard(r.user, r.day, body));
    OpenedAndShown(end, j, k, r.user, r.day, r.body);
  }
}
