/**
 The page's text area is the one of the typed-text race: what happens to it in
 a run of the page, read off as a trace of keystrokes, effect runs and loads.
 */
module TabTyped {
  import opened Base
  import opened Crypto
  import opened Accounts
  import opened EncryptionState
  import opened Keystore
  import opened Hook
  import opened Tab
  import Typed = TypedText

  /** Which of the loads so far took this token. */
  function IndexOf(loads: seq<Typed.Load>, token: nat): (i: nat)
    ensures i < |loads| ==> loads[i].token == token
  {
    if loads == [] || loads[0].token == token then 0 else 1 + IndexOf(loads[1..], token)
  }

  /** What an event of the page is to its text area, if it is anything. */
  function Seen(t: Tab, loads: seq<Typed.Load>, e: Event): seq<Typed.Event> {
    match e
    case User(Type(text)) => [Typed.Keystroke(text)]
    case Effect(LoadEffect) => if LoadDue(t) then [Typed.Rerun(InputsOf(t), KeyOf(t.ctx.state))] else []
    case Load(Arrives(i, fetched)) =>
      (match TaskAt(t, i)
       case Some(Loading(token, _, _)) =>
         [Typed.Completes(IndexOf(loads, token), fetched, t.ctx.StartsReprobe(UnopenableRow))]
       case _ => [])
    case _ => []
  }

  /** The trace so far, and what a run adds to it. */
  function TraceFrom(t: Tab, trace: seq<Typed.Event>, events: seq<Event>): seq<Typed.Event>
    decreases |events|
  {
    if events == [] then trace
    else TraceFrom(Step(t, events[0]), trace + Seen(t, Typed.Play(trace).loads, events[0]), events[1..])
  }

  predicate Tracked(task: Task, s: Typed.Screen)
    requires task.Loading?
  {
    var i := IndexOf(s.loads, task.token);
    i < |s.loads| && s.loads[i] == Typed.Load(task.token, task.inputs, task.session)
  }

  /** The page shows what the screen shows, and its loads in flight are loads of the screen. */
  ghost predicate Follows(t: Tab, s: Typed.Screen) {
    && t.hook == s.hook
    && forall i :: i in t.tasks && t.tasks[i].Loading? ==> Tracked(t.tasks[i], s)
  }

  // --------------------------------------------------------------- one step

  /** The text area and its loads are left alone, but for loads that end. */
  ghost predicate HookStands(t: Tab, u: Tab) {
    && u.hook == t.hook
    && forall i :: i in u.tasks && u.tasks[i].Loading? ==> i in t.tasks && t.tasks[i] == u.tasks[i]
  }

  lemma UserHook(t: Tab, a: UserAct)
    requires !a.Type?
    ensures HookStands(t, UserStep(t, a))
  {
    match a
    case UseKey(i) => if i in t.tasks && t.tasks[i].InHand? { UnlockCalledHook(Dropped(t, i), t.tasks[i].key); }
    case _ =>
  }

  lemma UnlockCalledHook(t: Tab, key: SessionKey)
    ensures HookStands(t, UnlockCalled(t, key))
  {}

  lemma EffectHook(t: Tab, a: EffectAct)
    requires !(a.LoadEffect? && LoadDue(t))
    ensures HookStands(t, EffectStep(t, a))
  {}

  lemma ProbeHook(t: Tab, a: ProbeAct)
    ensures HookStands(t, ProbeStep(t, a))
  {}

  lemma UnlockHook(t: Tab, a: UnlockAct)
    ensures HookStands(t, UnlockStep(t, a))
  {}

  lemma LeaveHook(t: Tab, a: LeaveAct)
    ensures HookStands(t, LeaveStep(t, a))
  {}

  lemma EnterHook(t: Tab, a: EnterAct)
    ensures HookStands(t, EnterStep(t, a))
  {}

  lemma RowSeenHook(t: Tab, row: UnreadableRow)
    ensures HookStands(t, RowSeen(t, row))
  {}

  lemma WeekHook(t: Tab, i: nat, bodies: Option<seq<Body>>)
    ensures HookStands(t, LoadStep(t, WeekArrives(i, bodies)))
  {
    if i in t.tasks && t.tasks[i].WeekLoading? && bodies.Some? {
      var session, left := t.tasks[i].session, Dropped(t, i);
      WeekReportsOneReason(bodies.value, session);
      RowSeenHook(left, if AnySealed(bodies.value, session) then SealedRow else UnopenableRow);
    }
  }

  lemma OtherEventsHook(t: Tab, loads: seq<Typed.Load>, e: Event)
    requires Seen(t, loads, e) == []
    ensures HookStands(t, Step(t, e))
  {
    match e
    case User(a) => UserHook(t, a);
    case Effect(a) => EffectHook(t, a);
    case Probe(a) => ProbeHook(t, a);
    case Unlock(a) => UnlockHook(t, a);
    case Leave(a) => LeaveHook(t, a);
    case Enter(a) => EnterHook(t, a);
    case Load(Arrives(_, _)) =>
    case Load(WeekArrives(i, bodies)) => WeekHook(t, i, bodies);
    case Storage(_) =>
  }

  lemma PlayOneMore(trace: seq<Typed.Event>, e: Typed.Event)
    ensures Typed.Play(trace + [e]) == Typed.Step(Typed.Play(trace), e)
  {
    assert (trace + [e])[..|trace|] == trace;
  }

  lemma {:induction false} IndexGrows(loads: seq<Typed.Load>, last: Typed.Load, token: nat)
    ensures IndexOf(loads, token) < |loads| ==> IndexOf(loads + [last], token) == IndexOf(loads, token)
    ensures (forall i :: 0 <= i < |loads| ==> loads[i].token != token) && last.token == token ==>
            IndexOf(loads + [last], token) == |loads|
  {
    if loads != [] {
      IndexGrows(loads[1..], last, token);
      assert (loads + [last])[1..] == loads[1..] + [last];
    }
  }

  lemma RerunFollows(t: Tab, trace: seq<Typed.Event>)
    requires Follows(t, Typed.Play(trace)) && LoadDue(t)
    ensures Follows(EffectStep(t, LoadEffect), Typed.Play(trace + [Typed.Rerun(InputsOf(t), KeyOf(t.ctx.state))]))
  {
    var s, e, u := Typed.Play(trace), Typed.Rerun(InputsOf(t), KeyOf(t.ctx.state)), EffectStep(t, LoadEffect);
    PlayOneMore(trace, e);
    Typed.TokensAreFaithful(trace);
    var last := Typed.Load(s.hook.Reran().generation, e.inputs, e.key);
    forall i | i in u.tasks && u.tasks[i].Loading? ensures Tracked(u.tasks[i], Typed.Step(s, e)) {
      IndexGrows(s.loads, last, u.tasks[i].token);
    }
  }

  lemma ArrivesFollows(t: Tab, trace: seq<Typed.Event>, i: nat, fetched: Fetched)
    requires Follows(t, Typed.Play(trace)) && i in t.tasks && t.tasks[i].Loading?
    ensures Follows(LoadStep(t, Arrives(i, fetched)),
                    Typed.Play(trace + Seen(t, Typed.Play(trace).loads, Load(Arrives(i, fetched)))))
  {
    var s, task, left := Typed.Play(trace), t.tasks[i], Dropped(t, i);
    var reprobing := t.ctx.StartsReprobe(UnopenableRow);
    PlayOneMore(trace, Typed.Completes(IndexOf(s.loads, task.token), fetched, reprobing));
    assert Tracked(task, s);
    var loaded := LoadedValue(fetched, task.session);
    var shown := left.(hook := left.hook.Finished(task.token, loaded, reprobing));
    RowSeenHook(shown, if loaded.WasSealed? then SealedRow else UnopenableRow);
  }

  /** One event of the page is at most one of the trace. */
  lemma StepFollows(t: Tab, trace: seq<Typed.Event>, e: Event)
    requires Follows(t, Typed.Play(trace))
    ensures Follows(Step(t, e), Typed.Play(trace + Seen(t, Typed.Play(trace).loads, e)))
  {
    if Seen(t, Typed.Play(trace).loads, e) == [] {
      OtherEventsHook(t, Typed.Play(trace).loads, e);
      assert trace + [] == trace;
    } else if e.User? {
      PlayOneMore(trace, Typed.Keystroke(e.user.text));
    } else if e.Effect? {
      RerunFollows(t, trace);
    } else {
      ArrivesFollows(t, trace, e.load.task, e.load.fetched);
    }
  }

  lemma {:induction false} RunFollows(t: Tab, trace: seq<Typed.Event>, events: seq<Event>)
    requires Follows(t, Typed.Play(trace))
    ensures Follows(Run(t, events), Typed.Play(TraceFrom(t, trace, events)))
    decreases |events|
  {
    if events != [] {
      StepFollows(t, trace, events[0]);
      RunFollows(Step(t, events[0]), trace + Seen(t, Typed.Play(trace).loads, events[0]), events[1..]);
    }
  }

  // ------------------------------------------------------------- consequences

  /** Over every run of a page the text area shows what the token-free reference says of its trace. */
  lemma PageShowsExpected(id: nat, user: Option<Account>, store: Store, day: Day, events: seq<Event>)
    ensures var page := Opened(id, user, store, day);
            Run(page, events).hook.value == Typed.Expected(TraceFrom(page, [], events))
  {
    var page := Opened(id, user, store, day);
    RunFollows(page, [], events);
    Typed.ScreenShowsExpected(TraceFrom(page, [], events));
  }

  /** Typing, and the loading effect when it has something to run for. */
  predicate Replaces(t: Tab, e: Event) {
    (e.User? && e.user.Type?) || (e == Effect(LoadEffect) && LoadDue(t))
  }

  predicate NothingReplaces(t: Tab, events: seq<Event>)
    decreases |events|
  {
    events == [] || (!Replaces(t, events[0]) && NothingReplaces(Step(t, events[0]), events[1..]))
  }

  lemma {:induction false} TypingOutlasts(t: Tab, trace: seq<Typed.Event>, events: seq<Event>, text: string)
    requires Typed.TypedSinceRun(trace) == Some(text) && NothingReplaces(t, events)
    ensures Typed.TypedSinceRun(TraceFrom(t, trace, events)) == Some(text)
    decreases |events|
  {
    if events != [] {
      var seen := Seen(t, Typed.Play(trace).loads, events[0]);
      if seen == [] {
        assert trace + seen == trace;
      } else {
        assert (trace + seen)[..|trace + seen| - 1] == trace;
      }
      TypingOutlasts(Step(t, events[0]), trace + seen, events[1..], text);
    }
  }

  /** Text typed on a page stays on screen until more is typed or the loading effect has cause to run, whatever arrives. */
  lemma TypedTextStandsOnThePage(id: nat, user: Option<Account>, store: Store, day: Day,
                                 before: seq<Event>, text: string, events: seq<Event>)
    requires var typed := Step(Run(Opened(id, user, store, day), before), User(Type(text)));
             NothingReplaces(typed, events)
    ensures var typed := Step(Run(Opened(id, user, store, day), before), User(Type(text)));
            Run(typed, events).hook.value == Some(text)
  {
    var page := Opened(id, user, store, day);
    var trace := TraceFrom(page, [], before);
    RunFollows(page, [], before);
    StepFollows(Run(page, before), trace, User(Type(text)));
    TypingStands(Step(Run(page, before), User(Type(text))), trace + [Typed.Keystroke(text)], text, events);
  }

  lemma TypingStands(t: Tab, trace: seq<Typed.Event>, text: string, events: seq<Event>)
    requires Follows(t, Typed.Play(trace)) && Typed.TypedSinceRun(trace) == Some(text) && NothingReplaces(t, events)
    ensures Run(t, events).hook.value == Some(text)
  {
    RunFollows(t, trace, events);
    TypingOutlasts(t, trace, events, text);
    Typed.TypedTextStands(TraceFrom(t, trace, events));
  }
}
